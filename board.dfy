/** What the recorder learns from the board when it starts: the sampling
    rate, how many rows each poll result has, and which of those rows are
    EEG channels. The values for the Muse 2 headset come from the board
    library; only the channel labels are fixed by the application. */
module Board {
  /** Labels of the four EEG channels, in the order of the EEG row indices. */
  const ChannelNames: seq<string> := ["TP9", "AF7", "AF8", "TP10"]

  datatype Config = Config(samplingRate: nat, numRows: nat, eegChannels: seq<nat>)
  {
    /** A positive sampling rate, one label per EEG channel, and EEG row
        indices that exist in every poll result. */
    predicate Valid() {
      && samplingRate > 0
      && |eegChannels| == |ChannelNames|
      && forall i :: 0 <= i < |eegChannels| ==> eegChannels[i] < numRows
    }
  }
}
