/** Building the recording that is saved when a session stops: the buffer
    joined along the time axis, restricted to the EEG rows, converted from
    microvolts to volts, and labelled with the channel names and sampling
    rate. */
module Finalize {
  import opened Wrappers
  import opened Matrices
  import opened Board

  /** The board reports microvolts; the saved recording holds volts. */
  const MicrovoltsPerVolt: real := 1000000.0

  /** An assembled recording: EEG rows in volts, their labels, and the rate. */
  datatype Recording = Recording(data: Matrix, channelNames: seq<string>, samplingRate: nat)

  /** Joining an empty buffer fails: there is nothing to concatenate. */
  datatype FinalizeError = NoData

  /** The recording assembled from the buffer `chunks`. */
  function CreateRaw(chunks: seq<Matrix>, cfg: Config): (r: Result<Recording, FinalizeError>)
    requires cfg.Valid() && AllOfHeight(chunks, cfg.numRows)
    ensures r.Failure? <==> chunks == []
    ensures r.Failure? ==> r.error == NoData
    ensures r.Success? ==>
      && r.value.data.Wf()
      && |r.value.data.rows| == |cfg.eegChannels|
      && r.value.data.width == TotalWidth(chunks)
      && r.value.channelNames == ChannelNames
      && r.value.samplingRate == cfg.samplingRate
      && forall i, j :: 0 <= i < |cfg.eegChannels| && 0 <= j < r.value.data.width ==>
           r.value.data.rows[i][j] * MicrovoltsPerVolt == SampleAt(chunks, cfg.numRows, cfg.eegChannels[i], j)
  {
    if chunks == [] then Failure(NoData)
    else
      var eeg := SelectRows(ConcatColumns(chunks, cfg.numRows), cfg.eegChannels);
      Success(Recording(DivideAll(eeg, MicrovoltsPerVolt), ChannelNames, cfg.samplingRate))
  }

  /** Finalizing is order-preserving: the recording of two buffers appended
      to one another is, row by row, the first recording followed by the
      second. */
  lemma CreateRawAppend(a: seq<Matrix>, b: seq<Matrix>, cfg: Config, i: nat)
    requires cfg.Valid() && AllOfHeight(a, cfg.numRows) && AllOfHeight(b, cfg.numRows)
    requires a != [] && b != [] && i < |cfg.eegChannels|
    ensures AllOfHeight(a + b, cfg.numRows)
    ensures CreateRaw(a + b, cfg).value.data.rows[i] ==
              CreateRaw(a, cfg).value.data.rows[i] + CreateRaw(b, cfg).value.data.rows[i]
  {
    var ra, rb := CreateRaw(a, cfg).value.data.rows[i], CreateRaw(b, cfg).value.data.rows[i];
    assert AllOfHeight(a + b, cfg.numRows);
    var rab := CreateRaw(a + b, cfg).value.data.rows[i];
    TotalWidthAppend(a, b);
    assert |rab| == |ra| + |rb|;
    forall j | 0 <= j < |rab|
      ensures rab[j] == (ra + rb)[j]
    {
      SampleAppend(a, b, cfg.numRows, cfg.eegChannels[i], j);
    }
  }
}
