/** The recording side of the streamer window: the session buffer and its
    sample counter, the recording flag, the enabled state of the Start and
    Stop buttons, and the refresh timer of the live plot. Starting checks the
    form and starts the board, recording polls the board until the session
    ends, stopping returns the window to idle and saves the recording. */
module Session {
  import opened Wrappers
  import opened Matrices
  import opened Board
  import opened Render
  import opened Finalize
  import opened Listing
  import opened Acquisition

  /** Why pressing Start did not start a session. `InvalidDuration` is the
      error `int` raises on a lone `+` or on a group separator; it escapes
      the click handler after the controls were already switched. */
  datatype StartError = MissingDuration | MissingFilename | InvalidDuration | HardwareError

  /** A saved recording: the file name and what was written to it. */
  datatype SavedFile = SavedFile(name: string, recording: Recording)

  predicate IsDigits(s: string) {
    forall i :: 0 <= i < |s| ==> '0' <= s[i] <= '9'
  }

  /** The digit group separator of the C and English locales, which the
      field's integer validator accepts between digits. */
  const GroupSeparator: char := ','

  /** Decimal digits, possibly grouped by separators. */
  predicate IsGroupedDigits(s: string) {
    forall i :: 0 <= i < |s| ==> '0' <= s[i] <= '9' || s[i] == GroupSeparator
  }

  /** The texts the duration field can hold: its integer validator admits
      decimal digits and group separators after an optional leading `+`
      (these texts include every one it admits, finished or not). */
  predicate IsDurationText(s: string) {
    IsGroupedDigits(s) || (|s| > 0 && s[0] == '+' && IsGroupedDigits(s[1..]))
  }

  /** The value of a string of decimal digits. */
  function DecimalValue(s: string): nat
    requires IsDigits(s)
  {
    if s == [] then 0 else 10 * DecimalValue(s[..|s| - 1]) + (s[|s| - 1] - '0') as nat
  }

  /** Python's `int` on a non-empty duration text: the digits' value, with a
      leading `+` skipped; `None` where `int` raises, which among these texts
      is the lone sign and every text holding a group separator. */
  function ParseInt(s: string): (r: Option<nat>)
    requires IsDurationText(s) && s != ""
    ensures r.None? <==> s == "+" || GroupSeparator in s
    ensures IsDigits(s) ==> r == Some(DecimalValue(s))
  {
    if s == "+" || GroupSeparator in s then None
    else if s[0] == '+' then
      assert IsDigits(s[1..]) by {
        forall i | 0 <= i < |s[1..]| ensures '0' <= s[1..][i] <= '9' {
          assert s[1..][i] == s[i + 1];
        }
      }
      Some(DecimalValue(s[1..]))
    else Some(DecimalValue(s))
  }

  /** Leading zeros do not change the value. */
  lemma {:induction false} LeadingZeroIgnored(s: string)
    requires IsDigits(s)
    ensures IsDigits("0" + s) && DecimalValue("0" + s) == DecimalValue(s)
    decreases |s|
  {
    var z := "0" + s;
    assert IsDigits(z) by {
      forall i | 0 <= i < |z| ensures '0' <= z[i] <= '9' {
        if i > 0 { assert z[i] == s[i - 1]; }
      }
    }
    if s != [] {
      var init := s[..|s| - 1];
      assert z[..|z| - 1] == "0" + init;
      assert z[|z| - 1] == s[|s| - 1];
      LeadingZeroIgnored(init);
    }
  }

  /** A leading `+` does not change the value of digits that follow it. */
  lemma PlusSignIgnored(s: string)
    requires IsDigits(s) && s != ""
    ensures IsDurationText("+" + s) && ParseInt("+" + s) == ParseInt(s) == Some(DecimalValue(s))
  {
    assert ("+" + s)[1..] == s;
  }

  /** What saving does with the buffer: assemble the recording and name it
      after the filename field. */
  function SaveRecording(chunks: seq<Matrix>, cfg: Config, filenameText: string): (r: Result<SavedFile, FinalizeError>)
    requires cfg.Valid() && AllOfHeight(chunks, cfg.numRows)
    ensures r.Failure? <==> chunks == []
    ensures r.Success? ==>
      && r.value.name == filenameText + RecordingSuffix
      && CreateRaw(chunks, cfg) == Success(r.value.recording)
  {
    match CreateRaw(chunks, cfg)
    case Failure(e) => Failure(e)
    case Success(rec) => Success(SavedFile(SaveName(filenameText), rec))
  }

  class EegStreamApp {
    const cfg: Config
    /** The session buffer: the non-empty poll results, in poll order. */
    var eegData: seq<Matrix>
    /** Running number of samples in the buffer. */
    var eegDataCount: nat
    var isRecording: bool
    var startEnabled: bool
    var stopEnabled: bool
    /** Whether the 100 ms refresh timer of the live plot is running. */
    var timerActive: bool
    /** The last recording assembled for saving. */
    var raw: Option<Recording>

    /** The buttons follow the recording flag: Start is enabled exactly when
        not recording, Stop exactly when recording. The refresh timer only
        runs while recording (a start that fails on the duration leaves the
        flag set with no timer). */
    predicate ControlsMatch()
      reads this
    {
      startEnabled == !isRecording && stopEnabled == isRecording && (timerActive ==> isRecording)
    }

    /** Not recording, Start enabled, Stop disabled, no timer. */
    predicate Idle()
      reads this
    {
      !isRecording && startEnabled && !stopEnabled && !timerActive
    }

    /** The counter is the number of columns in the buffer, and the buffer
        holds only non-empty blocks of the board's shape. */
    predicate Valid()
      reads this
    {
      && cfg.Valid()
      && AllOfHeight(eegData, cfg.numRows)
      && (forall k :: 0 <= k < |eegData| ==> HasSamples(eegData[k]))
      && eegDataCount == TotalWidth(eegData)
      && ControlsMatch()
    }

    constructor (cfg: Config)
      requires cfg.Valid()
      ensures Valid() && Idle()
      ensures this.cfg == cfg && eegData == [] && eegDataCount == 0 && raw == None
    {
      this.cfg := cfg;
      eegData := [];
      eegDataCount := 0;
      isRecording := false;
      startEnabled := true;
      stopEnabled := false;
      timerActive := false;
      raw := None;
    }

    /** Pressing Start, which is possible only while the button is enabled.
        The duration field holds only what its validator admits. An empty
        duration or filename is rejected with nothing changed. Otherwise the
        flag is set and the buttons swapped before the duration is parsed; a
        lone `+` or a grouped number such as `1,000` then fails to parse, and
        the error escapes the click handler
        (the application's default handling of it then terminates the
        program). The result is `InvalidDuration` with the fields as the
        handler left them: switched, buffer untouched, no timer. A parsed duration
        clears the buffer and starts the board (`boardStarts` says whether
        preparing the session and starting the stream succeed); when that
        fails the window is back to idle, else the session is running with
        the parsed duration, ready for the recording thread. */
    method StartRecording(durationText: string, filenameText: string, boardStarts: bool)
      returns (r: Result<nat, StartError>)
      requires Valid() && startEnabled && IsDurationText(durationText)
      modifies this
      ensures Valid() && raw == old(raw)
      ensures durationText == "" ==> r == Failure(MissingDuration)
      ensures durationText != "" && filenameText == "" ==> r == Failure(MissingFilename)
      ensures durationText == "" || filenameText == "" ==>
                && eegData == old(eegData) && eegDataCount == old(eegDataCount)
                && isRecording == old(isRecording) && startEnabled == old(startEnabled)
                && stopEnabled == old(stopEnabled) && timerActive == old(timerActive)
      ensures (durationText == "+" || GroupSeparator in durationText) && filenameText != "" ==>
                && r == Failure(InvalidDuration)
                && isRecording && !startEnabled && stopEnabled && !timerActive
                && eegData == old(eegData) && eegDataCount == old(eegDataCount)
      ensures durationText != "" && durationText != "+" && GroupSeparator !in durationText && filenameText != "" ==>
                eegData == [] && eegDataCount == 0
      ensures durationText != "" && durationText != "+" && GroupSeparator !in durationText && filenameText != "" && !boardStarts ==>
                r == Failure(HardwareError) && Idle()
      ensures durationText != "" && durationText != "+" && GroupSeparator !in durationText && filenameText != "" && boardStarts ==>
                && r == Success(ParseInt(durationText).value)
                && isRecording && !startEnabled && stopEnabled && timerActive
    {
      if durationText == "" {
        return Failure(MissingDuration);
      }
      if filenameText == "" {
        return Failure(MissingFilename);
      }
      isRecording := true;
      startEnabled := false;
      stopEnabled := true;
      var parsed := ParseInt(durationText);
      if parsed.None? {
        return Failure(InvalidDuration);
      }
      var duration := parsed.value;
      eegData := [];
      eegDataCount := 0;
      if !boardStarts {
        isRecording := false;
        startEnabled := true;
        stopEnabled := false;
        return Failure(HardwareError);
      }
      timerActive := true;
      r := Success(duration);
    }

    /** Stopping, by the Stop button or at the end of the recording thread:
        the window goes back to idle and the buffer is saved under the
        filename field's text. Saving an empty buffer fails (the flags are
        already reset by then) and leaves `raw` as it was; the program's
        error there ends the click handler or the recording thread. */
    method StopRecording(filenameText: string) returns (saved: Result<SavedFile, FinalizeError>)
      requires Valid()
      modifies this
      ensures Valid() && Idle()
      ensures eegData == old(eegData) && eegDataCount == old(eegDataCount)
      ensures saved == SaveRecording(eegData, cfg, filenameText)
      ensures raw == if saved.Success? then Some(saved.value.recording) else old(raw)
    {
      isRecording := false;
      startEnabled := true;
      stopEnabled := false;
      timerActive := false;
      saved := SaveRecording(eegData, cfg, filenameText);
      if saved.Success? {
        raw := Some(saved.value.recording);
      }
    }

    /** The recording thread. While fewer than `duration` seconds are
        sampled and the flag (`observed[i]` at the `i`-th check) is set, it
        polls the board and appends every non-empty result; after the loop
        it polls once more, appends that result if non-empty, and stops.
        `polled` is how many polls were made. */
    method RecordData(duration: nat, observed: seq<bool>, polls: seq<Matrix>, filenameText: string)
      returns (polled: nat, saved: Result<SavedFile, FinalizeError>)
      requires Valid() && Schedule(observed, polls) && AllOfHeight(polls, cfg.numRows)
      modifies this
      ensures Valid() && Idle()
      ensures polled == LoopExit(old(eegDataCount), cfg.samplingRate, duration, observed, polls) + 1
      ensures eegData == old(eegData) + Kept(polls[..polled])
      ensures eegDataCount == CountAfter(old(eegDataCount), polls, polled)
      ensures saved == SaveRecording(eegData, cfg, filenameText)
      ensures raw == if saved.Success? then Some(saved.value.recording) else old(raw)
    {
      ghost var count0, data0 := eegDataCount, eegData;
      ghost var n := LoopExit(count0, cfg.samplingRate, duration, observed, polls);
      var i := 0;
      while eegDataCount / cfg.samplingRate < duration
        invariant 0 <= i <= n
        invariant ExitFrom(count0, cfg.samplingRate, duration, observed, polls, i) == n
        invariant eegData == data0 + Kept(polls[..i])
        invariant eegDataCount == CountAfter(count0, polls, i)
        invariant Valid() && raw == old(raw)
        decreases n - i
      {
        if !observed[i] {
          break;
        }
        AppendPoll(polls, i, count0, data0);
        i := i + 1;
      }
      AppendPoll(polls, i, count0, data0);
      polled := i + 1;
      saved := StopRecording(filenameText);
    }

    /** One poll of the loop: append `polls[i]` when it carries samples. */
    method AppendPoll(polls: seq<Matrix>, i: nat, ghost count0: nat, ghost data0: seq<Matrix>)
      requires Valid() && i < |polls| && AllOfHeight(polls, cfg.numRows)
      requires eegData == data0 + Kept(polls[..i]) && eegDataCount == CountAfter(count0, polls, i)
      modifies this`eegData, this`eegDataCount
      ensures Valid()
      ensures eegData == data0 + Kept(polls[..i + 1]) && eegDataCount == CountAfter(count0, polls, i + 1)
    {
      CountStep(count0, polls, i);
      var data := polls[i];
      if data.Size() > 0 {
        TotalWidthAppend(eegData, [data]);
        assert [data][1..] == [];
        eegData := eegData + [data];
        eegDataCount := eegDataCount + data.width;
      }
    }

    /** One refresh of the live plot: reads the buffer and changes nothing.
        Nothing is drawn before the first samples arrive; afterwards the
        window shows the last three seconds, or everything when less has
        been recorded. */
    method UpdatePlot() returns (p: Option<PlotData>)
      requires Valid()
      ensures p == TrailingPlot(eegData, cfg)
      ensures p.None? <==> eegDataCount == 0
      ensures p.Some? ==>
                p.value.width == (if eegDataCount > WindowLength(cfg) then WindowLength(cfg) else eegDataCount)
    {
      if eegData != [] {
        assert eegData[0].Size() > 0 && eegDataCount == eegData[0].width + TotalWidth(eegData[1..]);
      }
      p := TrailingPlot(eegData, cfg);
    }
  }
}
