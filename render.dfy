/** The live plot refreshed every 100 ms while recording: the EEG rows of the
    buffer, cut to a trailing window of three seconds, with one tick per
    second. Only the data and axis values handed to the plotting library are
    modelled. */
module Render {
  import opened Wrappers
  import opened Matrices
  import opened Board

  /** One plotted channel: its label and the samples in the window. */
  datatype Line = Line(name: string, samples: seq<real>)

  /** What one refresh draws. The window starts at global sample
      `startSample`, that is `startSample / samplingRate` seconds into the
      recording; `ticks` are x positions within the window and `tickLabels`
      the whole seconds written under them. */
  datatype PlotData = PlotData(lines: seq<Line>, width: nat, startSample: nat,
                               ticks: seq<nat>, tickLabels: seq<int>)

  /** Number of samples shown: three seconds. */
  function WindowLength(cfg: Config): (w: nat)
    ensures cfg.samplingRate > 0 ==> w % cfg.samplingRate == 0 && w / cfg.samplingRate == 3
  {
    3 * cfg.samplingRate
  }

  /** Tick positions `t, t + step, t + 2 * step, ...` strictly below `limit`
      (numpy's `arange(t, limit, step)` on integers): the `i`-th tick is
      `i` steps past `t`, and the next step would reach `limit`. */
  function TicksFrom(t: nat, limit: nat, step: nat): (r: seq<nat>)
    requires step > 0
    ensures forall i :: 0 <= i < |r| ==> r[i] == t + i * step && r[i] < limit
    ensures t + |r| * step >= limit
    decreases limit - t
  {
    if t >= limit then [] else [t] + TicksFrom(t + step, limit, step)
  }

  lemma MulMonotone(a: nat, b: nat, c: nat)
    requires a <= b
    ensures a * c <= b * c
  {
  }

  /** The ticks of a window of `width` samples are the multiples `m * fs`
      below `width`, all of them and in increasing order. */
  lemma TicksExact(width: nat, fs: nat, m: nat)
    requires fs > 0
    ensures var r := TicksFrom(0, width, fs);
            (m < |r| <==> m * fs < width) && (m < |r| ==> r[m] == m * fs)
  {
    var r := TicksFrom(0, width, fs);
    if m < |r| {
      assert r[m] == 0 + m * fs;
    } else {
      MulMonotone(|r|, m, fs);
    }
  }

  /** The label under a tick: the whole seconds elapsed at that tick, that is
      the floor of `startSample / fs + tick / fs` computed exactly. */
  function TickLabel(startSample: nat, tick: nat, fs: nat): (second: int)
    requires fs > 0
    ensures second * fs <= startSample + tick < (second + 1) * fs
  {
    (startSample + tick) / fs
  }

  lemma DivUnique(a: nat, d: nat, q: nat, rem: nat)
    requires d > 0 && rem < d && a == q * d + rem
    ensures a / d == q
  {
    if a / d < q {
      MulMonotone(a / d + 1, q, d);
    } else if a / d > q {
      MulMonotone(q + 1, a / d, d);
    }
  }

  /** First global sample shown when `total` samples exist and at most `w`
      are shown. */
  function WindowStart(total: nat, w: nat): (start: nat)
    ensures start <= total && total - start == (if total > w then w else total)
  {
    if total > w then total - w else 0
  }

  /** The EEG rows of the buffer, cut to the trailing window. */
  function EegWindow(chunks: seq<Matrix>, cfg: Config): (win: Matrix)
    requires chunks != [] && cfg.Valid() && AllOfHeight(chunks, cfg.numRows)
    ensures win.Wf() && |win.rows| == |cfg.eegChannels|
    ensures win.width == if TotalWidth(chunks) > WindowLength(cfg) then WindowLength(cfg) else TotalWidth(chunks)
  {
    TrailingColumns(SelectRows(ConcatColumns(chunks, cfg.numRows), cfg.eegChannels), WindowLength(cfg))
  }

  /** Row `i` of the window is EEG channel `i` from the window's first
      global sample on. */
  lemma EegWindowSamples(chunks: seq<Matrix>, cfg: Config, i: nat, j: nat)
    requires chunks != [] && cfg.Valid() && AllOfHeight(chunks, cfg.numRows)
    requires i < |cfg.eegChannels| && j < EegWindow(chunks, cfg).width
    ensures WindowStart(TotalWidth(chunks), WindowLength(cfg)) + j < TotalWidth(chunks)
    ensures EegWindow(chunks, cfg).rows[i][j] ==
              SampleAt(chunks, cfg.numRows, cfg.eegChannels[i], WindowStart(TotalWidth(chunks), WindowLength(cfg)) + j)
  {
    var all := ConcatColumns(chunks, cfg.numRows);
    var eeg := SelectRows(all, cfg.eegChannels);
    var win := TrailingColumns(eeg, WindowLength(cfg));
    assert win.rows[i] == eeg.rows[i][eeg.width - win.width..];
    assert win.rows[i][j] == eeg.rows[i][eeg.width - win.width + j];
    assert eeg.rows[i] == all.rows[cfg.eegChannels[i]];
  }

  /** The plot drawn for a window that starts at global sample `start`:
      one line per row, named after the channels, with a tick per second. */
  function PlotOf(win: Matrix, start: nat, fs: nat): (p: PlotData)
    requires fs > 0 && win.Wf() && |win.rows| == |ChannelNames|
    ensures |p.lines| == |win.rows| && p.width == win.width && p.startSample == start
    ensures forall i :: 0 <= i < |p.lines| ==> p.lines[i] == Line(ChannelNames[i], win.rows[i])
    ensures p.ticks == TicksFrom(0, win.width, fs) && |p.tickLabels| == |p.ticks|
    ensures forall k :: 0 <= k < |p.ticks| ==> p.tickLabels[k] == TickLabel(start, p.ticks[k], fs)
  {
    var ticks := TicksFrom(0, win.width, fs);
    PlotData(
      seq(|win.rows|, i requires 0 <= i < |win.rows| => Line(ChannelNames[i], win.rows[i])),
      win.width,
      start,
      ticks,
      seq(|ticks|, k requires 0 <= k < |ticks| => TickLabel(start, ticks[k], fs)))
  }

  /** Every cell of the window: row `i` is EEG channel `i` from the
      window's first global sample on. */
  lemma EegWindowAll(chunks: seq<Matrix>, cfg: Config)
    requires chunks != [] && cfg.Valid() && AllOfHeight(chunks, cfg.numRows)
    ensures forall i, j :: 0 <= i < |cfg.eegChannels| && 0 <= j < EegWindow(chunks, cfg).width ==>
              EegWindow(chunks, cfg).rows[i][j] ==
                SampleAt(chunks, cfg.numRows, cfg.eegChannels[i], WindowStart(TotalWidth(chunks), WindowLength(cfg)) + j)
  {
    forall i, j | 0 <= i < |cfg.eegChannels| && 0 <= j < EegWindow(chunks, cfg).width {
      EegWindowSamples(chunks, cfg, i, j);
    }
  }

  /** The plot for the current buffer, or `None` when nothing was captured
      yet (the refresh then draws nothing). Line `i` is labelled with the
      `i`-th channel name and shows that EEG channel over the window, which
      ends at the newest sample. */
  function TrailingPlot(chunks: seq<Matrix>, cfg: Config): (p: Option<PlotData>)
    requires cfg.Valid() && AllOfHeight(chunks, cfg.numRows)
    ensures p.None? <==> chunks == []
    ensures p.Some? ==>
      var total, w := TotalWidth(chunks), WindowLength(cfg);
      && p.value.width == (if total > w then w else total)
      && p.value.startSample == (if total > w then total - w else 0)
      && p.value.startSample + p.value.width == total
    ensures p.Some? ==>
      && |p.value.lines| == |cfg.eegChannels|
      && forall i :: 0 <= i < |p.value.lines| ==>
           p.value.lines[i].name == ChannelNames[i] && |p.value.lines[i].samples| == p.value.width
    ensures p.Some? ==>
      forall i, j :: 0 <= i < |p.value.lines| && 0 <= j < p.value.width ==>
        p.value.lines[i].samples[j] ==
          SampleAt(chunks, cfg.numRows, cfg.eegChannels[i], p.value.startSample + j)
    ensures p.Some? ==>
      && p.value.ticks == TicksFrom(0, p.value.width, cfg.samplingRate)
      && |p.value.tickLabels| == |p.value.ticks|
      && forall k :: 0 <= k < |p.value.ticks| ==>
           p.value.tickLabels[k] == TickLabel(p.value.startSample, p.value.ticks[k], cfg.samplingRate)
  {
    if chunks == [] then None
    else
      EegWindowAll(chunks, cfg);
      Some(PlotOf(EegWindow(chunks, cfg), WindowStart(TotalWidth(chunks), WindowLength(cfg)), cfg.samplingRate))
  }

  /** The label under the `k`-th tick is the whole second `k` seconds after
      the whole second in which the window starts. */
  lemma TickLabelSeconds(startSample: nat, fs: nat, k: nat)
    requires fs > 0
    ensures TickLabel(startSample, k * fs, fs) == startSample / fs + k
  {
    var q, rem := startSample / fs, startSample % fs;
    assert startSample + k * fs == (q + k) * fs + rem;
    DivUnique(startSample + k * fs, fs, q + k, rem);
  }

  /** On the live plot, the `k`-th tick sits `k` seconds into the window and
      is labelled with the window's starting whole second plus `k`. */
  lemma TrailingPlotTickLabels(chunks: seq<Matrix>, cfg: Config, k: nat)
    requires cfg.Valid() && AllOfHeight(chunks, cfg.numRows) && chunks != []
    requires k < |TrailingPlot(chunks, cfg).value.ticks|
    ensures var p := TrailingPlot(chunks, cfg).value;
            p.ticks[k] == k * cfg.samplingRate &&
            p.tickLabels[k] == p.startSample / cfg.samplingRate + k
  {
    var p := TrailingPlot(chunks, cfg).value;
    TicksExact(p.width, cfg.samplingRate, k);
    TickLabelSeconds(p.startSample, cfg.samplingRate, k);
  }
}
