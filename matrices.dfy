/** Sample blocks as the board returns them: one row per board channel, one
    column per sample. A session's buffer is a sequence of such blocks, and
    `SampleAt` reads it as one long recording without concatenating it. */
module Matrices {
  /** A rectangular block of samples. The width is kept apart from the rows
      so that a block with no rows still has a number of columns. */
  datatype Matrix = Matrix(width: nat, rows: seq<seq<real>>)
  {
    /** Every row holds exactly `width` samples. */
    predicate Wf() {
      forall i :: 0 <= i < |rows| ==> |rows[i]| == width
    }

    /** Number of samples in the block (rows times columns). */
    function Size(): nat {
      |rows| * width
    }
  }

  /** A poll result that carries at least one sample. */
  predicate HasSamples(m: Matrix)
    ensures HasSamples(m) <==> |m.rows| > 0 && m.width > 0
  {
    m.Size() > 0
  }

  /** Every block is rectangular and has `height` rows. */
  predicate AllOfHeight(chunks: seq<Matrix>, height: nat) {
    forall k :: 0 <= k < |chunks| ==> chunks[k].Wf() && |chunks[k].rows| == height
  }

  /** Number of columns over all blocks. */
  function TotalWidth(chunks: seq<Matrix>): nat {
    if chunks == [] then 0 else chunks[0].width + TotalWidth(chunks[1..])
  }

  lemma {:induction false} TotalWidthAppend(a: seq<Matrix>, b: seq<Matrix>)
    ensures TotalWidth(a + b) == TotalWidth(a) + TotalWidth(b)
  {
    if a == [] {
      assert a + b == b;
    } else {
      assert (a + b)[1..] == a[1..] + b;
      TotalWidthAppend(a[1..], b);
    }
  }

  /** Reference reading of a buffer: sample `j` of row `r`, where columns are
      numbered across the blocks in the order the blocks were appended. */
  function SampleAt(chunks: seq<Matrix>, height: nat, r: nat, j: nat): real
    requires AllOfHeight(chunks, height) && r < height && j < TotalWidth(chunks)
    decreases |chunks|
  {
    if j < chunks[0].width then chunks[0].rows[r][j]
    else SampleAt(chunks[1..], height, r, j - chunks[0].width)
  }

  /** Row `r` of the blocks joined along the time axis. */
  function JoinRow(chunks: seq<Matrix>, height: nat, r: nat): (row: seq<real>)
    requires AllOfHeight(chunks, height) && r < height
    ensures |row| == TotalWidth(chunks)
    ensures forall j :: 0 <= j < |row| ==> row[j] == SampleAt(chunks, height, r, j)
    decreases |chunks|
  {
    if chunks == [] then [] else chunks[0].rows[r] + JoinRow(chunks[1..], height, r)
  }

  /** The blocks joined along the time axis (numpy's `concatenate(..., axis=1)`,
      which raises on an empty list of blocks). */
  function ConcatColumns(chunks: seq<Matrix>, height: nat): (m: Matrix)
    requires chunks != [] && AllOfHeight(chunks, height)
    ensures m.Wf() && |m.rows| == height && m.width == TotalWidth(chunks)
    ensures forall i, j :: 0 <= i < height && 0 <= j < m.width ==>
              m.rows[i][j] == SampleAt(chunks, height, i, j)
  {
    Matrix(TotalWidth(chunks), seq(height, i requires 0 <= i < height => JoinRow(chunks, height, i)))
  }

  /** The rows named by `picks`, in the order of `picks` (numpy's `m[picks, :]`). */
  function SelectRows(m: Matrix, picks: seq<nat>): (s: Matrix)
    requires m.Wf()
    requires forall i :: 0 <= i < |picks| ==> picks[i] < |m.rows|
    ensures s.Wf() && |s.rows| == |picks| && s.width == m.width
    ensures forall i :: 0 <= i < |picks| ==> s.rows[i] == m.rows[picks[i]]
  {
    Matrix(m.width, seq(|picks|, i requires 0 <= i < |picks| => m.rows[picks[i]]))
  }

  /** The last `n` columns when there are more than `n`, otherwise the whole
      block (numpy's `m[:, -n:]` under the guard `m.shape[1] > n`; for
      `n == 0` numpy would keep every column, so `n` is positive). */
  function TrailingColumns(m: Matrix, n: nat): (t: Matrix)
    requires m.Wf() && n > 0
    ensures t.Wf() && |t.rows| == |m.rows|
    ensures t.width == if m.width > n then n else m.width
    ensures forall i :: 0 <= i < |t.rows| ==> t.rows[i] == m.rows[i][m.width - t.width..]
  {
    if m.width > n then
      Matrix(n, seq(|m.rows|, i requires 0 <= i < |m.rows| => m.rows[i][m.width - n..]))
    else
      m
  }

  /** Every sample divided by `d`. */
  function DivideAll(m: Matrix, d: real): (s: Matrix)
    requires m.Wf() && d != 0.0
    ensures s.Wf() && |s.rows| == |m.rows| && s.width == m.width
    ensures forall i, j :: 0 <= i < |s.rows| && 0 <= j < s.width ==> s.rows[i][j] * d == m.rows[i][j]
  {
    Matrix(m.width, seq(|m.rows|, i requires 0 <= i < |m.rows| =>
      seq(m.width, j requires 0 <= j < m.width => m.rows[i][j] / d)))
  }

  /** Reading a concatenated buffer: a column of `a + b` comes from `a` when it
      lies within `a`'s width, and from `b`, shifted by that width, otherwise. */
  lemma {:induction false} SampleAppend(a: seq<Matrix>, b: seq<Matrix>, height: nat, r: nat, j: nat)
    requires AllOfHeight(a, height) && AllOfHeight(b, height) && r < height
    requires j < TotalWidth(a) + TotalWidth(b)
    ensures AllOfHeight(a + b, height) && TotalWidth(a + b) == TotalWidth(a) + TotalWidth(b)
    ensures SampleAt(a + b, height, r, j) ==
              if j < TotalWidth(a) then SampleAt(a, height, r, j)
              else SampleAt(b, height, r, j - TotalWidth(a))
    decreases |a|
  {
    TotalWidthAppend(a, b);
    if a == [] {
      assert a + b == b;
    } else {
      assert (a + b)[0] == a[0];
      assert (a + b)[1..] == a[1..] + b;
      if j >= a[0].width {
        SampleAppend(a[1..], b, height, r, j - a[0].width);
      }
    }
  }

  /** Column `t` of block `k` is column `TotalWidth(chunks[..k]) + t` of the
      whole buffer: blocks are laid out one after the other in append order. */
  lemma SampleInChunk(chunks: seq<Matrix>, height: nat, r: nat, k: nat, t: nat)
    requires AllOfHeight(chunks, height) && r < height
    requires k < |chunks| && t < chunks[k].width
    ensures TotalWidth(chunks[..k]) + t < TotalWidth(chunks)
    ensures SampleAt(chunks, height, r, TotalWidth(chunks[..k]) + t) == chunks[k].rows[r][t]
  {
    var before, rest := chunks[..k], chunks[k..];
    assert chunks == before + rest;
    assert rest == [chunks[k]] + chunks[k + 1..];
    TotalWidthAppend(before, rest);
    assert rest[1..] == chunks[k + 1..];
    SampleAppend(before, rest, height, r, TotalWidth(before) + t);
  }
}
