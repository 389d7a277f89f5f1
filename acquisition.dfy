/** The acquisition loop of a recording session, as a specification over
    the values the loop observes. The loop runs on its own thread in the
    application; here what it observes is given up front:
    `observed[i]` is the value of the recording flag read at the `i`-th check,
    and `polls[i]` the `i`-th result of polling the board. */
module Acquisition {
  import opened Seqs
  import opened Matrices

  /** The poll results that are appended: the non-empty ones, in poll order. */
  function Kept(polls: seq<Matrix>): (kept: seq<Matrix>)
    ensures forall k :: 0 <= k < |kept| ==> HasSamples(kept[k])
  {
    Filter(polls, HasSamples)
  }

  /** The sample counter after the first `i` polls, starting from `count0`. */
  function CountAfter(count0: nat, polls: seq<Matrix>, i: nat): nat
    requires i <= |polls|
  {
    count0 + TotalWidth(Kept(polls[..i]))
  }

  lemma DivBelow(c: nat, fs: nat, d: nat)
    requires fs > 0
    ensures c / fs < d <==> c < d * fs
  {
    var q := c / fs;
    assert c == q * fs + c % fs;
    if q < d {
      assert (q + 1) * fs <= d * fs by {
        var e := d - (q + 1);
        assert d * fs == (q + 1) * fs + e * fs;
      }
    } else {
      assert d * fs <= q * fs by {
        var e := q - d;
        assert q * fs == d * fs + e * fs;
      }
    }
  }

  /** The loop body runs again at check `i`: the duration is not yet reached
      and the recording flag is still set. */
  predicate Continues(count0: nat, fs: nat, duration: nat, observed: seq<bool>, polls: seq<Matrix>, i: nat)
    requires fs > 0 && i < |observed| && i <= |polls|
    ensures Continues(count0, fs, duration, observed, polls, i) <==>
              CountAfter(count0, polls, i) < duration * fs && observed[i]
  {
    DivBelow(CountAfter(count0, polls, i), fs, duration);
    CountAfter(count0, polls, i) / fs < duration && observed[i]
  }

  /** The inputs describe a run that ends: the flag is eventually seen
      cleared, and the board answers every poll made until then plus the
      final one. */
  predicate Schedule(observed: seq<bool>, polls: seq<Matrix>) {
    |observed| > 0 && !observed[|observed| - 1] && |polls| >= |observed|
  }

  /** The check at which the loop exits, looking from check `i` on. */
  function ExitFrom(count0: nat, fs: nat, duration: nat, observed: seq<bool>, polls: seq<Matrix>, i: nat): (n: nat)
    requires fs > 0 && Schedule(observed, polls) && i < |observed|
    ensures i <= n < |observed|
    ensures !Continues(count0, fs, duration, observed, polls, n)
    ensures forall m :: i <= m < n ==> Continues(count0, fs, duration, observed, polls, m)
    decreases |observed| - i
  {
    if !Continues(count0, fs, duration, observed, polls, i) then i
    else ExitFrom(count0, fs, duration, observed, polls, i + 1)
  }

  /** The number of loop iterations of a whole run. */
  function LoopExit(count0: nat, fs: nat, duration: nat, observed: seq<bool>, polls: seq<Matrix>): nat
    requires fs > 0 && Schedule(observed, polls)
  {
    ExitFrom(count0, fs, duration, observed, polls, 0)
  }

  /** The loop polls on until the sampled duration is reached or the flag is
      cleared, and stops at the first check where either happens; the final
      drain poll then makes it one poll more than iterations. */
  lemma LoopExitExact(count0: nat, fs: nat, duration: nat, observed: seq<bool>, polls: seq<Matrix>)
    requires fs > 0 && Schedule(observed, polls)
    ensures var n := LoopExit(count0, fs, duration, observed, polls);
      && n + 1 <= |polls|
      && (CountAfter(count0, polls, n) / fs >= duration || !observed[n])
      && forall m :: 0 <= m < n ==> CountAfter(count0, polls, m) / fs < duration && observed[m]
  {
    var n := LoopExit(count0, fs, duration, observed, polls);
    forall m | 0 <= m < n
      ensures CountAfter(count0, polls, m) / fs < duration && observed[m]
    {
      assert Continues(count0, fs, duration, observed, polls, m);
    }
  }

  /** Appending one more poll result adds its columns to the counter when it
      carries samples, and nothing otherwise. */
  lemma CountStep(count0: nat, polls: seq<Matrix>, i: nat)
    requires i < |polls|
    ensures Kept(polls[..i + 1]) == Kept(polls[..i]) + (if HasSamples(polls[i]) then [polls[i]] else [])
    ensures CountAfter(count0, polls, i + 1) ==
              CountAfter(count0, polls, i) + (if HasSamples(polls[i]) then polls[i].width else 0)
  {
    assert polls[..i + 1] == polls[..i] + [polls[i]];
    FilterSnoc(polls[..i], polls[i], HasSamples);
    var extra: seq<Matrix> := if HasSamples(polls[i]) then [polls[i]] else [];
    TotalWidthAppend(Kept(polls[..i]), extra);
    assert [polls[i]][1..] == [];
  }

  /** The counter never goes down from one poll to the next. */
  lemma CountMonotone(count0: nat, polls: seq<Matrix>, i: nat, j: nat)
    requires i <= j <= |polls|
    ensures CountAfter(count0, polls, i) <= CountAfter(count0, polls, j)
    decreases j - i
  {
    if i < j {
      CountStep(count0, polls, j - 1);
      CountMonotone(count0, polls, i, j - 1);
    }
  }

  /** A five-second session at 256 Hz that nobody stops keeps polling while
      fewer than 1280 samples are in, and leaves the loop with at least 1280. */
  lemma FiveSecondsAt256Hz(observed: seq<bool>, polls: seq<Matrix>)
    requires Schedule(observed, polls)
    requires var n := LoopExit(0, 256, 5, observed, polls); observed[n]
    ensures var n := LoopExit(0, 256, 5, observed, polls);
      && CountAfter(0, polls, n) >= 1280
      && forall m :: 0 <= m < n ==> CountAfter(0, polls, m) < 1280
  {
    LoopExitExact(0, 256, 5, observed, polls);
  }
}
