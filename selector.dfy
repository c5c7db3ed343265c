/** The non-repeating row selector, as a function of the row count, the index
    it returned last time and the upcoming outputs of the random generator.

    `draws` stands for the values `randint(0, n - 1)` will return, in order;
    a call consumes a prefix of them and the next call starts after it. */
module Selector {

  /** Every draw is a row index, as `randint(0, n - 1)` guarantees. */
  predicate InRange(draws: seq<int>, n: int) {
    forall j :: 0 <= j < |draws| ==> 0 <= draws[j] < n
  }

  /** Some draw differs from `prev`: the rejection loop stops within `draws`. */
  predicate Accepts(draws: seq<int>, prev: int) {
    exists j :: 0 <= j < |draws| && draws[j] != prev
  }

  /** Position of the draw the rejection loop accepts: the first one that
      differs from `prev`; every draw before it repeats `prev`. */
  function FirstAccepted(draws: seq<int>, prev: int): (k: nat)
    requires Accepts(draws, prev)
    ensures k < |draws| && draws[k] != prev
    ensures forall j :: 0 <= j < k ==> draws[j] == prev
    decreases |draws|
  {
    if draws[0] != prev then 0
    else
      assert Accepts(draws[1..], prev) by {
        var j :| 0 <= j < |draws| && draws[j] != prev;
        assert draws[1..][j - 1] == draws[j];
      }
      1 + FirstAccepted(draws[1..], prev)
  }

  /** What one call of the selector does: the index it returns, the value the
      remembered index holds afterwards, and how many draws it consumed. */
  datatype Draw = Draw(index: int, previous: int, used: nat)

  /** One call of the selector on a table of `n` rows. */
  function Select(n: int, prev: int, draws: seq<int>): (d: Draw)
    requires n >= 2 ==> Accepts(draws, prev)
    // A table of at most one row: row 0, nothing drawn, nothing remembered.
    ensures n <= 1 ==> d.index == 0 && d.previous == prev && d.used == 0
    // Otherwise: the accepted draw differs from the last index, is remembered,
    // and every draw rejected before it repeated the last index.
    ensures n >= 2 ==> 1 <= d.used <= |draws| && d.index == draws[d.used - 1]
    ensures n >= 2 ==> d.index != prev && d.previous == d.index
    ensures n >= 2 ==> forall j :: 0 <= j < d.used - 1 ==> draws[j] == prev
    ensures n >= 2 && InRange(draws, n) ==> 0 <= d.index < n
  {
    if n <= 1 then Draw(0, prev, 0)
    else
      var k := FirstAccepted(draws, prev);
      Draw(draws[k], draws[k], k + 1)
  }

  /** The remembered index starts at -1, which no row has, so the very first
      draw on a table of two or more rows is accepted whatever it is. */
  lemma FirstDrawAccepted(n: int, draws: seq<int>)
    requires n >= 2 && InRange(draws, n) && draws != []
    ensures Accepts(draws, -1)
    ensures Select(n, -1, draws) == Draw(draws[0], draws[0], 1)
  {
    assert draws[0] != -1;
  }

  /** The indices returned by up to `calls` successive calls that share one
      stream of draws; it stops early once the stream can no longer end the
      rejection loop. */
  function Session(n: int, prev: int, draws: seq<int>, calls: nat): (shown: seq<int>)
    ensures |shown| <= calls
    decreases calls
  {
    if calls == 0 || (n >= 2 && !Accepts(draws, prev)) then []
    else
      var d := Select(n, prev, draws);
      [d.index] + Session(n, d.previous, draws[d.used..], calls - 1)
  }

  /** When no draw repeats the one before it (and the first differs from the
      remembered index), every call on two or more rows accepts its first draw,
      so the calls show exactly the draws, one per call. */
  lemma {:induction false} SessionShowsDraws(n: int, prev: int, draws: seq<int>, calls: nat)
    requires n >= 2 && calls <= |draws|
    requires draws != [] ==> draws[0] != prev
    requires forall j :: 0 < j < |draws| ==> draws[j] != draws[j - 1]
    ensures Session(n, prev, draws, calls) == draws[..calls]
    decreases calls
  {
    if calls > 0 {
      assert Accepts(draws, prev) by { assert draws[0] != prev; }
      assert Select(n, prev, draws) == Draw(draws[0], draws[0], 1);
      var rest := draws[1..];
      forall j | 0 < j < |rest| ensures rest[j] != rest[j - 1] {
        assert rest[j] == draws[j + 1] && rest[j - 1] == draws[j];
      }
      SessionShowsDraws(n, draws[0], rest, calls - 1);
      assert draws[..calls] == [draws[0]] + rest[..calls - 1];
    }
  }

  /** On a table of at most one row every call returns 0 and none fails. */
  lemma {:induction false} SessionSingleRow(n: int, prev: int, draws: seq<int>, calls: nat)
    requires n <= 1
    ensures |Session(n, prev, draws, calls)| == calls
    ensures forall i :: 0 <= i < calls ==> Session(n, prev, draws, calls)[i] == 0
    decreases calls
  {
    if calls > 0 {
      SessionSingleRow(n, prev, draws, calls - 1);
    }
  }

  /** On a table of two or more rows every returned index names a row. */
  lemma {:induction false} SessionInRange(n: int, prev: int, draws: seq<int>, calls: nat)
    requires n >= 2 && InRange(draws, n)
    ensures forall i :: 0 <= i < |Session(n, prev, draws, calls)| ==>
      0 <= Session(n, prev, draws, calls)[i] < n
    decreases calls
  {
    if calls > 0 && Accepts(draws, prev) {
      var d := Select(n, prev, draws);
      assert InRange(draws[d.used..], n) by {
        forall j | 0 <= j < |draws[d.used..]| ensures 0 <= draws[d.used..][j] < n {
          assert draws[d.used..][j] == draws[d.used + j];
        }
      }
      SessionInRange(n, d.previous, draws[d.used..], calls - 1);
    }
  }

  /** On a table of two or more rows no call repeats the index returned just
      before it, the first one included. */
  lemma {:induction false} SessionNoRepeats(n: int, prev: int, draws: seq<int>, calls: nat)
    requires n >= 2
    ensures var shown := Session(n, prev, draws, calls);
      (shown != [] ==> shown[0] != prev) &&
      forall i :: 0 <= i < |shown| - 1 ==> shown[i] != shown[i + 1]
    decreases calls
  {
    if calls > 0 && Accepts(draws, prev) {
      var d := Select(n, prev, draws);
      SessionNoRepeats(n, d.previous, draws[d.used..], calls - 1);
      var rest := Session(n, d.previous, draws[d.used..], calls - 1);
      assert Session(n, prev, draws, calls) == [d.index] + rest;
    }
  }

  /** On a table of exactly two rows the calls alternate between rows 0 and 1. */
  lemma SessionAlternates(prev: int, draws: seq<int>, calls: nat)
    requires InRange(draws, 2)
    ensures var shown := Session(2, prev, draws, calls);
      forall i :: 0 <= i < |shown| - 1 ==> shown[i + 1] == 1 - shown[i]
  {
    SessionInRange(2, prev, draws, calls);
    SessionNoRepeats(2, prev, draws, calls);
  }
}
