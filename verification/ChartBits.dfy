/** Which columns of a band cover a row whole, a bit each, and the runs of them. */
module ChartBits {
  import opened Basics
  import opened Words

  predicate BitAt(bits: seq<nat>, j: nat)
    requires j / WORD < |bits|
  {
    Bit(bits[j / WORD], j % WORD)
  }

  predicate Wordy(bits: seq<nat>) {
    forall i :: 0 <= i < |bits| ==> bits[i] < Pow2(WORD)
  }

  /** Whether a column covers a row whole. */
  predicate CoversRow(inner0: seq<int>, inner1: seq<int>, row: int, c: nat)
    requires |inner0| == |inner1|
  {
    c < |inner0| && inner0[c] <= row < inner1[c]
  }

  // Finding a row's columns

  /** One bit for each comparison, the first lowest. */
  function MoveMask(hits: seq<bool>): nat {
    if hits == [] then 0 else (if hits[0] then 1 else 0) + 2 * MoveMask(hits[1..])
  }

  lemma {:induction false} BitOfMask(hits: seq<bool>, k: nat)
    ensures Bit(MoveMask(hits), k) <==> k < |hits| && hits[k]
    ensures MoveMask(hits) < Pow2(|hits|)
    decreases |hits|
  {
    if hits == [] {
      ShrZero(k);
    } else if k == 0 {
      BitOfMask(hits[1..], 0);
    } else {
      BitOfMask(hits[1..], k - 1);
      BitOfHalf(MoveMask(hits), k - 1);
    }
  }

  /** Words enough for `n` bits. */
  function WordsFor(n: nat): nat {
    (n + WORD - 1) / WORD
  }

  /** Eight columns from `c` on are looked at: their bits say which cover the row, and no
      other bit changes. */
  lemma LaneBits(bits: seq<nat>, c: nat, hits: seq<bool>, j: nat)
    requires Wordy(bits) && c % 8 == 0 && |hits| == 8 && c / WORD < |bits| && j / WORD < |bits|
    ensures var word := Or(bits[c / WORD], Shl(MoveMask(hits), c % WORD));
      word < Pow2(WORD)
      && (BitAt(bits[c / WORD := word], j) <==> BitAt(bits, j) || (c <= j < c + 8 && hits[j - c]))
  {
    var s, w, mask := c % WORD, bits[c / WORD], MoveMask(hits);
    BitOfMask(hits, 0);
    assert s + 8 <= WORD;
    ShlBelow(mask, s, 8, WORD);
    OrBelow(w, Shl(mask, s), WORD);
    if j / WORD == c / WORD {
      var k := j % WORD;
      BitOfOr(w, Shl(mask, s), k);
      BitOfShl(mask, s, k);
      if k >= s {
        BitOfMask(hits, k - s);
        assert k - s == j - c;
      }
    } else {
      assert !(c <= j < c + 8);
    }
  }

  /** Which columns cover `row` whole, a bit each, eight columns a comparison. */
  method RowBits(inner0: seq<int>, inner1: seq<int>, row: int) returns (bits: seq<nat>)
    requires |inner0| == |inner1|
    ensures |bits| == WordsFor(|inner0|) && Wordy(bits)
    ensures forall j: nat :: j / WORD < |bits| ==> (BitAt(bits, j) <==> CoversRow(inner0, inner1, row, j))
  {
    hide Or, Shl, MoveMask, Bit, Pow2;
    var n := |inner0|;
    bits := seq(WordsFor(n), i => 0);
    NoBits(bits);
    var c := 0;
    while c < n
      invariant c % 8 == 0 && |bits| == WordsFor(n) && Wordy(bits)
      invariant forall j: nat :: j / WORD < |bits| ==> (BitAt(bits, j) <==> j < c && CoversRow(inner0, inner1, row, j))
      decreases n - c
    {
      // The last few are padded with empty columns.
      var hits := seq(8, k requires 0 <= k => c + k < n && row + 1 > inner0[c + k] && inner1[c + k] > row);
      var word := Or(bits[c / WORD], Shl(MoveMask(hits), c % WORD));
      forall j: nat | j / WORD < |bits|
        ensures word < Pow2(WORD)
        ensures BitAt(bits[c / WORD := word], j) <==> BitAt(bits, j) || (c <= j < c + 8 && hits[j - c])
      {
        LaneBits(bits, c, hits, j);
      }
      LaneBits(bits, c, hits, c);
      bits := bits[c / WORD := word];
      c := c + 8;
    }
  }

  lemma NoBits(bits: seq<nat>)
    requires forall i :: 0 <= i < |bits| ==> bits[i] == 0
    ensures Wordy(bits) && forall j: nat :: j / WORD < |bits| ==> !BitAt(bits, j)
  {
    forall j: nat | j / WORD < |bits|
      ensures !BitAt(bits, j)
    {
      ShrZero(j % WORD);
    }
  }

  // Finding the runs in them

  /** The bits from column `c` to the end of its word. */
  function Rest(bits: seq<nat>, c: nat): nat
    requires c / WORD < |bits|
  {
    Shr(bits[c / WORD], c % WORD)
  }

  lemma RestBits(bits: seq<nat>, c: nat, k: nat)
    requires Wordy(bits) && c / WORD < |bits|
    ensures Rest(bits, c) < Pow2(WORD)
    ensures Bit(Rest(bits, c), k) <==> c % WORD + k < WORD && BitAt(bits, c + k)
  {
    var w, s := bits[c / WORD], c % WORD;
    ShrBelow(w, s, WORD);
    Wider(WORD - s, WORD);
    BitOfShr(w, s, k);
    if s + k < WORD {
      SameWord(c, k);
    } else {
      NoBitsAbove(w, s + k, WORD);
    }
  }

  lemma SameWord(c: nat, k: nat)
    requires c % WORD + k < WORD
    ensures (c + k) / WORD == c / WORD && (c + k) % WORD == c % WORD + k
  {
  }

  lemma {:induction false} Wider(m: nat, n: nat)
    requires m <= n
    ensures Pow2(m) <= Pow2(n)
    decreases n
  {
    if m < n {
      Wider(m, n - 1);
    }
  }

  /** The first set bit from `c` on, if its word has one. */
  lemma FirstSet(bits: seq<nat>, c: nat)
    requires Wordy(bits) && c / WORD < |bits|
    ensures Rest(bits, c) < Pow2(WORD)
    ensures Rest(bits, c) != 0 ==>
      var z := TrailingZeros(Rest(bits, c), WORD);
      c % WORD + z < WORD && BitAt(bits, c + z)
      && forall j: nat :: c <= j < c + z ==> j / WORD < |bits| && !BitAt(bits, j)
    ensures Rest(bits, c) == 0 ==> forall j: nat :: c <= j < (c / WORD + 1) * WORD ==> j / WORD < |bits| && !BitAt(bits, j)
  {
    hide Bit, Pow2, Shr, TrailingZeros, BitAt, Rest;
    var r := Rest(bits, c);
    RestBits(bits, c, 0);
    TrailingZerosIs(r, WORD);
    var z := TrailingZeros(r, WORD);
    RestBits(bits, c, z);
    if r == 0 {
      ZeroBits(r, WORD);
    }
    var end := if r == 0 then (c / WORD + 1) * WORD else c + z;
    forall j: nat | c <= j < end
      ensures j / WORD < |bits| && !BitAt(bits, j)
    {
      SameWord(c, j - c);
      RestBits(bits, c, j - c);
    }
  }

  /** How many bits from `c` on are set, as far as its word goes. */
  function Ones(bits: seq<nat>, c: nat): nat
    requires Wordy(bits) && c / WORD < |bits| && Rest(bits, c) < Pow2(WORD)
  {
    TrailingZeros(Not(Rest(bits, c), WORD), WORD)
  }

  lemma OnesAre(bits: seq<nat>, c: nat)
    requires Wordy(bits) && c / WORD < |bits|
    ensures Rest(bits, c) < Pow2(WORD) && c % WORD + Ones(bits, c) <= WORD
    ensures forall j: nat :: c <= j < c + Ones(bits, c) ==> j / WORD < |bits| && BitAt(bits, j)
    ensures (c + Ones(bits, c)) % WORD != 0 || Ones(bits, c) == 0 ==>
      (c + Ones(bits, c)) / WORD < |bits| && !BitAt(bits, c + Ones(bits, c))
  {
    hide Bit, Pow2, Shr, TrailingZeros, BitAt, Rest;
    RestBits(bits, c, 0);
    var r, s := Rest(bits, c), c % WORD;
    var flipped := Not(r, WORD);
    TrailingZerosIs(flipped, WORD);
    var ones := TrailingZeros(flipped, WORD);
    if s + ones > WORD {
      // `rest` has zeros from bit `WORD - s` on.
      RestBits(bits, c, WORD - s);
      BitOfNot(r, WORD - s, WORD);
      assert false;
    }
    forall j: nat | c <= j < c + ones
      ensures j / WORD < |bits| && BitAt(bits, j)
    {
      BitOfNot(r, j - c, WORD);
      RestBits(bits, c, j - c);
      SameWord(c, j - c);
    }
    if s + ones < WORD {
      SameWord(c, ones);
      BitOfNot(r, ones, WORD);
      RestBits(bits, c, ones);
    }
  }

  /** All the columns from `a` short of `b` are set, or all are clear. */
  ghost predicate AllSet(bits: seq<nat>, a: nat, b: nat, set_: bool) {
    forall j: nat :: a <= j < b ==> j / WORD < |bits| && BitAt(bits, j) == set_
  }

  /** The first maximal run that begins at `from` or later, as a start and a length, and the
      column to ask for the one after it with. */
  method NextRun(bits: seq<nat>, columns: nat, from: nat) returns (run: Option<(nat, nat)>, on: nat)
    requires Wordy(bits) && columns <= |bits| * WORD && from <= columns
    ensures run.None? ==> on == columns && AllSet(bits, from, columns, false)
    ensures run.Some? ==>
      var (start, len) := run.value;
      from <= start && len > 0 && on == start + len <= columns
      && AllSet(bits, from, start, false) && AllSet(bits, start, on, true)
      && (on < columns ==> AllSet(bits, on, on + 1, false))
  {
    hide BitAt, Rest, Ones, TrailingZeros, Not;
    var c := from;
    while true
      invariant from <= c <= |bits| * WORD && AllSet(bits, from, c, false)
      decreases |bits| * WORD - c
    {
      if c >= columns {
        return None, columns;
      }
      FirstSet(bits, c);
      var word := Rest(bits, c);
      if word != 0 {
        c := c + TrailingZeros(word, WORD);
        break;
      }
      c := (c / WORD + 1) * WORD;
    }
    if c >= columns {
      return None, columns;
    }
    var start := c;
    c := RunEnd(bits, columns, start);
    on := Min(c, columns);
    run := Some((start, on - start));
  }

  /** One past the last bit of the run that `start` is in. Each turn of the loop settles the
      rest of one word, and only a word that is set to its top leads to another turn. */
  method RunEnd(bits: seq<nat>, columns: nat, start: nat) returns (c: nat)
    requires Wordy(bits) && start < columns <= |bits| * WORD && AllSet(bits, start, start + 1, true)
    ensures start < c && AllSet(bits, start, c, true)
    ensures c < columns ==> AllSet(bits, c, c + 1, false)
  {
    hide BitAt, Rest, Ones, TrailingZeros;
    c := start;
    while c < columns
      invariant start <= c && AllSet(bits, start, c, true)
      decreases |bits| * WORD - c
    {
      OnesAre(bits, c);
      var ones := TrailingZeros(Not(Rest(bits, c), WORD), WORD);
      OnesIs(bits, c);
      c := c + ones;
      if ones == 0 || c % WORD != 0 {
        break;
      }
    }
  }

  lemma OnesIs(bits: seq<nat>, c: nat)
    requires Wordy(bits) && c / WORD < |bits| && Rest(bits, c) < Pow2(WORD)
    ensures Ones(bits, c) == TrailingZeros(Not(Rest(bits, c), WORD), WORD)
  {
  }

  // All the runs

  /** Runs of set bits, in order, with a clear one at least between each and the next. */
  ghost predicate MaximalRuns(bits: seq<nat>, runs: seq<(nat, nat)>, columns: nat) {
    && (forall i :: 0 <= i < |runs| ==> runs[i].1 > 0 && runs[i].0 + runs[i].1 <= columns)
    && (forall i, j :: 0 <= i < j < |runs| ==> runs[i].0 + runs[i].1 < runs[j].0)
    && forall c: nat :: c < columns ==> c / WORD < |bits| && (BitAt(bits, c) <==> InRun(runs, c))
  }

  predicate InRun(runs: seq<(nat, nat)>, c: nat) {
    exists i :: 0 <= i < |runs| && runs[i].0 <= c < runs[i].0 + runs[i].1
  }

  /** One call after another lists exactly the maximal runs of the columns set. */
  method AllRuns(bits: seq<nat>, columns: nat) returns (runs: seq<(nat, nat)>)
    requires Wordy(bits) && columns <= |bits| * WORD
    ensures MaximalRuns(bits, runs, columns)
  {
    hide BitAt;
    runs := [];
    var from := 0;
    while true
      invariant from <= columns && MaximalRuns(bits, runs, from)
      invariant from < columns && runs != [] ==> AllSet(bits, from, from + 1, false)
      invariant runs != [] ==> runs[|runs| - 1].0 + runs[|runs| - 1].1 == from
      invariant runs == [] ==> from == 0
      decreases columns - from
    {
      var run, on := NextRun(bits, columns, from);
      match run {
        case None =>
          RunsGoOn(bits, runs, from, columns, columns, None);
          return;
        case Some((start, len)) =>
          if runs != [] {
            SetAfterClear(bits, from, start, on);
          }
          RunsGoOn(bits, runs, from, start, on, run);
          runs, from := runs + [(start, len)], on;
      }
    }
  }

  lemma SetAfterClear(bits: seq<nat>, from: nat, start: nat, on: nat)
    requires AllSet(bits, from, from + 1, false) && AllSet(bits, start, on, true) && from <= start < on
    ensures from < start
  {
    hide BitAt;
    assert start / WORD < |bits| && BitAt(bits, start);
  }

  lemma RunsGoOn(bits: seq<nat>, runs: seq<(nat, nat)>, from: nat, start: nat, on: nat, run: Option<(nat, nat)>)
    requires MaximalRuns(bits, runs, from) && from <= start <= on
    requires AllSet(bits, from, start, false) && AllSet(bits, start, on, true)
    requires runs != [] ==> runs[|runs| - 1].0 + runs[|runs| - 1].1 == from && (run.Some? ==> from < start)
    requires if run.Some? then run.value == (start, on - start) && start < on else start == on
    ensures MaximalRuns(bits, if run.Some? then runs + [run.value] else runs, on)
  {
    hide BitAt;
    var more := if run.Some? then runs + [run.value] else runs;
    forall c: nat | c < on
      ensures c / WORD < |bits| && (BitAt(bits, c) <==> InRun(more, c))
    {
      if c < from {
        InRunStays(runs, more, c, from);
      } else if c < start {
        assert !InRun(more, c);
      } else {
        assert more[|runs|].0 <= c < more[|runs|].0 + more[|runs|].1;
      }
    }
  }

  lemma InRunStays(runs: seq<(nat, nat)>, more: seq<(nat, nat)>, c: nat, from: nat)
    requires runs <= more && c < from && forall i :: |runs| <= i < |more| ==> more[i].0 >= from
    ensures InRun(runs, c) <==> InRun(more, c)
  {
    if InRun(runs, c) {
      var i :| 0 <= i < |runs| && runs[i].0 <= c < runs[i].0 + runs[i].1;
      assert more[i].0 <= c < more[i].0 + more[i].1;
    }
  }
}
