/** Sparse lists of amounts: program numbers in strictly rising order, each with an amount. */
module UsageLists {
  /** A program, and how much it used or held. Amounts are real numbers: rounding to
      single precision is not modelled. */
  type List = seq<(nat, real)>

  /** Sorted by program, each program once. */
  predicate Sorted(l: List) {
    forall i, j :: 0 <= i < j < |l| ==> l[i].0 < l[j].0
  }

  /** What `l` says of program `g`, all its entries together. */
  function Amount(l: List, g: nat): real {
    if l == [] then 0.0
    else Amount(l[..|l| - 1], g) + if l[|l| - 1].0 == g then l[|l| - 1].1 else 0.0
  }

  lemma {:induction false} AmountOfAbsent(l: List, g: nat)
    requires forall i :: 0 <= i < |l| ==> l[i].0 != g
    ensures Amount(l, g) == 0.0
  {
    if l != [] {
      AmountOfAbsent(l[..|l| - 1], g);
    }
  }

  lemma {:induction false} AmountAppend(a: List, b: List, g: nat)
    ensures Amount(a + b, g) == Amount(a, g) + Amount(b, g)
  {
    if b == [] {
      assert a + b == a;
    } else {
      AmountAppend(a, b[..|b| - 1], g);
      assert (a + b)[..|a + b| - 1] == a + b[..|b| - 1];
    }
  }

  /** In a sorted list a program's amount is its one entry's. */
  lemma {:induction false} AmountOfEntry(l: List, i: nat)
    requires Sorted(l) && i < |l|
    ensures Amount(l, l[i].0) == l[i].1
  {
    if i == |l| - 1 {
      AmountOfAbsent(l[..|l| - 1], l[i].0);
    } else {
      AmountOfEntry(l[..|l| - 1], i);
    }
  }

  lemma {:induction false} AmountNonNegative(l: List, g: nat)
    requires forall i :: 0 <= i < |l| ==> l[i].1 >= 0.0
    ensures Amount(l, g) >= 0.0
  {
    if l != [] {
      AmountNonNegative(l[..|l| - 1], g);
    }
  }

  /** Add `from` to `into`, both sorted by program, in one pass over both. */
  method Merge(into: List, from: List) returns (merged: List)
    requires Sorted(into) && Sorted(from)
    ensures Sorted(merged)
    ensures forall g :: Amount(merged, g) == Amount(into, g) + Amount(from, g)
    ensures forall g :: Lists(merged, g) <==> Lists(into, g) || Lists(from, g)
  {
    merged := [];
    var a, b := 0, 0;
    while a < |into| || b < |from|
      invariant 0 <= a <= |into| && 0 <= b <= |from|
      invariant Sorted(merged)
      invariant forall i, j :: 0 <= i < |merged| && a <= j < |into| ==> merged[i].0 < into[j].0
      invariant forall i, j :: 0 <= i < |merged| && b <= j < |from| ==> merged[i].0 < from[j].0
      invariant forall g :: Amount(merged, g) == Amount(into[..a], g) + Amount(from[..b], g)
      invariant forall g :: Lists(merged, g) <==> Lists(into[..a], g) || Lists(from[..b], g)
      decreases |into| - a + |from| - b
    {
      ghost var a0, b0 := a, b;
      var next: (nat, real);
      if a < |into| && b < |from| && into[a].0 == from[b].0 {
        next := (into[a].0, into[a].1 + from[b].1);
        a, b := a + 1, b + 1;
      } else if a < |into| && (b == |from| || into[a].0 < from[b].0) {
        next := into[a];
        a := a + 1;
      } else {
        next := from[b];
        b := b + 1;
      }
      forall g
        ensures Amount(merged + [next], g) == Amount(into[..a], g) + Amount(from[..b], g)
        ensures Lists(merged + [next], g) <==> Lists(into[..a], g) || Lists(from[..b], g)
      {
        Taken(into, a0, a, g);
        Taken(from, b0, b, g);
        Appended(merged, next, g);
      }
      merged := merged + [next];
    }
    assert into[..a] == into && from[..b] == from;
  }

  predicate Lists(l: List, g: nat) {
    exists i :: 0 <= i < |l| && l[i].0 == g
  }

  /** What taking none or one entry more adds. */
  lemma Taken(l: List, before: nat, after: nat, g: nat)
    requires before <= after <= before + 1 && after <= |l|
    ensures Amount(l[..after], g)
      == Amount(l[..before], g) + if before < after && l[before].0 == g then l[before].1 else 0.0
    ensures Lists(l[..after], g) <==> Lists(l[..before], g) || (before < after && l[before].0 == g)
  {
    if before < after {
      assert l[..after] == l[..before] + [l[before]];
      Appended(l[..before], l[before], g);
    }
  }

  lemma Appended(l: List, entry: (nat, real), g: nat)
    ensures Amount(l + [entry], g) == Amount(l, g) + if entry.0 == g then entry.1 else 0.0
    ensures Lists(l + [entry], g) <==> Lists(l, g) || entry.0 == g
  {
    assert (l + [entry])[..|l|] == l;
    assert (l + [entry])[|l|] == entry;
    forall i | 0 <= i < |l|
      ensures (l + [entry])[i] == l[i]
    {
    }
  }
}
