/** Totals that fade: what folding many steps of use into one does to them. */
module UsageFade {
  /** The two factors of fading, as functions of a time in milliseconds: `kept` for what is
      there at its start, `arrived` for what comes in during it at a constant pace. They
      are not computed here; `Fades` gives the laws used of them. */
  datatype Rate = Rate(kept: int -> real, arrived: int -> real, decay: real)

  /** With `decay` the share lost per millisecond at the start, kept(s) is e^-(decay s)
      and arrived(s) is (1 - e^-(decay s)) / (decay s). */
  ghost predicate Fades(r: Rate) {
    r.decay > 0.0 && r.kept(0) == 1.0 && Compounds(r) && Spreads(r) && Balances(r)
  }

  /** One time after another keeps the share of the share. */
  ghost predicate Compounds(r: Rate) {
    forall a, b :: a >= 0 && b >= 0 ==> r.kept(a + b) == r.kept(a) * r.kept(b)
  }

  /** What arrives over a time fades no more than what was there at its start. */
  ghost predicate Spreads(r: Rate) {
    forall s :: s >= 0 ==> 0.0 < r.kept(s) <= r.arrived(s) <= 1.0
  }

  ghost predicate Balances(r: Rate) {
    forall s :: s >= 0 ==> r.decay * (s as real) * r.arrived(s) == 1.0 - r.kept(s)
  }

  /** A stretch of time, and the cycles one program used in it. */
  datatype Use = Use(span: int, cycles: real)

  predicate Proper(us: seq<Use>) {
    forall i :: 0 <= i < |us| ==> us[i].span >= 0 && us[i].cycles >= 0.0
  }

  /** A total that starts at `t` and runs over `us`, oldest first. */
  ghost function Run(r: Rate, t: real, us: seq<Use>): real {
    if us == [] then t
    else
      var last := us[|us| - 1];
      Run(r, t, us[..|us| - 1]) * r.kept(last.span) + last.cycles * r.arrived(last.span)
  }

  function Span(us: seq<Use>): int {
    if us == [] then 0 else Span(us[..|us| - 1]) + us[|us| - 1].span
  }

  function Cycles(us: seq<Use>): real {
    if us == [] then 0.0 else Cycles(us[..|us| - 1]) + us[|us| - 1].cycles
  }

  /** The same stretch and the same cycles in one step. */
  function Together(us: seq<Use>): Use {
    Use(Span(us), Cycles(us))
  }

  lemma {:induction false} TogetherProper(us: seq<Use>)
    requires Proper(us)
    ensures Span(us) >= 0 && Cycles(us) >= 0.0
  {
    if us != [] {
      TogetherProper(us[..|us| - 1]);
    }
  }

  lemma {:induction false} RunAppend(r: Rate, t: real, a: seq<Use>, b: seq<Use>)
    ensures Run(r, t, a + b) == Run(r, Run(r, t, a), b)
  {
    if b == [] {
      assert a + b == a;
    } else {
      RunAppend(r, t, a, b[..|b| - 1]);
      assert (a + b)[..|a + b| - 1] == a + b[..|b| - 1];
    }
  }

  // The laws, one at a time

  lemma KeptOver(r: Rate, a: int, b: int)
    requires Fades(r) && a >= 0 && b >= 0
    ensures r.kept(a + b) == r.kept(a) * r.kept(b)
  {
    hide Spreads, Balances;
  }

  lemma KeptNothing(r: Rate)
    requires Fades(r)
    ensures r.kept(0) == 1.0
  {
  }

  lemma Bounds(r: Rate, s: int)
    requires Fades(r) && s >= 0
    ensures 0.0 < r.kept(s) <= r.arrived(s) <= 1.0
  {
  }

  lemma Arrival(r: Rate, s: int)
    requires Fades(r) && s >= 0
    ensures r.decay > 0.0 && r.decay * (s as real) * r.arrived(s) == 1.0 - r.kept(s)
  {
  }

  // Arithmetic they are used with

  /** `a` and `b` differ by no more than `off`. */
  predicate Within(a: real, b: real, off: real) {
    a - b <= off && b - a <= off
  }

  lemma Scale(a: real, b: real, c: real)
    requires a <= b && c >= 0.0
    ensures a * c <= b * c && c * a <= c * b
  {
  }

  lemma Cancel(a: real, x: real, y: real)
    requires a != 0.0 && a * x == a * y
    ensures x == y
  {
  }

  lemma AffineStep(t: real, k: real, x: real, l: real, n: real)
    ensures (t * k + x) * l + n == t * (k * l) + (x * l + n)
  {
    assert (t * k + x) * l == (t * k) * l + x * l;
    assert (t * k) * l == t * (k * l);
  }

  lemma BetweenStep(c: real, k: real, x: real, l: real, n: real, a: real)
    requires c >= 0.0 && n >= 0.0 && 0.0 < k <= 1.0 && 0.0 < l <= a <= 1.0 && c * k <= x <= c
    ensures (c + n) * (k * l) <= x * l + n * a <= c + n
  {
    Scale(x, c, l);
    Scale(l, 1.0, c);
    Scale(a, 1.0, n);
    Scale(c * k, x, l);
    assert (c * k) * l == c * (k * l);
    Scale(k, 1.0, l);
    Scale(k * l, a, n);
    assert (c + n) * (k * l) == c * (k * l) + n * (k * l);
  }

  lemma NearStep(c: real, k: real, a: real, run: real)
    requires c >= 0.0 && 0.0 < k <= a <= 1.0 && c * k <= run <= c
    ensures Within(c * a, run, c * (1.0 - k))
  {
    Scale(k, a, c);
    Scale(a, 1.0, c);
    assert c * (1.0 - k) == c - c * k;
  }

  lemma SteadyStep(d: real, run: real, l: real, x: real, s: real, a: real, k: real)
    requires d * run == x * (1.0 - k) && d * s * a == 1.0 - l
    ensures d * (run * l + (x * s) * a) == x * (1.0 - k * l)
  {
    calc {
      d * (run * l + (x * s) * a);
      d * (run * l) + d * ((x * s) * a);
      { assert d * (run * l) == (d * run) * l; assert d * ((x * s) * a) == x * (d * s * a); }
      (x * (1.0 - k)) * l + x * (1.0 - l);
      { assert (x * (1.0 - k)) * l == x * ((1.0 - k) * l); }
      x * ((1.0 - k) * l) + x * (1.0 - l);
      x * ((1.0 - k) * l + (1.0 - l));
      { assert (1.0 - k) * l == l - k * l; }
      x * (1.0 - k * l);
    }
  }

  lemma Spread(a: real, b: real, c: real)
    ensures (a + b) * c == a * c + b * c
  {
  }

  lemma Narrow(d: real, off: real, k: real)
    requires d <= off && 0.0 <= off && 0.0 <= k <= 1.0
    ensures d * k <= off
  {
    var x, y := d * k, off * k;
    Ordered(x, y, off) by {
      Scale(d, off, k);
      Scale(k, 1.0, off);
    }
  }

  lemma Ordered(x: real, y: real, z: real)
    requires x <= y && y <= z
    ensures x <= z
  {
  }

  lemma Apart(a: real, b: real, k: real)
    ensures (a - b) * k == a * k - b * k
  {
  }

  lemma Shrink(a: real, b: real, off: real, k: real)
    requires Within(a, b, off) && 0.0 <= k <= 1.0
    ensures Within(a * k, b * k, off)
  {
    Narrow(a - b, off, k);
    Apart(a, b, k);
    Narrow(b - a, off, k);
    Apart(b, a, k);
  }

  // Runs

  /** What a run makes of its start: a share of it, the share its whole span keeps. */
  lemma {:induction false} RunIsAffine(r: Rate, t: real, us: seq<Use>)
    requires Fades(r) && Proper(us)
    ensures Run(r, t, us) == t * r.kept(Span(us)) + Run(r, 0.0, us)
  {
    hide Fades;
    if us == [] {
      KeptNothing(r);
    } else {
      var most, last := us[..|us| - 1], us[|us| - 1];
      RunIsAffine(r, t, most);
      TogetherProper(most);
      KeptOver(r, Span(most), last.span);
      AffineStep(t, r.kept(Span(most)), Run(r, 0.0, most), r.kept(last.span), last.cycles * r.arrived(last.span));
    }
  }

  /** Whenever in a stretch its cycles are used, they count for no more than all of
      themselves at its end, and no less than what the whole stretch keeps. */
  lemma {:induction false} RunBetween(r: Rate, us: seq<Use>)
    requires Fades(r) && Proper(us)
    ensures Cycles(us) * r.kept(Span(us)) <= Run(r, 0.0, us) <= Cycles(us)
  {
    hide Fades;
    if us != [] {
      var most, last := us[..|us| - 1], us[|us| - 1];
      RunBetween(r, most);
      TogetherProper(most);
      KeptOver(r, Span(most), last.span);
      Bounds(r, Span(most));
      Bounds(r, last.span);
      BetweenStep(Cycles(most), r.kept(Span(most)), Run(r, 0.0, most), r.kept(last.span), last.cycles, r.arrived(last.span));
    }
  }

  lemma OneStep(r: Rate, t: real, u: Use)
    ensures Run(r, t, [u]) == t * r.kept(u.span) + u.cycles * r.arrived(u.span)
  {
    assert [u][..0] == [];
    assert Run(r, t, [u]) == Run(r, t, [u][..0]) * r.kept(u.span) + u.cycles * r.arrived(u.span);
  }

  /** Folding a stretch into one step changes a total by at most the stretch's cycles
      times the share the stretch loses. */
  lemma TogetherIsNear(r: Rate, t: real, us: seq<Use>)
    requires Fades(r) && Proper(us)
    ensures Within(Run(r, t, [Together(us)]), Run(r, t, us), Loss(r, us))
  {
    hide Fades, Run;
    RunIsAffine(r, t, us);
    RunBetween(r, us);
    TogetherProper(us);
    OneStep(r, t, Together(us));
    Bounds(r, Span(us));
    NearStep(Cycles(us), r.kept(Span(us)), r.arrived(Span(us)), Run(r, 0.0, us));
    Shifted(t * r.kept(Span(us)), Cycles(us) * r.arrived(Span(us)), Run(r, 0.0, us), Loss(r, us));
  }

  lemma Shifted(t: real, a: real, b: real, off: real)
    requires Within(a, b, off)
    ensures Within(t + a, t + b, off)
  {
  }

  /** The most a folded stretch can be off by. */
  ghost function Loss(r: Rate, us: seq<Use>): real {
    Cycles(us) * (1.0 - r.kept(Span(us)))
  }

  /** Use spread evenly over the stretch: each part has its share of the cycles by its
      share of the time. */
  predicate Even(us: seq<Use>) {
    forall i :: 0 <= i < |us| ==> us[i].cycles * (Span(us) as real) == Cycles(us) * (us[i].span as real)
  }

  /** Use at a steady rate `x`. */
  predicate Steady(us: seq<Use>, x: real) {
    forall i :: 0 <= i < |us| ==> us[i].cycles == x * (us[i].span as real)
  }

  /** What a steady rate of use `x` makes of no total over `us`, times the decay, is `x`
      times the share the whole span loses: how the span is cut up does not matter. */
  lemma {:induction false} SteadyRun(r: Rate, x: real, us: seq<Use>)
    requires Fades(r) && Proper(us) && Steady(us, x)
    ensures r.decay * Run(r, 0.0, us) == x * (1.0 - r.kept(Span(us)))
  {
    hide Fades;
    if us == [] {
      KeptNothing(r);
    } else {
      var most, last := us[..|us| - 1], us[|us| - 1];
      SteadyRun(r, x, most);
      TogetherProper(most);
      KeptOver(r, Span(most), last.span);
      Arrival(r, last.span);
      SteadyStep(r.decay, Run(r, 0.0, most), r.kept(last.span), x, last.span as real, r.arrived(last.span), r.kept(Span(most)));
    }
  }

  /** Two ways of cutting up the same span of steady use give one total. */
  lemma SteadySubdivisions(r: Rate, x: real, t: real, a: seq<Use>, b: seq<Use>)
    requires Fades(r) && Proper(a) && Proper(b) && Span(a) == Span(b)
    requires Steady(a, x) && Steady(b, x)
    ensures Run(r, t, a) == Run(r, t, b)
  {
    hide Fades, Run;
    Arrival(r, 0);
    SteadyRun(r, x, a);
    SteadyRun(r, x, b);
    RunIsAffine(r, t, a);
    RunIsAffine(r, t, b);
    Cancel(r.decay, Run(r, 0.0, a), Run(r, 0.0, b));
  }

  /** Folding an evenly used stretch changes nothing. */
  lemma TogetherIsExact(r: Rate, t: real, us: seq<Use>)
    requires Fades(r) && Proper(us) && Even(us) && Span(us) > 0
    ensures Run(r, t, [Together(us)]) == Run(r, t, us)
  {
    hide Fades, Run;
    var s, c := Span(us) as real, Cycles(us);
    var x := c / s;
    forall i | 0 <= i < |us|
      ensures us[i].cycles == x * (us[i].span as real)
    {
      EvenShare(us[i].cycles, s, c, us[i].span as real);
    }
    TogetherProper(us);
    EvenShare(c, s, c, s);
    var one := [Together(us)];
    assert Span(one) == Span(us) by {
      assert one[..0] == [];
      assert Span(one) == Span(one[..0]) + one[0].span;
    }
    SteadySubdivisions(r, x, t, one, us);
  }

  lemma EvenShare(c: real, s: real, all: real, part: real)
    requires s > 0.0 && c * s == all * part
    ensures c == all / s * part
  {
    assert (all / s * part) * s == all * part;
    Cancel(s, c, all / s * part);
  }

  // Many stretches

  function Flatten<T>(groups: seq<seq<T>>): seq<T> {
    if groups == [] then [] else Flatten(groups[..|groups| - 1]) + groups[|groups| - 1]
  }

  function AllTogether(groups: seq<seq<Use>>): seq<Use> {
    seq(|groups|, i requires 0 <= i < |groups| => Together(groups[i]))
  }

  /** What a group of steps folded into one loses: nothing if it is one step, or if
      its use was even. */
  ghost function LossOf(r: Rate, us: seq<Use>): real {
    if |us| == 1 || (Even(us) && Span(us) > 0) then 0.0 else Loss(r, us)
  }

  ghost function AllLoss(r: Rate, groups: seq<seq<Use>>): real {
    if groups == [] then 0.0 else AllLoss(r, groups[..|groups| - 1]) + LossOf(r, groups[|groups| - 1])
  }

  lemma {:induction false} ProperParts(groups: seq<seq<Use>>)
    requires Proper(Flatten(groups))
    ensures forall i :: 0 <= i < |groups| ==> Proper(groups[i])
  {
    if groups != [] {
      var before, last := groups[..|groups| - 1], groups[|groups| - 1];
      var all := Flatten(groups);
      assert forall i :: 0 <= i < |Flatten(before)| ==> Flatten(before)[i] == all[i];
      assert forall i :: 0 <= i < |last| ==> last[i] == all[|Flatten(before)| + i];
      ProperParts(before);
    }
  }

  /** Replaying the folded steps from where the total started comes to within the
      losses of the real total, and to exactly it where nothing was lost. */
  lemma {:induction false} ReplayIsNear(r: Rate, t: real, groups: seq<seq<Use>>)
    requires Fades(r) && Proper(Flatten(groups))
    ensures Within(Run(r, t, AllTogether(groups)), Run(r, t, Flatten(groups)), AllLoss(r, groups))
  {
    if groups == [] {
      assert AllTogether(groups) == [];
    } else {
      var before, last := groups[..|groups| - 1], groups[|groups| - 1];
      ProperParts(groups);
      assert Proper(last);
      assert Proper(Flatten(before)) by {
        assert forall i :: 0 <= i < |Flatten(before)| ==> Flatten(before)[i] == Flatten(groups)[i];
      }
      ReplayIsNear(r, t, before);
      assert AllTogether(groups) == AllTogether(before) + [Together(last)];
      RunAppend(r, t, AllTogether(before), [Together(last)]);
      RunAppend(r, t, Flatten(before), last);
      OneMoreStep(r, Run(r, t, AllTogether(before)), Run(r, t, Flatten(before)), AllLoss(r, before), last);
    }
  }

  /** A difference in totals can only shrink over a stretch; folding it adds at most
      its loss. */
  lemma OneMoreStep(r: Rate, folded: real, exact: real, off: real, last: seq<Use>)
    requires Fades(r) && Proper(last) && Within(folded, exact, off)
    ensures Within(Run(r, folded, [Together(last)]), Run(r, exact, last), off + LossOf(r, last))
  {
    hide Fades, Run, Loss;
    TogetherProper(last);
    var k := r.kept(Span(last));
    Bounds(r, Span(last));
    RunIsAffine(r, folded, last);
    RunIsAffine(r, exact, last);
    Shrink(folded, exact, off, k);
    assert Within(Run(r, folded, last), Run(r, exact, last), off);
    if |last| == 1 {
      assert Together(last) == last[0] by {
        assert last[..0] == [];
      }
      assert [Together(last)] == last;
    } else if Even(last) && Span(last) > 0 {
      TogetherIsExact(r, folded, last);
    } else {
      TogetherIsNear(r, folded, last);
    }
  }

  // A rate that fades

  function HalfTo(n: nat): (k: real)
    ensures 0.0 < k <= 1.0
  {
    if n == 0 then 1.0 else HalfTo(n - 1) / 2.0
  }

  /** Half of what is left goes every millisecond. */
  function Halving(): Rate {
    Rate(s => if s > 0 then HalfTo(s) else 1.0, s => if s > 0 then (1.0 - HalfTo(s)) / (0.5 * s as real) else 1.0, 0.5)
  }

  /** The laws are those of rates there are. */
  lemma HalvingFades()
    ensures Fades(Halving()) && Halving().kept(1) == 0.5
  {
    hide *;
    HalvingStarts();
    HalvingCompounds();
    HalvingSpreads();
    FadesIf(Halving());
  }

  lemma FadesIf(r: Rate)
    requires r.decay > 0.0 && r.kept(0) == 1.0 && Compounds(r) && Spreads(r) && Balances(r)
    ensures Fades(r)
  {
    hide Compounds, Spreads, Balances;
  }

  lemma HalvingCompounds()
    ensures Compounds(Halving())
  {
    hide Halving, HalfTo;
    forall a, b | a >= 0 && b >= 0
      ensures Halving().kept(a + b) == Halving().kept(a) * Halving().kept(b)
    {
      HalvingOver(a, b);
    }
  }

  lemma HalvingSpreads()
    ensures Spreads(Halving()) && Balances(Halving())
  {
    hide Halving, HalfTo;
    forall s | s >= 0
      ensures 0.0 < Halving().kept(s) <= Halving().arrived(s) <= 1.0
      ensures Halving().decay * (s as real) * Halving().arrived(s) == 1.0 - Halving().kept(s)
    {
      HalvingAt(s);
    }
  }

  lemma HalvingStarts()
    ensures Halving().decay > 0.0 && Halving().kept(0) == 1.0 && Halving().kept(1) == 0.5
  {
    assert HalfTo(1) == HalfTo(0) / 2.0;
  }

  lemma HalvingOver(a: nat, b: nat)
    ensures Halving().kept(a + b) == Halving().kept(a) * Halving().kept(b)
  {
    hide HalfTo;
    HalfTogether(a, b);
  }

  lemma HalvingAt(s: nat)
    ensures 0.0 < Halving().kept(s) <= Halving().arrived(s) <= 1.0
    ensures Halving().decay * (s as real) * Halving().arrived(s) == 1.0 - Halving().kept(s)
  {
    hide HalfTo;
    if s > 0 {
      HalfBounds(s);
      ShareBounds(1.0 - HalfTo(s), 0.5 * s as real, HalfTo(s));
    }
  }

  lemma {:induction false} HalfTogether(a: nat, b: nat)
    ensures HalfTo(a + b) == HalfTo(a) * HalfTo(b)
  {
    if b > 0 {
      HalfTogether(a, b - 1);
      Halve(HalfTo(a), HalfTo(b - 1));
    }
  }

  lemma Halve(x: real, y: real)
    ensures x * y / 2.0 == x * (y / 2.0)
  {
  }

  lemma {:induction false} HalfBounds(n: nat)
    requires n > 0
    ensures 1.0 - HalfTo(n) <= 0.5 * n as real && HalfTo(n) * (0.5 * n as real) <= 1.0 - HalfTo(n)
  {
    if n == 1 {
      assert HalfTo(1) == HalfTo(0) / 2.0;
    } else {
      HalfBounds(n - 1);
      var k, m := HalfTo(n - 1), (n - 1) as real;
      assert n as real == m + 1.0;
      HalfStep(k, m);
    }
  }

  lemma HalfStep(k: real, m: real)
    requires 0.0 < k <= 1.0 && m >= 1.0 && k * (0.5 * m) <= 1.0 - k
    ensures k / 2.0 * (0.5 * (m + 1.0)) <= 1.0 - k / 2.0
  {
    assert k / 2.0 * (0.5 * (m + 1.0)) == k * (0.5 * m) / 2.0 + k / 4.0;
  }

  lemma Strictly(a: real, b: real, n: real)
    requires a < b && n > 0.0
    ensures a * n < b * n
  {
  }

  lemma ShareBounds(x: real, n: real, k: real)
    requires n > 0.0 && x <= n && k * n <= x
    ensures k <= x / n <= 1.0 && n * (x / n) == x
  {
    var q := x / n;
    assert q * n == x;
    if q > 1.0 {
      Scale(1.0, q, n);
    }
    if q < k {
      Strictly(q, k, n);
    }
  }
}
