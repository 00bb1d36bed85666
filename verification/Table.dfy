/** Numbering pointers and looking numbers up again: what keeps an id standing for one
    value through freeing, reuse of addresses and sweeps. */
module Table {
  import opened Basics
  import opened Model

  /** Reserved: ids that are given out start above it. */
  const EMPTY: nat := 0

  // What a writer's table is, and what its operations do to it

  datatype Numbering<T> = Numbering(
    ids: map<nat, (nat, Arc<T>)>,
    next: nat,
    pending: seq<(nat, Arc<T>)>)

  function NoneNumbered<T>(): Numbering<T> {
    Numbering(map[], EMPTY + 1, [])
  }

  function Numbered<T>(w: Numbering<T>, a: Arc<T>): (Numbering<T>, nat) {
    if a.addr in w.ids then
      (w, w.ids[a.addr].0)
    else
      (Numbering(w.ids[a.addr := (w.next, a)], w.next + 1, w.pending + [(w.next, a)]), w.next)
  }

  function NumberedOrEmpty<U>(w: Numbering<seq<U>>, a: Arc<seq<U>>): (Numbering<seq<U>>, nat) {
    if |a.value| == 0 then (w, EMPTY) else Numbered(w, a)
  }

  function PendingTaken<T>(w: Numbering<T>): Numbering<T> {
    w.(pending := [])
  }

  /** Forget every value only the table still holds; `held` is where somebody else
      holds one too. */
  function Swept<T>(w: Numbering<T>, held: set<nat>): Numbering<T> {
    w.(ids := map a | a in w.ids && a in held :: w.ids[a])
  }

  /** The ids given so far by address, and the queue of those no record has yet. */
  class Writer<T> {
    var ids: map<nat, (nat, Arc<T>)>
    var next: nat
    var pending: seq<(nat, Arc<T>)>

    constructor ()
      ensures State() == NoneNumbered()
    {
      ids, next, pending := map[], EMPTY + 1, [];
    }

    function State(): Numbering<T>
      reads this
    {
      Numbering(ids, next, pending)
    }

    method Id(value: Arc<T>) returns (id: nat)
      modifies this
      ensures (State(), id) == Numbered(old(State()), value)
    {
      if value.addr in ids {
        return ids[value.addr].0;
      }
      id := next;
      next := next + 1;
      ids := ids[value.addr := (id, value)];
      pending := pending + [(id, value)];
    }

    method TakePending() returns (values: seq<(nat, Arc<T>)>)
      modifies this
      ensures values == old(pending)
      ensures State() == PendingTaken(old(State()))
    {
      values := pending;
      pending := [];
    }

    method Sweep(held: set<nat>)
      modifies this
      ensures State() == Swept(old(State()), held)
    {
      ids := map a | a in ids && a in held :: ids[a];
    }
  }

  /** As `Id`, except that slices of length zero get the reserved number. */
  method IdOrEmpty<U>(w: Writer<seq<U>>, value: Arc<seq<U>>) returns (id: nat)
    modifies w
    ensures (w.State(), id) == NumberedOrEmpty(old(w.State()), value)
  {
    if |value.value| == 0 {
      id := EMPTY;
    } else {
      id := w.Id(value);
    }
  }

  // What makes a table sound

  function ValuesOf<T>(entries: seq<(nat, Arc<T>)>): (vs: seq<T>)
    ensures |vs| == |entries|
    ensures forall k :: 0 <= k < |vs| ==> vs[k] == entries[k].1.value
  {
    seq(|entries|, k requires 0 <= k < |entries| => entries[k].1.value)
  }

  /** Every value numbered so far, in the order of their ids: those already written
      to the file, then those waiting. Id `n` is the `n`th. */
  function Known<T>(w: Numbering<T>, written: seq<T>): seq<T> {
    written + ValuesOf(w.pending)
  }

  /** Ids count up from one with none left out, each entry's id denotes the entry's
      value, no two entries share an id, and what waits is numbered in order. */
  ghost predicate Sound<T>(w: Numbering<T>, written: seq<T>) {
    && w.next == |written| + |w.pending| + 1
    && (forall k :: 0 <= k < |w.pending| ==> w.pending[k].0 == |written| + k + 1)
    && (forall a :: a in w.ids ==> Denotes(Known(w, written), w.ids[a].0, w.ids[a].1.value))
    && (forall a, b :: a in w.ids && b in w.ids && a != b ==> w.ids[a].0 != w.ids[b].0)
  }

  /** Id `id` stands for `v`, going by the values in order of their ids. */
  predicate Denotes<T(==)>(known: seq<T>, id: nat, v: T) {
    1 <= id <= |known| && known[id - 1] == v
  }

  /** What `mem`, what each live address holds, says agrees with the table: a value
      the table holds cannot be freed, so nothing else can be at its address. */
  ghost predicate Live<T>(w: Numbering<T>, mem: map<nat, T>) {
    forall a :: a in w.ids ==> a in mem && mem[a] == w.ids[a].1.value && w.ids[a].1.addr == a
  }

  ghost predicate Points<T>(a: Arc<T>, mem: map<nat, T>) {
    a.addr in mem && mem[a.addr] == a.value
  }

  /** Numbering a live pointer keeps the table sound and gives an id that stands for
      the pointer's value, now and after everything numbered later. */
  lemma NumberSound<T>(w: Numbering<T>, written: seq<T>, a: Arc<T>, mem: map<nat, T>)
    requires Sound(w, written) && Live(w, mem) && Points(a, mem)
    ensures var (w', id) := Numbered(w, a);
      && Sound(w', written) && Live(w', mem)
      && Known(w, written) <= Known(w', written)
      && Denotes(Known(w', written), id, a.value)
  {
    var (w', id) := Numbered(w, a);
    if a.addr !in w.ids {
      assert Known(w', written) == Known(w, written) + [a.value];
      forall b | b in w'.ids
        ensures Denotes(Known(w', written), w'.ids[b].0, w'.ids[b].1.value)
      {
      }
    }
  }

  lemma FlushSound<T>(w: Numbering<T>, written: seq<T>, mem: map<nat, T>)
    requires Sound(w, written) && Live(w, mem)
    ensures Sound(PendingTaken(w), Known(w, written)) && Live(PendingTaken(w), mem)
    ensures Known(PendingTaken(w), Known(w, written)) == Known(w, written)
  {
    assert ValuesOf(PendingTaken(w).pending) == [];
  }

  lemma SweepSound<T>(w: Numbering<T>, written: seq<T>, held: set<nat>)
    requires Sound(w, written)
    ensures Sound(Swept(w, held), written)
    ensures Known(Swept(w, held), written) == Known(w, written)
  {
  }

  // The reader's side

  /** The loaded values by id. A reader allocates once for each, so the id serves as the
      address; `empty` is the value of the reserved id in tables of slices. */
  datatype Shelf<T> = Shelf(items: map<nat, T>, empty: Option<T>) {
    function Get(id: nat): Result<Arc<T>> {
      if id == EMPTY && empty.Some? then Ok(Arc(EMPTY, empty.value))
      else if id in items then Ok(Arc(id, items[id]))
      else Err(Corrupt)
    }
  }

  function Inserted<T>(items: map<nat, T>, values: seq<(nat, T)>): map<nat, T> {
    if values == [] then items
    else Inserted(items, values[..|values| - 1])[values[|values| - 1].0 := values[|values| - 1].1]
  }

  class Reader<T> {
    var items: map<nat, T>
    const empty: Option<T>

    constructor (empty: Option<T>)
      ensures Shelved() == Shelf(map[], empty)
    {
      items := map[];
      this.empty := empty;
    }

    function Shelved(): Shelf<T>
      reads this
    {
      Shelf(items, empty)
    }

    method Insert(values: seq<(nat, T)>)
      modifies this
      ensures items == Inserted(old(items), values)
    {
      for i := 0 to |values|
        invariant items == Inserted(old(items), values[..i])
      {
        items := items[values[i].0 := values[i].1];
        assert values[..i + 1][..i] == values[..i];
      }
      assert values[..|values|] == values;
    }
  }

  /** The reader has what the writer wrote: the ids from one up, each standing for
      its value. */
  ghost predicate Holds<T>(items: map<nat, T>, written: seq<T>) {
    && (forall id :: id in items <==> 1 <= id <= |written|)
    && (forall id :: id in items ==> items[id] == written[id - 1])
  }

  /** The entries of a table record: `values` under the ids after `first`. */
  ghost predicate NumberedFrom<T>(entries: seq<(nat, T)>, first: nat, values: seq<T>) {
    && |entries| == |values|
    && forall k :: 0 <= k < |entries| ==> entries[k] == (first + k + 1, values[k])
  }

  /** Loading a table record after the ones before it leaves the reader with one
      value more for each entry. */
  lemma {:induction false} InsertHolds<T>(items: map<nat, T>, written: seq<T>, entries: seq<(nat, T)>, values: seq<T>)
    requires Holds(items, written) && NumberedFrom(entries, |written|, values)
    ensures Holds(Inserted(items, entries), written + values)
  {
    if entries == [] {
      assert written + values == written;
    } else {
      var n := |entries| - 1;
      InsertHolds(items, written, entries[..n], values[..n]);
      var before := written + values[..n];
      var after := written + values;
      assert after == before + [values[n]];
    }
  }

  // Every run of allocating, cloning, dropping, numbering, writing and sweeping

  /** A value with the serial number of its allocation. The table never looks at it;
      it tells two allocations of equal values apart. */
  type Tagged<T> = (nat, T)

  /** A live allocation, and how many pointers to it there are outside the table. */
  datatype Cell<T> = Cell(value: Tagged<T>, owners: nat)

  /** The program's memory beside the table; `log` is every value numbered, in order,
      of which the last few are still to be written. */
  datatype World<T> = World(
    mem: map<nat, Cell<T>>,
    allocations: nat,
    table: Numbering<Tagged<T>>,
    log: seq<Tagged<T>>)

  datatype Step<T> =
    | Allocate(addr: nat, value: T)
    | Clone(addr: nat)
    | Drop(addr: nat)
    | NumberIt(addr: nat)
    | Write
    | SweepUp

  predicate InPending<T>(w: Numbering<T>, addr: nat) {
    exists k :: 0 <= k < |w.pending| && w.pending[k].1.addr == addr
  }

  /** Memory with what nothing points to any more freed. */
  ghost function Settled<T>(mem: map<nat, Cell<T>>, table: Numbering<Tagged<T>>): map<nat, Cell<T>> {
    map a | a in mem && (mem[a].owners > 0 || a in table.ids || InPending(table, a)) :: mem[a]
  }

  /** One step; a step its actor cannot take (allocating at an address in use,
      touching a pointer nobody outside the table has) changes nothing. */
  ghost function Do<T>(w: World<T>, s: Step<T>): World<T> {
    match s
    case Allocate(a, v) =>
      if a in w.mem then w
      else w.(mem := w.mem[a := Cell((w.allocations, v), 1)], allocations := w.allocations + 1)
    case Clone(a) =>
      if a in w.mem && w.mem[a].owners > 0 then
        w.(mem := w.mem[a := Cell(w.mem[a].value, w.mem[a].owners + 1)])
      else w
    case Drop(a) =>
      if a in w.mem && w.mem[a].owners > 0 then
        w.(mem := Settled(w.mem[a := Cell(w.mem[a].value, w.mem[a].owners - 1)], w.table))
      else w
    case NumberIt(a) =>
      if a in w.mem && w.mem[a].owners > 0 then
        var (table, id) := Numbered(w.table, Arc(a, w.mem[a].value));
        w.(table := table, log := if id == w.table.next then w.log + [w.mem[a].value] else w.log)
      else w
    case Write =>
      w.(table := PendingTaken(w.table), mem := Settled(w.mem, PendingTaken(w.table)))
    case SweepUp =>
      var held := set a | a in w.mem && (w.mem[a].owners > 0 || InPending(w.table, a));
      var table := Swept(w.table, held);
      w.(table := table, mem := Settled(w.mem, table))
  }

  ghost function Run<T>(steps: seq<Step<T>>): World<T> {
    if steps == [] then World(map[], 0, NoneNumbered(), [])
    else Do(Run(steps[..|steps| - 1]), steps[|steps| - 1])
  }

  /** The table agrees with memory and with the log. */
  ghost predicate Agrees<T>(w: World<T>) {
    && w.table.next == |w.log| + 1
    && (forall a :: a in w.table.ids ==>
          && a in w.mem && w.table.ids[a].1 == Arc(a, w.mem[a].value)
          && Denotes(w.log, w.table.ids[a].0, w.mem[a].value))
    && (forall k :: 0 <= k < |w.table.pending| ==>
          w.table.pending[k].1.addr in w.table.ids && w.table.pending[k] == w.table.ids[w.table.pending[k].1.addr])
  }

  /** No serial number is on two addresses or twice in the log. */
  ghost predicate Distinct<T>(w: World<T>) {
    && (forall a :: a in w.mem ==> w.mem[a].value.0 < w.allocations)
    && (forall a, b :: a in w.mem && b in w.mem && a != b ==> w.mem[a].value.0 != w.mem[b].value.0)
    && (forall i :: 0 <= i < |w.log| ==> w.log[i].0 < w.allocations)
    && (forall i, j :: 0 <= i < j < |w.log| ==> w.log[i].0 != w.log[j].0)
  }

  /** What every run keeps. An allocation that has an id and is still there is in the
      table: this is what rules a second id for it out. */
  ghost predicate Kept<T>(w: World<T>) {
    && Agrees(w)
    && Distinct(w)
    && LoggedOnce(w)
    && (forall a :: a in w.mem ==> w.mem[a].owners > 0 || a in w.table.ids)
  }

  ghost predicate LoggedOnce<T>(w: World<T>) {
    forall a, i :: a in w.mem && 0 <= i < |w.log| && w.log[i].0 == w.mem[a].value.0 ==> a in w.table.ids
  }

  lemma NumberDistinct<T>(w: World<T>, a: nat)
    requires a in w.mem && a !in w.table.ids && Distinct(w) && LoggedOnce(w)
    ensures var w' := w.(log := w.log + [w.mem[a].value]);
      Distinct(w')
  {
    var w' := w.(log := w.log + [w.mem[a].value]);
    forall i, j | 0 <= i < j < |w'.log|
      ensures w'.log[i].0 != w'.log[j].0
    {
      assert w'.log[i] == w.log[i];
    }
  }

  lemma NumberLoggedOnce<T>(w: World<T>, a: nat, table: Numbering<Tagged<T>>)
    requires a in w.mem && a !in w.table.ids && Distinct(w) && LoggedOnce(w)
    requires table.ids.Keys == w.table.ids.Keys + {a}
    ensures LoggedOnce(w.(table := table, log := w.log + [w.mem[a].value]))
  {
    var w' := w.(table := table, log := w.log + [w.mem[a].value]);
    forall b, i | b in w'.mem && 0 <= i < |w'.log| && w'.log[i].0 == w'.mem[b].value.0
      ensures b in w'.table.ids
    {
      if i < |w.log| {
        assert w'.log[i] == w.log[i];
        assert b in w.table.ids;
      } else {
        assert b == a;
      }
    }
  }

  lemma NumberAgrees<T>(w: World<T>, a: nat)
    requires a in w.mem && w.mem[a].owners > 0 && a !in w.table.ids && Agrees(w)
    ensures var w' := Do(w, NumberIt(a));
      && Agrees(w')
      && w' == w.(table := w'.table, log := w.log + [w.mem[a].value])
      && w'.table.ids.Keys == w.table.ids.Keys + {a}
  {
    var w' := Do(w, NumberIt(a));
    forall b | b in w'.table.ids
      ensures Denotes(w'.log, w'.table.ids[b].0, w'.mem[b].value)
    {
      assert b == a || Denotes(w.log, w.table.ids[b].0, w.mem[b].value);
    }
  }

  lemma NumberKeeps<T>(w: World<T>, a: nat)
    requires Kept(w)
    ensures Kept(Do(w, NumberIt(a))) && w.log <= Do(w, NumberIt(a)).log
  {
    if a in w.mem && w.mem[a].owners > 0 && a !in w.table.ids {
      NumberAgrees(w, a);
      NumberDistinct(w, a);
      NumberLoggedOnce(w, a, Do(w, NumberIt(a)).table);
    }
  }

  lemma AllocateKeeps<T>(w: World<T>, a: nat, v: T)
    requires Kept(w)
    ensures Kept(Do(w, Allocate(a, v)))
  {
    var w' := Do(w, Allocate(a, v));
    assert Distinct(w');
    assert LoggedOnce(w');
  }

  lemma DropKeeps<T>(w: World<T>, a: nat)
    requires Kept(w)
    ensures Kept(Do(w, Drop(a)))
  {
    var w' := Do(w, Drop(a));
    forall b | b in w'.mem
      ensures w'.mem[b].owners > 0 || b in w.table.ids
    {
    }
  }

  lemma WriteKeeps<T>(w: World<T>)
    requires Kept(w)
    ensures Kept(Do(w, Write))
  {
    assert Do(w, Write).mem == w.mem;
  }

  lemma SweepUpKeeps<T>(w: World<T>)
    requires Kept(w)
    ensures Kept(Do(w, SweepUp))
  {
    var w' := Do(w, SweepUp);
    forall b | b in w.table.ids && InPending(w.table, b)
      ensures b in w'.table.ids
    {
    }
    forall b | b in w'.mem
      ensures w'.mem[b].owners > 0 || b in w'.table.ids
    {
    }
  }

  lemma DoKeeps<T>(w: World<T>, s: Step<T>)
    requires Kept(w)
    ensures Kept(Do(w, s)) && w.log <= Do(w, s).log
  {
    match s
    case Allocate(a, v) => AllocateKeeps(w, a, v);
    case Clone(a) =>
    case Drop(a) => DropKeeps(w, a);
    case NumberIt(a) => NumberKeeps(w, a);
    case Write => WriteKeeps(w);
    case SweepUp => SweepUpKeeps(w);
  }

  lemma {:induction false} RunKeeps<T>(steps: seq<Step<T>>)
    ensures Kept(Run(steps))
  {
    if steps != [] {
      RunKeeps(steps[..|steps| - 1]);
      DoKeeps(Run(steps[..|steps| - 1]), steps[|steps| - 1]);
    }
  }

  /** What an id denotes never changes: the log of a longer run starts with the log
      of a shorter one. */
  lemma {:induction false} LogGrows<T>(steps: seq<Step<T>>, n: nat)
    requires n <= |steps|
    ensures Run(steps[..n]).log <= Run(steps).log
  {
    if n == |steps| {
      assert steps[..n] == steps;
    } else {
      var most := steps[..|steps| - 1];
      LogGrows(most, n);
      assert most[..n] == steps[..n];
      RunKeeps(most);
      DoKeeps(Run(most), steps[|steps| - 1]);
    }
  }

  /** In any run at all: numbering a pointer somebody holds gives an id that denotes
      that very allocation, whatever was freed, swept and allocated at the address
      before, and two pointers get one id just when they are one allocation. */
  lemma IdIsAllocation<T>(earlier: seq<Step<T>>, later: seq<Step<T>>, a: nat, b: nat)
    requires var w := Run(earlier); a in w.mem && w.mem[a].owners > 0
    requires var w := Run(earlier + [NumberIt(a)] + later); b in w.mem && w.mem[b].owners > 0
    ensures
      var w := Run(earlier);
      var (_, id) := Numbered(w.table, Arc(a, w.mem[a].value));
      var u := Run(earlier + [NumberIt(a)] + later);
      var (_, id') := Numbered(u.table, Arc(b, u.mem[b].value));
      var end := Run(earlier + [NumberIt(a)] + later + [NumberIt(b)]);
      && Denotes(end.log, id, w.mem[a].value)
      && Denotes(end.log, id', u.mem[b].value)
      && (id == id' <==> w.mem[a].value.0 == u.mem[b].value.0)
  {
    var w := Run(earlier);
    var (_, id) := Numbered(w.table, Arc(a, w.mem[a].value));
    var first := earlier + [NumberIt(a)];
    var mid := first + later;
    var all := mid + [NumberIt(b)];
    var u := Run(mid);
    var (_, id') := Numbered(u.table, Arc(b, u.mem[b].value));
    assert first[..|earlier|] == earlier && all[..|mid|] == mid && all[..|first|] == first;
    RunKeeps(earlier);
    RunKeeps(mid);
    RunKeeps(all);
    hide Kept, Numbered, Do;
    NumberedDenotes(w, a);
    NumberedDenotes(u, b);
    LogGrows(all, |first|);
    OneIdEach(Run(all), id, id', w.mem[a].value, u.mem[b].value);
  }

  lemma NumberedDenotes<T>(w: World<T>, a: nat)
    requires Kept(w) && a in w.mem && w.mem[a].owners > 0
    ensures Denotes(Do(w, NumberIt(a)).log, Numbered(w.table, Arc(a, w.mem[a].value)).1, w.mem[a].value)
  {
    hide Distinct, LoggedOnce;
  }

  lemma OneIdEach<T>(w: World<T>, id: nat, id': nat, v: Tagged<T>, v': Tagged<T>)
    requires Kept(w) && Denotes(w.log, id, v) && Denotes(w.log, id', v')
    ensures id == id' <==> v.0 == v'.0
  {
    hide Agrees, LoggedOnce;
  }

  // The same, without the serial numbers

  function Untagged<T>(a: Arc<Tagged<T>>): Arc<T> {
    Arc(a.addr, a.value.1)
  }

  function Plain<T>(w: Numbering<Tagged<T>>): Numbering<T> {
    Numbering(
      map a | a in w.ids :: (w.ids[a].0, Untagged(w.ids[a].1)),
      w.next,
      seq(|w.pending|, k requires 0 <= k < |w.pending| => (w.pending[k].0, Untagged(w.pending[k].1))))
  }

  /** What every live address holds. */
  function Values<T>(mem: map<nat, Cell<T>>): map<nat, T> {
    map a | a in mem :: mem[a].value.1
  }

  /** At every moment of every run the table is live in memory as it then is, and a pointer
      held outside the table points into it: what numbering a snapshot takes for granted. */
  lemma RunIsLive<T>(steps: seq<Step<T>>)
    ensures var w := Run(steps);
      && Live(Plain(w.table), Values(w.mem))
      && forall a :: a in w.mem && w.mem[a].owners > 0 ==> Points(Untagged(Arc(a, w.mem[a].value)), Values(w.mem))
  {
    RunKeeps(steps);
    KeptIsLive(Run(steps));
  }

  lemma KeptIsLive<T>(w: World<T>)
    requires Kept(w)
    ensures Live(Plain(w.table), Values(w.mem))
  {
    hide Distinct, LoggedOnce;
  }

  /** Numbering, writing and sweeping are the same with and without serial numbers. */
  lemma PlainIsSame<T>(w: Numbering<Tagged<T>>, a: Arc<Tagged<T>>, held: set<nat>)
    ensures var (w', id) := Numbered(w, a);
      Numbered(Plain(w), Untagged(a)) == (Plain(w'), id)
    ensures Plain(PendingTaken(w)) == PendingTaken(Plain(w))
    ensures Plain(Swept(w, held)) == Swept(Plain(w), held)
  {
    var (w', id) := Numbered(w, a);
    var (p, id') := Numbered(Plain(w), Untagged(a));
    assert Plain(w').ids == p.ids;
    assert Plain(w').pending == p.pending;
  }
}
