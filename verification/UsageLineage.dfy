/** Who started whom: a graph with any parents at all, and the trimming of it to what
    recent processes can reach. */
module UsageLineage {
  import opened Basics
  import opened Model

  /** What is remembered of a process, after it has gone too. */
  datatype Seen = Seen(parent: Option<ProcessKey>, lostParent: Option<u32>, program: nat, firstMs: int, lastMs: int)

  type Lineage = map<ProcessKey, Seen>

  /** A parent known by its number only; number zero does not count as one. */
  function LostParent(s: ProcessStatic): Option<u32> {
    if s.parent.Some? || s.parentPid == Some(0) then None else s.parentPid
  }

  /** Note that `p` was in the snapshot at `now`. */
  function See(seen: Lineage, p: ProcessSample, program: nat, now: int): Lineage {
    var s := p.statics.value;
    var known := if p.Key() in seen then seen[p.Key()].(lastMs := now) else Seen(None, None, program, now, now);
    seen[p.Key() := known.(parent := s.parent, lostParent := LostParent(s))]
  }

  function ParentOf(seen: Lineage, k: ProcessKey): Option<ProcessKey> {
    if k in seen then seen[k].parent else None
  }

  /** `path` goes from a process to its parent, to that one's parent and so on, through
      processes that are remembered. */
  predicate Chain(seen: Lineage, path: seq<ProcessKey>) {
    && path != []
    && forall i, j :: 0 <= i < |path| && j == i + 1 < |path| ==> ParentOf(seen, path[i]) == Some(path[j])
  }

  /** `k` is `root`, or an ancestor of it. */
  ghost predicate Ancestor(seen: Lineage, root: ProcessKey, k: ProcessKey) {
    exists path :: Chain(seen, path) && path[0] == root && path[|path| - 1] == k
  }

  predicate Recent(seen: Lineage, k: ProcessKey, horizon: int) {
    k in seen && seen[k].lastMs >= horizon
  }

  /** What the history still needs: the processes seen since `horizon`, and their ancestors. */
  ghost predicate Needed(seen: Lineage, horizon: int, k: ProcessKey) {
    exists root :: Recent(seen, root, horizon) && Ancestor(seen, root, k)
  }

  lemma Itself(seen: Lineage, k: ProcessKey)
    ensures Ancestor(seen, k, k)
  {
    assert Chain(seen, [k]);
  }

  lemma OneFurther(seen: Lineage, root: ProcessKey, k: ProcessKey, p: ProcessKey)
    requires Ancestor(seen, root, k) && ParentOf(seen, k) == Some(p)
    ensures Ancestor(seen, root, p)
  {
    var path :| Chain(seen, path) && path[0] == root && path[|path| - 1] == k;
    assert Chain(seen, path + [p]);
  }

  /** Every member's parent is a member, but perhaps the one still to be looked at. */
  predicate ClosedBut(seen: Lineage, keep: set<ProcessKey>, at: Option<ProcessKey>) {
    forall k :: k in keep && ParentOf(seen, k).Some? ==> ParentOf(seen, k).value in keep || ParentOf(seen, k) == at
  }

  /** A set with a process's every parent in it has its every ancestor. */
  lemma {:induction false} ClosedHolds(seen: Lineage, keep: set<ProcessKey>, path: seq<ProcessKey>)
    requires ClosedBut(seen, keep, None) && Chain(seen, path) && path[0] in keep
    ensures path[|path| - 1] in keep
  {
    if |path| > 1 {
      assert Chain(seen, path[1..]);
      assert ParentOf(seen, path[0]) == Some(path[1]);
      ClosedHolds(seen, keep, path[1..]);
    }
  }

  lemma ClosedHoldsNeeded(seen: Lineage, keep: set<ProcessKey>, horizon: int, k: ProcessKey)
    requires ClosedBut(seen, keep, None) && Needed(seen, horizon, k)
    requires forall root :: Recent(seen, root, horizon) ==> root in keep
    ensures k in keep
  {
    var root :| Recent(seen, root, horizon) && Ancestor(seen, root, k);
    var path :| Chain(seen, path) && path[0] == root && path[|path| - 1] == k;
    ClosedHolds(seen, keep, path);
  }

  /** Everything a set can grow to while walking up. */
  function Universe(seen: Lineage): set<ProcessKey> {
    seen.Keys + (set k | k in seen && seen[k].parent.Some? :: seen[k].parent.value)
  }

  /** Adds `key` and all it reaches to `keep`, given that `keep` is closed under parents. */
  method WalkUp(seen: Lineage, keep: set<ProcessKey>, key: ProcessKey) returns (more: set<ProcessKey>)
    requires key in seen && ClosedBut(seen, keep, None)
    ensures ClosedBut(seen, more, None) && keep + {key} <= more
    ensures forall k :: k in more ==> k in keep || Ancestor(seen, key, k)
  {
    more := keep;
    var at := Some(key);
    Itself(seen, key);
    while at.Some? && at.value !in more
      invariant ClosedBut(seen, more, at) && keep <= more
      invariant key in more || at == Some(key)
      invariant at.Some? ==> Ancestor(seen, key, at.value) && at.value in Universe(seen)
      invariant forall k :: k in more ==> k in keep || Ancestor(seen, key, k)
      decreases |Universe(seen) - more|
    {
      var k := at.value;
      var was := more;
      more := more + {k};
      at := ParentOf(seen, k);
      Fewer(Universe(seen), was, k);
      if at.Some? {
        OneFurther(seen, key, k, at.value);
      }
    }
  }

  lemma Fewer<T>(all: set<T>, taken: set<T>, k: T)
    requires k in all && k !in taken
    ensures |all - (taken + {k})| < |all - taken|
  {
    assert all - taken == (all - (taken + {k})) + {k};
  }

  /** What trimming leaves of `seen`. */
  ghost predicate Trimmed(seen: Lineage, horizon: int, left: Lineage) {
    && (forall k :: k in left <==> k in seen && Needed(seen, horizon, k))
    && (forall k :: k in left ==> left[k] == seen[k])
  }

  /** `left` is `seen` restricted to what can be reached from a process seen at `horizon` or
      later; parents may form cycles. */
  method TrimLineage(seen: Lineage, horizon: int) returns (left: Lineage)
    ensures Trimmed(seen, horizon, left)
  {
    var keep: set<ProcessKey> := {};
    var todo := seen.Keys;
    while todo != {}
      invariant todo <= seen.Keys && ClosedBut(seen, keep, None)
      invariant forall k :: Recent(seen, k, horizon) && k !in todo ==> k in keep
      invariant forall k :: k in keep ==> Needed(seen, horizon, k)
      decreases todo
    {
      var key :| key in todo;
      todo := todo - {key};
      if seen[key].lastMs >= horizon {
        keep := WalkUp(seen, keep, key);
      }
    }
    forall k | Needed(seen, horizon, k)
      ensures k in keep
    {
      ClosedHoldsNeeded(seen, keep, horizon, k);
    }
    left := map k | k in seen && k in keep :: seen[k];
  }

  /** No chain is cut short: from a process that is left, the same ancestors are left. */
  lemma {:induction false} ChainsStay(seen: Lineage, horizon: int, left: Lineage, path: seq<ProcessKey>)
    requires Trimmed(seen, horizon, left) && Chain(seen, path) && path[0] in left
    ensures Chain(left, path)
    ensures path[|path| - 1] in seen ==> path[|path| - 1] in left
  {
    if |path| > 1 {
      var root :| Recent(seen, root, horizon) && Ancestor(seen, root, path[0]);
      assert ParentOf(seen, path[0]) == Some(path[1]);
      OneFurther(seen, root, path[0], path[1]);
      assert Chain(seen, path[1..]) by {
        forall i, j | 0 <= i < |path[1..]| && j == i + 1 < |path[1..]|
          ensures ParentOf(seen, path[1..][i]) == Some(path[1..][j])
        {
          assert path[1..][i] == path[i + 1] && path[1..][j] == path[j + 1];
        }
      }
      assert |path| > 2 ==> ParentOf(seen, path[1]) == Some(path[2]);
      if path[1] in seen {
        assert Needed(seen, horizon, path[1]);
        ChainsStay(seen, horizon, left, path[1..]);
        LongerChain(left, path);
      }
    }
  }

  lemma LongerChain(left: Lineage, path: seq<ProcessKey>)
    requires |path| > 1 && ParentOf(left, path[0]) == Some(path[1]) && Chain(left, path[1..])
    ensures Chain(left, path)
  {
    forall i, j | 0 <= i < |path| && j == i + 1 < |path|
      ensures ParentOf(left, path[i]) == Some(path[j])
    {
      if i > 0 {
        assert path[1..][i - 1] == path[i] && path[1..][j - 1] == path[j];
      }
    }
  }

  lemma StillNeeded(seen: Lineage, horizon: int, left: Lineage, k: ProcessKey)
    requires Trimmed(seen, horizon, left) && k in left
    ensures Needed(left, horizon, k)
  {
    var root :| Recent(seen, root, horizon) && Ancestor(seen, root, k);
    var path :| Chain(seen, path) && path[0] == root && path[|path| - 1] == k;
    Itself(seen, root);
    hide Chain;
    assert Needed(seen, horizon, root);
    ChainsStay(seen, horizon, left, path);
    assert Ancestor(left, root, k);
    assert Recent(left, root, horizon);
  }

  /** Trimming again forgets nothing more. */
  lemma TrimmedTwice(seen: Lineage, horizon: int, left: Lineage, again: Lineage)
    requires Trimmed(seen, horizon, left) && Trimmed(left, horizon, again)
    ensures again == left
  {
    hide Needed;
    forall k | k in left
      ensures Needed(left, horizon, k)
    {
      StillNeeded(seen, horizon, left, k);
    }
    assert forall k :: k in left <==> k in again;
    assert forall k :: k in left ==> again[k] == left[k];
  }
}
