/** Rings: the newest elements of an endless sequence, as many as a capacity allows. */
module Ring {
  import opened Basics

  /** The newest `cap` of `s`, or all of it. */
  function Newest<T>(s: seq<T>, cap: nat): (r: seq<T>)
    ensures |r| == Min(|s|, cap)
    ensures forall i :: 0 <= i < |r| ==> r[i] == s[|s| - |r| + i]
  {
    if |s| <= cap then s else s[|s| - cap..]
  }

  class Ring<T> {
    var buf: seq<T>
    var cap: nat

    predicate Valid()
      reads this
    {
      1 <= cap && |buf| <= cap
    }

    /** Holds at most `cap` elements; zero is taken as one. */
    constructor (cap: nat)
      ensures Valid() && buf == [] && this.cap == Max(cap, 1)
    {
      buf, this.cap := [], Max(cap, 1);
    }

    /** Append, dropping the oldest element if full. */
    method Push(value: T)
      requires Valid()
      modifies this`buf
      ensures Valid() && buf == Newest(old(buf) + [value], cap)
    {
      if |buf| == cap {
        buf := buf[1..];
      }
      buf := buf + [value];
    }

    /** From here on `cap` is the new capacity; what exceeds it goes from the old end. */
    method SetCapacity(cap: nat)
      requires Valid()
      modifies this
      ensures Valid() && this.cap == Max(cap, 1) && buf == Newest(old(buf), this.cap)
    {
      var n := Max(cap, 1);
      while |buf| > n
        invariant |buf| <= |old(buf)| && buf == old(buf)[|old(buf)| - |buf|..]
        invariant |old(buf)| > n ==> |buf| >= n
        invariant |old(buf)| <= n ==> buf == old(buf)
        decreases |buf|
      {
        buf := buf[1..];
      }
      this.cap := n;
    }
  }
}
