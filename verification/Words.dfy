/** Words of 64 bits as numbers, and what shifting, complementing and or-ing them does
    to their bits. */
module Words {
  import opened Basics

  const WORD: nat := 64

  function Pow2(n: nat): (p: nat)
    ensures p > 0
  {
    if n == 0 then 1 else 2 * Pow2(n - 1)
  }

  /** `w` with the low `k` bits shifted out. */
  function Shr(w: nat, k: nat): nat {
    if k == 0 then w else Shr(w, k - 1) / 2
  }

  /** `w` moved up by `k` bits. */
  function Shl(w: nat, k: nat): nat {
    if k == 0 then w else 2 * Shl(w, k - 1)
  }

  predicate Bit(w: nat, k: nat) {
    Shr(w, k) % 2 == 1
  }

  /** Every bit of `n` flipped. */
  function Not(w: nat, n: nat): nat
    requires w < Pow2(n)
  {
    Pow2(n) - 1 - w
  }

  function Or(a: nat, b: nat): nat {
    if a == 0 && b == 0 then 0 else 2 * Or(a / 2, b / 2) + Max(a % 2, b % 2)
  }

  /** How many clear bits there are below the lowest set one; `n` if none is set. */
  function TrailingZeros(w: nat, n: nat): nat
    requires w < Pow2(n)
    decreases n
  {
    if n == 0 || w % 2 == 1 then 0 else 1 + TrailingZeros(w / 2, n - 1)
  }

  lemma {:induction false} ShrAgain(w: nat, j: nat, k: nat)
    ensures Shr(Shr(w, j), k) == Shr(w, j + k)
  {
    if k > 0 {
      ShrAgain(w, j, k - 1);
    }
  }

  lemma {:induction false} ShrHalf(w: nat, k: nat)
    ensures Shr(w / 2, k) == Shr(w, k + 1)
  {
    if k > 0 {
      ShrHalf(w, k - 1);
    }
  }

  /** Shifted right, a word's bits are those further up. */
  lemma BitOfShr(w: nat, j: nat, k: nat)
    ensures Bit(Shr(w, j), k) == Bit(w, j + k)
  {
    ShrAgain(w, j, k);
  }

  lemma BitOfHalf(w: nat, k: nat)
    ensures Bit(w / 2, k) == Bit(w, k + 1)
  {
    ShrHalf(w, k);
  }

  lemma {:induction false} ShrBelow(w: nat, k: nat, n: nat)
    requires w < Pow2(n) && k <= n
    ensures Shr(w, k) < Pow2(n - k)
  {
    if k > 0 {
      ShrBelow(w, k - 1, n);
    }
  }

  /** There are no bits past a word's end. */
  lemma NoBitsAbove(w: nat, k: nat, n: nat)
    requires w < Pow2(n) && k >= n
    ensures !Bit(w, k)
  {
    ShrBelow(w, n, n);
    ShrAgain(w, n, k - n);
    ShrZero(k - n);
  }

  lemma {:induction false} ShrZero(k: nat)
    ensures Shr(0, k) == 0
  {
    if k > 0 {
      ShrZero(k - 1);
    }
  }

  /** A word is zero if and only if no bit of it is set. */
  lemma {:induction false} ZeroBits(w: nat, n: nat)
    requires w < Pow2(n)
    ensures w == 0 <==> forall k: nat :: k < n ==> !Bit(w, k)
    decreases n
  {
    if n > 0 {
      ZeroBits(w / 2, n - 1);
      if w == 0 {
        forall k: nat | k < n
          ensures !Bit(w, k)
        {
          ShrZero(k);
        }
      } else if w % 2 == 1 {
        assert Bit(w, 0);
      } else {
        var k: nat :| k < n - 1 && Bit(w / 2, k);
        BitOfHalf(w, k);
      }
    }
  }

  /** Flipping flips. */
  lemma {:induction false} BitOfNot(w: nat, k: nat, n: nat)
    requires w < Pow2(n) && k < n
    ensures Bit(Not(w, n), k) != Bit(w, k)
    decreases n
  {
    if k > 0 {
      BitOfNot(w / 2, k - 1, n - 1);
      BitOfHalf(w, k - 1);
      BitOfHalf(Not(w, n), k - 1);
      assert Not(w, n) / 2 == Not(w / 2, n - 1);
    }
  }

  lemma {:induction false} BitOfOr(a: nat, b: nat, k: nat)
    ensures Bit(Or(a, b), k) <==> Bit(a, k) || Bit(b, k)
    decreases k
  {
    var o := Or(a, b);
    assert o / 2 == Or(a / 2, b / 2) && o % 2 == Max(a % 2, b % 2);
    if k > 0 {
      BitOfOr(a / 2, b / 2, k - 1);
      BitOfHalf(a, k - 1);
      BitOfHalf(b, k - 1);
      BitOfHalf(o, k - 1);
    }
  }

  lemma {:induction false} OrBelow(a: nat, b: nat, n: nat)
    requires a < Pow2(n) && b < Pow2(n)
    ensures Or(a, b) < Pow2(n)
    decreases n
  {
    if n > 0 {
      OrBelow(a / 2, b / 2, n - 1);
    }
  }

  lemma {:induction false} BitOfShl(w: nat, s: nat, k: nat)
    ensures Bit(Shl(w, s), k) <==> k >= s && Bit(w, k - s)
    decreases s
  {
    if s > 0 {
      if k > 0 {
        BitOfShl(w, s - 1, k - 1);
        BitOfHalf(Shl(w, s), k - 1);
      }
    }
  }

  lemma {:induction false} ShlBelow(w: nat, s: nat, m: nat, n: nat)
    requires w < Pow2(m) && m + s <= n
    ensures Shl(w, s) < Pow2(n)
    decreases n
  {
    if s > 0 {
      ShlBelow(w, s - 1, m, n - 1);
    } else if m < n {
      ShlBelow(w, s, m, n - 1);
    }
  }

  /** The lowest set bit, and that those below it are clear. */
  lemma {:induction false} TrailingZerosIs(w: nat, n: nat)
    requires w < Pow2(n)
    ensures TrailingZeros(w, n) <= n
    ensures TrailingZeros(w, n) < n <==> w != 0
    ensures w != 0 ==> Bit(w, TrailingZeros(w, n))
    ensures forall k: nat :: k < TrailingZeros(w, n) ==> !Bit(w, k)
    decreases n
  {
    if n > 0 && w % 2 == 0 {
      TrailingZerosIs(w / 2, n - 1);
      if w != 0 {
        BitOfHalf(w, TrailingZeros(w / 2, n - 1));
      }
      forall k: nat | k < TrailingZeros(w, n)
        ensures !Bit(w, k)
      {
        if k > 0 {
          BitOfHalf(w, k - 1);
        }
      }
    }
  }
}
