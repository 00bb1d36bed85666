/** Small vocabulary shared by every module: optional values, results, and the
    fixed-width integers of the original, whose wrap-around is written out where
    it matters. */
module Basics {
  datatype Option<+T> = None | Some(value: T)

  /** What an operation on a recording reports when it does not succeed. */
  datatype Error =
    | NotARecording
    | UnsupportedVersion(version: nat)
    | Corrupt
    | Encoding
    | Io
    | OutOfRange(index: nat, len: nat)
    | Finished

  datatype Result<+T> = Ok(value: T) | Err(error: Error) {
    predicate IsFailure() {
      Err?
    }

    function PropagateFailure<U>(): Result<U>
      requires Err?
    {
      Err(error)
    }

    function Extract(): T
      requires Ok?
    {
      value
    }
  }

  const TWO_31: int := 0x8000_0000
  const TWO_32: int := 0x1_0000_0000
  const TWO_63: int := 0x8000_0000_0000_0000
  const TWO_64: int := 0x1_0000_0000_0000_0000

  type u8 = x: int | 0 <= x < 0x100
  type u32 = x: int | 0 <= x < 0x1_0000_0000
  type u64 = x: int | 0 <= x < 0x1_0000_0000_0000_0000
  type i32 = x: int | -0x8000_0000 <= x < 0x8000_0000
  type i64 = x: int | -0x8000_0000_0000_0000 <= x < 0x8000_0000_0000_0000

  function Min(a: int, b: int): int {
    if a <= b then a else b
  }

  function Max(a: int, b: int): int {
    if a <= b then b else a
  }

  function MinR(a: real, b: real): real {
    if a <= b then a else b
  }

  function MaxR(a: real, b: real): real {
    if a <= b then b else a
  }

  /** The least whole number no smaller than `x`. */
  function Ceil(x: real): int {
    -(-x).Floor
  }

  /** Later falls in no earlier of the steps of width `w`. */
  lemma Monotone(a: int, b: int, w: int)
    requires w > 0 && a <= b
    ensures a / w <= b / w
  {
    var x, y := a / w, b / w;
    assert x * w <= a && b < y * w + w;
    if x > y {
      Multiples(y + 1, x, w);
    }
  }

  lemma Multiples(a: int, b: int, w: int)
    requires a <= b && w > 0
    ensures a * w <= b * w
  {
  }

  lemma Remainder(n: nat, every: nat, q: nat, r: nat)
    requires every >= 1 && n == q * every + r && r < every
    ensures n % every == r
  {
    var q', r' := n / every, n % every;
    assert n == q' * every + r';
    if q < q' {
      Multiples(q + 1, q', every);
    } else if q' < q {
      Multiples(q' + 1, q, every);
    }
  }
}
