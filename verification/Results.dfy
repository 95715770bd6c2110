/** The two ways a call comes back, and Go's 64-bit integers. */
module Results {

  datatype Option<+T> = None | Some(value: T)

  datatype Result<+T, +E> = Ok(value: T) | Err(error: E)

  const MAX_INT64 := 0x7FFF_FFFF_FFFF_FFFF
  const MIN_INT64 := -0x8000_0000_0000_0000
  const TWO_TO_64 := 0x1_0000_0000_0000_0000

  /** The values Go's `int` and `int64` hold. */
  predicate IsInt64(x: int) { MIN_INT64 <= x <= MAX_INT64 }

  /** What an arithmetic result becomes when it is stored in 64 bits. */
  function Wrap(x: int): (r: int)
    ensures IsInt64(r) && (IsInt64(x) ==> r == x)
    decreases if x > MAX_INT64 then x - MAX_INT64 else if x < MIN_INT64 then MIN_INT64 - x else 0
  {
    if x > MAX_INT64 then Wrap(x - TWO_TO_64)
    else if x < MIN_INT64 then Wrap(x + TWO_TO_64)
    else x
  }

  /** Only whole multiples of 2^64 are lost. */
  lemma {:induction false} WrapLoses(x: int) returns (k: int)
    ensures Wrap(x) == x + k * TWO_TO_64
    decreases if x > MAX_INT64 then x - MAX_INT64 else if x < MIN_INT64 then MIN_INT64 - x else 0
  {
    if x > MAX_INT64 {
      k := WrapLoses(x - TWO_TO_64);
      k := k - 1;
    } else if x < MIN_INT64 {
      k := WrapLoses(x + TWO_TO_64);
      k := k + 1;
    } else {
      k := 0;
    }
  }

  lemma {:induction false} WrapPeriodic(x: int, k: int)
    ensures Wrap(x + k * TWO_TO_64) == Wrap(x)
    decreases if k < 0 then -k else k
  {
    if k > 0 {
      WrapPeriodic(x, k - 1);
      WrapOnce(x + (k - 1) * TWO_TO_64);
    } else if k < 0 {
      WrapPeriodic(x, k + 1);
      WrapOnce(x + k * TWO_TO_64);
    }
  }

  lemma {:induction false} WrapOnce(x: int)
    ensures Wrap(x + TWO_TO_64) == Wrap(x)
  {
  }

  lemma {:induction false} WrapAdd(x: int, y: int)
    ensures Wrap(Wrap(x) + y) == Wrap(x + y)
  {
    var k := WrapLoses(x);
    WrapPeriodic(x + y, k);
  }

  /** A prefix grows by the next element. */
  lemma {:induction false} TakeNext<T>(xs: seq<T>, i: nat)
    requires i < |xs|
    ensures xs[..i + 1] == xs[..i] + [xs[i]]
  {
  }

  lemma {:induction false} TakeAll<T>(xs: seq<T>)
    ensures xs[..|xs|] == xs
  {
  }
}
