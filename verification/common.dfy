/** Shared vocabulary of the codec model: the option type used for
    error paths, powers of two, the C++ `Clip3` helper and the small
    enumerations (colour components, chroma formats, picture types)
    that several components use. */
module Common {

  /** Failure-compatible option: `None` is the failure case, so `:-`
      propagates it through a chain of reads. */
  datatype Option<+T> = None | Some(value: T) {
    predicate IsFailure() {
      None?
    }

    function PropagateFailure<U>(): Option<U>
      requires None?
    {
      None
    }

    function Extract(): T
      requires Some?
    {
      value
    }
  }

  function Pow2(n: nat): (r: nat)
    ensures r >= 1
  {
    if n == 0 then 1 else 2 * Pow2(n - 1)
  }

  lemma {:induction false} Pow2Monotone(m: nat, n: nat)
    requires m <= n
    ensures Pow2(m) <= Pow2(n)
    decreases n
  {
    if m < n {
      Pow2Monotone(m, n - 1);
    }
  }

  /** Floor of the base-2 logarithm. */
  function Log2(n: nat): (r: nat)
    requires n >= 1
    ensures Pow2(r) <= n < 2 * Pow2(r)
  {
    if n == 1 then 0 else 1 + Log2(n / 2)
  }

  lemma Log2AtLeastTwo(n: nat)
    requires n >= 4
    ensures Log2(n) >= 2
  {
    assert Log2(n) == 1 + Log2(n / 2);
    assert Log2(n / 2) == 1 + Log2(n / 4);
  }

  lemma Log2Below(n: nat, k: nat)
    requires 1 <= n < Pow2(k)
    ensures Log2(n) < k
  {
    if Log2(n) >= k {
      Pow2Monotone(k, Log2(n));
    }
  }

  /** C++ `x >> n` on a signed int: an arithmetic shift, i.e. division
      rounding toward minus infinity (Dafny's `/` by a positive divisor). */
  function Shr(x: int, n: nat): (r: int)
    ensures x >= 0 ==> 0 <= r <= x
  {
    DivNonNegative(x, Pow2(n));
    x / Pow2(n)
  }

  lemma DivNonNegative(a: int, d: int)
    requires d >= 1
    ensures a >= 0 ==> 0 <= a / d <= a
  {
  }

  /** `util::Clip3(value, lo, hi)` with the source's argument order. */
  function Clip3(value: int, lo: int, hi: int): (r: int)
    requires lo <= hi
    ensures lo <= r <= hi
    ensures lo <= value <= hi ==> r == value
    ensures value < lo ==> r == lo
    ensures value > hi ==> r == hi
  {
    if value < lo then lo else if value > hi then hi else value
  }

  const Int16Min: int := -32768
  const Int16Max: int := 32767

  /** `YuvComponent`: luma and the two chroma planes. */
  datatype YuvComponent = Y | U | V {
    predicate IsLuma() {
      Y?
    }

    function Index(): nat {
      match this
      case Y => 0
      case U => 1
      case V => 2
    }
  }

  datatype ChromaFormat = Monochrome | C420 | C422 | C444

  /** `PicturePredictionType`; its integer value selects the row of every
      CABAC initialisation table, with the intra row last. */
  datatype PicturePredictionType = Bi | Uni | Intra {
    function Row(): (r: nat)
      ensures r < 3
    {
      match this
      case Bi => 0
      case Uni => 1
      case Intra => 2
    }
  }
}
