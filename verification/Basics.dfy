/** Status codes, sectors and the integer facts every other module needs. */
module Basics {

  /** The error codes the modelled functions return; `Success` is 0 in the source. */
  datatype Status = Success | EInval | ENoData | EIO | EFault | EAlready | EAcces

  datatype Option<+T> = None | Some(value: T)

  /** A 512-byte sector is a value; 0 stands for the sector of zeros. */
  type Sector = int

  newtype byte = x: int | 0 <= x < 256

  function Quot(x: nat, d: nat): nat
    requires d > 0
  {
    x / d
  }

  function Rem(x: nat, d: nat): nat
    requires d > 0
  {
    x % d
  }

  function Min(a: nat, b: nat): nat {
    if a <= b then a else b
  }

  lemma MulMonotone(x: nat, y: nat, d: nat)
    requires x <= y
    ensures x * d <= y * d
  {
  }

  lemma MulCancelLess(x: nat, y: nat, d: nat)
    requires x * d < y * d
    ensures x < y
  {
  }

  lemma DivBounds(x: nat, d: nat)
    requires d > 0
    ensures (x / d) * d <= x < (x / d + 1) * d
    ensures x == (x / d) * d + x % d
  {
  }

  /** `x / d` is the only `q` with `q * d <= x < (q + 1) * d`. */
  lemma DivUnique(x: nat, q: nat, d: nat)
    requires d > 0 && q * d <= x < (q + 1) * d
    ensures x / d == q && x % d == x - q * d
  {
    DivBounds(x, d);
    MulCancelLess(q, x / d + 1, d);
    MulCancelLess(x / d, q + 1, d);
  }

  lemma DivModUnique(q: nat, r: nat, d: nat)
    requires r < d
    ensures (q * d + r) / d == q && (q * d + r) % d == r
  {
    assert (q + 1) * d == q * d + d;
    DivUnique(q * d + r, q, d);
  }

  lemma QuotientOrder(a: nat, b: nat, x: nat, y: nat, d: nat)
    requires a * d <= x <= y < (b + 1) * d
    ensures a <= b
  {
  }

  lemma DivMonotone(x: nat, y: nat, d: nat)
    requires d > 0 && x <= y
    ensures x / d <= y / d
  {
    var a, b := x / d, y / d;
    assert a * d <= x by { DivBounds(x, d); }
    assert y < (b + 1) * d by { DivBounds(y, d); }
    QuotientOrder(a, b, x, y, d);
  }

  lemma AppendAssociates<T>(a: seq<T>, b: seq<T>, c: seq<T>)
    ensures a + b + c == a + (b + c)
  {
  }
}
