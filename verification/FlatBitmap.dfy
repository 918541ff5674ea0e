/**
 * The flat bitmap the sparse one replaces: bits in a page array (`page_array_bit_get`,
 * `page_array_bit_set`) and its conversion to ranges (`page_array_convert2rangelist`).
 */
module FlatBitmap {
  import opened Basics
  import opened Ranges
  import opened RunScan
  import opened PageArrays

  const BITS: nat := 8 // BITS_PER_BYTE

  /** The values `1 << k`. */
  const MASKS: seq<bv8> := [1, 2, 4, 8, 16, 32, 64, 128]

  function Mask(k: nat): bv8
    requires k < BITS
  {
    MASKS[k]
  }

  function BitOf(v: bv8, k: nat): bool
    requires k < BITS
  {
    v & Mask(k) != 0
  }

  /** `b` is `v` with bit `k` set to `value`. */
  ghost predicate BitBecomes(v: bv8, k: nat, value: bool, b: bv8)
    requires k < BITS
  {
    forall j | 0 <= j < BITS :: BitOf(b, j) == if j == k then value else BitOf(v, j)
  }

  lemma MasksApart(k: nat, j: nat)
    requires k < BITS && j < BITS
    ensures Mask(j) != 0 && (k != j ==> Mask(k) & Mask(j) == 0 && Mask(k) != Mask(j))
  {
  }

  lemma OrMask(v: bv8, m: bv8, n: bv8)
    requires n != 0 && (m == n || m & n == 0)
    ensures ((v | m) & n != 0) == (m == n || v & n != 0)
    ensures ((v & !m) & n != 0) == (m != n && v & n != 0)
  {
  }

  lemma MaskedBit(v: bv8, k: nat, j: nat)
    requires k < BITS && j < BITS
    ensures BitOf(v | Mask(k), j) == (j == k || BitOf(v, j))
    ensures BitOf(v & !Mask(k), j) == (j != k && BitOf(v, j))
  {
    MasksApart(k, j);
    OrMask(v, Mask(k), Mask(j));
  }

  lemma BitSetByMask(v: bv8, k: nat, b: bv8, c: bv8)
    requires k < BITS && b == v | Mask(k) && c == v & !Mask(k)
    ensures BitBecomes(v, k, true, b) && BitBecomes(v, k, false, c)
  {
    forall j | 0 <= j < BITS
      ensures BitOf(b, j) == (j == k || BitOf(v, j)) && BitOf(c, j) == (j != k && BitOf(v, j))
    {
      MaskedBit(v, k, j);
    }
  }

  /** All bits, least significant first within a byte. */
  function BitsOf(bytes: seq<bv8>): (bits: seq<bool>)
    ensures |bits| == BITS * |bytes|
  {
    if bytes == [] then [] else BitsOf(bytes[..|bytes| - 1]) + ByteBits(bytes[|bytes| - 1])
  }

  function ByteBits(v: bv8): (bits: seq<bool>)
    ensures |bits| == BITS
  {
    seq(BITS, k requires 0 <= k < BITS => BitOf(v, k))
  }

  lemma {:induction false} BitsOfAt(bytes: seq<bv8>, i: nat)
    requires i < BITS * |bytes|
    ensures BitsOf(bytes)[i] == ByteBits(bytes[i / BITS])[i % BITS]
    decreases |bytes|
  {
    var n := |bytes| - 1;
    if i < BITS * n {
      BitsOfAt(bytes[..n], i);
    }
  }

  /** Changing a bit of a byte changes that bit of the flat bitmap. */
  lemma ByteChanged(bytes: seq<bv8>, inx: nat, value: bool, b: bv8)
    requires inx < BITS * |bytes|
    requires ByteBits(b) == ByteBits(bytes[inx / BITS])[inx % BITS := value]
    ensures BitsOf(bytes[inx / BITS := b]) == BitsOf(bytes)[inx := value]
  {
    var changed, want := BitsOf(bytes[inx / BITS := b]), BitsOf(bytes)[inx := value];
    forall i | 0 <= i < |want|
      ensures changed[i] == want[i]
    {
      BitsOfAt(bytes, i);
      BitsOfAt(bytes[inx / BITS := b], i);
    }
  }

  lemma ByteBitsBecome(v: bv8, k: nat, value: bool, b: bv8)
    requires k < BITS && BitBecomes(v, k, value, b)
    ensures ByteBits(b) == ByteBits(v)[k := value]
  {
  }

  method BitGet(arr: PageArray<bv8>, inx: nat) returns (res: Status, value: bool)
    requires arr.Valid()
    ensures res == if inx < BITS * arr.Size() then Success else ENoData
    ensures res == Success ==> value == BitsOf(arr.Flat())[inx]
  {
    var v;
    res, v := arr.Get(inx / BITS, 0);
    value := BitOf(v, inx % BITS);
    if res == Success {
      BitsOfAt(arr.Flat(), inx);
    }
  }

  /** The new byte: `v | mask` or `v & ~mask`. */
  method Masked(v: bv8, k: nat, value: bool) returns (b: bv8)
    requires k < BITS
    ensures ByteBits(b) == ByteBits(v)[k := value]
  {
    if value {
      b := v | Mask(k);
      BitSetByMask(v, k, b, v & !Mask(k));
    } else {
      b := v & !Mask(k);
      BitSetByMask(v, k, v | Mask(k), b);
    }
    ByteBitsBecome(v, k, value, b);
  }

  /** Setting a bit to the value it has is an error of its own. */
  method BitSet(arr: PageArray<bv8>, inx: nat, value: bool) returns (res: Status)
    requires arr.Valid()
    modifies arr.pages
    ensures res == if inx >= BITS * arr.Size() then ENoData
                   else if old(BitsOf(arr.Flat()))[inx] == value then EAlready else Success
    ensures inx < BITS * arr.Size() ==> BitsOf(arr.Flat()) == old(BitsOf(arr.Flat()))[inx := value]
    ensures inx >= BITS * arr.Size() ==> arr.Flat() == old(arr.Flat())
  {
    var v;
    res, v := arr.Get(inx / BITS, 0);
    if res != Success {
      return;
    }
    BitsOfAt(arr.Flat(), inx);
    if BitOf(v, inx % BITS) == value {
      assert BitsOf(arr.Flat())[inx := value] == BitsOf(arr.Flat());
      return EAlready;
    }
    var b := Masked(v, inx % BITS, value);
    ByteChanged(arr.Flat(), inx, value, b);
    res := arr.Set(inx / BITS, b);
  }

  /** The ranges of set bits among the first `length`; the list is complete when all of them exist. */
  method ConvertToRangeList(changes: PageArray<bv8>, start: nat, length: nat) returns (res: Status, list: seq<Range>)
    requires changes.Valid()
    ensures res == if length <= BITS * changes.Size() then Success else ENoData
    ensures res == Success ==> list == RunsOf(BitsOf(changes.Flat())[..length], start)
  {
    list := [];
    var ofs: nat, cnt: nat := 0, 0;
    var index := 0;
    ghost var bits := BitsOf(changes.Flat());
    ghost var s0 := Scan(start, NO_RANGE, []);
    while index < length
      invariant 0 <= index <= length && index <= |bits|
      invariant ScanAll(s0, bits[..index]) == Scan(start + index, if cnt == 0 then NO_RANGE else Range(ofs, cnt), list)
    {
      var bit;
      res, bit := BitGet(changes, index);
      if res != Success {
        return;
      }
      assert bits[..index + 1] == bits[..index] + [bits[index]];
      ScanSnoc(s0, bits[..index], bits[index]);
      if bit {
        if cnt == 0 {
          ofs := start + index;
        }
        cnt := cnt + 1;
      } else if cnt != 0 {
        list := list + [Range(ofs, cnt)];
        cnt := 0;
      }
      index := index + 1;
    }
    res := Success;
    if cnt != 0 {
      list := list + [Range(ofs, cnt)];
    }
  }
}
