/**
 * The changed-block map (`cbt_map.c`): one byte per tracking block, holding the number of the
 * snapshot epoch in which the block last changed.  The functions on `Cbt` say what each operation
 * does; the class does it byte by byte on page arrays.
 */
module CbtMap {
  import opened Basics
  import opened PageArrays

  const TWO64: nat := 0x1_0000_0000_0000_0000
  const PAGE: nat := 4096
  const MAX_BLOCKS: nat := 268435456 // 256 * 1024 * 1024
  const EPOCHS: nat := 255           // numbers 1..255 fit into a byte

  type Uuid = nat

  datatype Cbt = Cbt(
    degree: nat,      // sectors in a block: 2^degree
    capacity: nat,
    size: nat,        // blocks
    read: seq<nat>,
    write: seq<nat>,
    active: nat,      // snap_number_active
    previous: nat,    // snap_number_previous
    genActive: Uuid,
    genPrevious: Uuid)

  function Pow2(n: nat): (p: nat)
    ensures p > 0
  {
    if n == 0 then 1 else 2 * Pow2(n - 1)
  }

  // ---- sizing ----

  /** `count_by_shift`: blocks needed, rounded up. */
  function CountByShift(capacity: nat, shift: nat): nat {
    Quot(capacity + Pow2(shift) - 1, Pow2(shift))
  }

  /** The least shift not below the requested one that keeps the map within its maximum. */
  ghost predicate BestShift(shift: nat, requested: nat, capacity: nat) {
    && shift >= requested && CountByShift(capacity, shift) <= MAX_BLOCKS
    && forall s | requested <= s < shift :: CountByShift(capacity, s) > MAX_BLOCKS
  }

  lemma {:induction false} Pow2Exceeds(n: nat)
    ensures Pow2(n) > n
  {
    if n > 0 {
      Pow2Exceeds(n - 1);
    }
  }

  lemma CountSmall(capacity: nat, shift: nat)
    requires Pow2(shift) >= capacity
    ensures CountByShift(capacity, shift) <= 1
  {
    var d := Pow2(shift);
    DivBounds(capacity + d - 1, d);
    MulCancelLess(CountByShift(capacity, shift), 2, d);
  }

  /** `cbt_map_check_size`. */
  method CheckSize(requested: nat, capacity: nat) returns (shift: nat)
    ensures BestShift(shift, requested, capacity)
  {
    shift := requested;
    var count := CountByShift(capacity, shift);
    while count > MAX_BLOCKS
      invariant shift >= requested && count == CountByShift(capacity, shift)
      invariant forall s | requested <= s < shift :: CountByShift(capacity, s) > MAX_BLOCKS
      decreases capacity - shift
    {
      Pow2Exceeds(shift);
      if Pow2(shift) >= capacity {
        CountSmall(capacity, shift);
      }
      shift := shift + 1;
      count := CountByShift(capacity, shift);
    }
  }

  /** The block of a sector. */
  function BlockOf(degree: nat, sector: nat): nat {
    Quot(sector, Pow2(degree))
  }

  /** Every sector of the device has a block in the map. */
  lemma SectorInMap(degree: nat, capacity: nat, sector: nat)
    requires sector < capacity
    ensures BlockOf(degree, sector) < CountByShift(capacity, degree)
  {
    var d := Pow2(degree);
    var q := BlockOf(degree, sector);
    assert q * d <= sector by { DivBounds(sector, d); }
    assert (q + 1) * d == q * d + d;
    var n := capacity + d - 1;
    assert n < (n / d + 1) * d by { DivBounds(n, d); }
    MulCancelLess(q + 1, n / d + 1, d);
  }

  // ---- operations ----

  /** Every entry of blocks `[first, end)` becomes at least `num`. */
  function Raised(marks: seq<nat>, first: nat, end: nat, num: nat): (r: seq<nat>)
    ensures |r| == |marks|
  {
    seq(|marks|, b requires 0 <= b < |marks| => if first <= b < end && marks[b] < num then num else marks[b])
  }

  /** The last block of a range; sector arithmetic wraps at 64 bits. */
  function LastBlock(degree: nat, start: nat, cnt: nat): nat {
    BlockOf(degree, (start + cnt + TWO64 - 1) % TWO64)
  }

  /** A walk past the end of the map fails there; the blocks before it stay marked. */
  function MarkStatus(c: Cbt, start: nat, cnt: nat): Status {
    if BlockOf(c.degree, start) <= LastBlock(c.degree, start, cnt) && LastBlock(c.degree, start, cnt) >= c.size
    then EInval else Success
  }

  function MarkMap(c: Cbt, marks: seq<nat>, start: nat, cnt: nat, num: nat): seq<nat> {
    Raised(marks, BlockOf(c.degree, start), LastBlock(c.degree, start, cnt) + 1, num)
  }

  /** `cbt_map_set`. */
  function Mark(c: Cbt, start: nat, cnt: nat): (Cbt, Status) {
    (c.(write := MarkMap(c, c.write, start, cnt, c.active)), MarkStatus(c, start, cnt))
  }

  /** `cbt_map_set_both`. */
  function MarkBoth(c: Cbt, start: nat, cnt: nat): (Cbt, Status) {
    var (c1, st) := Mark(c, start, cnt);
    if st != Success then (c1, st)
    else (c1.(read := MarkMap(c, c.read, start, cnt, c.previous)), MarkStatus(c, start, cnt))
  }

  /** `cbt_map_switch`; `newGen` is the identifier drawn for a new generation. */
  function SwitchEpoch(c: Cbt, newGen: Uuid): Cbt {
    var c1 := c.(read := c.write, genPrevious := if c.active == 1 then c.genActive else c.genPrevious,
                 previous := c.active, active := c.active + 1);
    if c1.active == EPOCHS + 1 then c1.(active := 1, genActive := newGen, write := seq(|c.write|, _ => 0)) else c1
  }

  /** `cbt_map_allocate`. */
  function Allocated(degree: nat, capacity: nat, gen: Uuid): Cbt {
    var size := CountByShift(capacity, degree);
    Cbt(degree, capacity, size, seq(size, _ => 0), seq(size, _ => 0), 1, 0, gen, gen)
  }

  ghost predicate Sound(c: Cbt) {
    && |c.read| == |c.write| == c.size
    && 1 <= c.active <= EPOCHS && c.previous <= EPOCHS
    && (forall b | 0 <= b < c.size :: c.write[b] <= c.active && c.read[b] <= c.previous)
  }

  /**
   * A range is accepted exactly when its last block is in the map, and else refused with EINVAL.  Either way
   * the entries of the blocks it meets become at least the active number, and nothing else changes.
   */
  lemma RangeMarks(c: Cbt, start: nat, cnt: nat, b: nat)
    requires |c.write| == c.size && cnt > 0 && start + cnt <= TWO64 && b < c.size
    ensures var (c1, st) := Mark(c, start, cnt);
            var first, last := start / Pow2(c.degree), (start + cnt - 1) / Pow2(c.degree);
            && st == (if last < c.size then Success else EInval)
            && c1 == c.(write := c1.write) && |c1.write| == c.size
            && c1.write[b] == if first <= b <= last && c.write[b] < c.active then c.active else c.write[b]
  {
    assert (start + cnt + TWO64 - 1) % TWO64 == start + cnt - 1;
    DivMonotone(start, start + cnt - 1, Pow2(c.degree));
  }

  // ---- the map in memory ----

  function Ints(bytes: seq<byte>, n: nat): (r: seq<nat>)
    requires n <= |bytes|
    ensures |r| == n
  {
    seq(n, k requires 0 <= k < n => bytes[k] as nat)
  }

  class Map {
    const sectInBlockDegree: nat
    const deviceCapacity: nat
    const mapSize: nat
    const readMap: PageArray<byte>
    const writeMap: PageArray<byte>
    var snapNumberActive: nat
    var snapNumberPrevious: nat
    var generationIdActive: Uuid
    var generationIdPrevious: Uuid
    var changedSectors: nat
    var dirtySectors: nat

    ghost predicate Valid()
      reads this
    {
      && readMap.Valid() && writeMap.Valid() && readMap.pageLen == writeMap.pageLen == PAGE
      && |readMap.pages| == |writeMap.pages| && mapSize <= readMap.Size()
      && (forall j, k | 0 <= j < |readMap.pages| && 0 <= k < |writeMap.pages| :: readMap.pages[j] != writeMap.pages[k])
      && 1 <= snapNumberActive <= EPOCHS && snapNumberPrevious <= EPOCHS
    }

    ghost function State(): Cbt
      requires Valid()
      reads this, readMap.pages, writeMap.pages
    {
      Cbt(sectInBlockDegree, deviceCapacity, mapSize, Ints(readMap.Flat(), mapSize), Ints(writeMap.Flat(), mapSize),
          snapNumberActive, snapNumberPrevious, generationIdActive, generationIdPrevious)
    }

    constructor (requested: nat, capacity: nat, gen: Uuid)
      ensures Valid() && fresh(this) && fresh(readMap.pages) && fresh(writeMap.pages)
      ensures BestShift(sectInBlockDegree, requested, capacity)
      ensures State() == Allocated(sectInBlockDegree, capacity, gen)
    {
      var degree := CheckSize(requested, capacity);
      var size := MapSize(degree, capacity);
      var read := ZeroedMap(size);
      var write := ZeroedMap(size);
      sectInBlockDegree, deviceCapacity, mapSize := degree, capacity, size;
      readMap, writeMap := read, write;
      snapNumberPrevious, snapNumberActive := 0, 1;
      generationIdActive, generationIdPrevious := gen, gen;
      changedSectors, dirtySectors := 0, 0;
    }

    /** `_cbt_map_set`: raise the entries of the blocks a range meets, stopping at the end of the map. */
    method Raise(start: nat, cnt: nat, num: byte, marks: PageArray<byte>) returns (res: Status)
      requires Valid() && (marks == readMap || marks == writeMap)
      modifies marks.pages
      ensures res == MarkStatus(old(State()), start, cnt)
      ensures Ints(marks.Flat(), mapSize)
              == MarkMap(old(State()), Ints(old(marks.Flat()), mapSize), start, cnt, num as nat)
    {
      res := Success;
      var blk, last := BlockOf(sectInBlockDegree, start), LastBlock(sectInBlockDegree, start, cnt);
      ghost var first, was := blk, Ints(marks.Flat(), mapSize);
      assert Raised(was, first, first, num as nat) == was;
      while blk <= last
        invariant first <= blk && (blk > first ==> blk <= mapSize && blk <= last + 1)
        invariant Ints(marks.Flat(), mapSize) == Raised(was, first, blk, num as nat)
        decreases last + 1 - blk
      {
        if blk >= mapSize {
          assert Raised(was, first, blk, num as nat) == Raised(was, first, last + 1, num as nat);
          return EInval;
        }
        RaiseOne(blk, num, marks);
        assert Raised(Raised(was, first, blk, num as nat), blk, blk + 1, num as nat)
            == Raised(was, first, blk + 1, num as nat);
        blk := blk + 1;
      }
      assert Raised(was, first, blk, num as nat) == Raised(was, first, last + 1, num as nat);
    }

    method RaiseOne(blk: nat, num: byte, marks: PageArray<byte>)
      requires Valid() && (marks == readMap || marks == writeMap) && blk < mapSize
      modifies marks.pages
      ensures Ints(marks.Flat(), mapSize) == Raised(Ints(old(marks.Flat()), mapSize), blk, blk + 1, num as nat)
    {
      var res, got := marks.Get(blk, 0);
      if got < num {
        res := marks.Set(blk, num);
      }
    }

    method Set(start: nat, cnt: nat) returns (res: Status)
      requires Valid()
      modifies this, writeMap.pages
      ensures Valid() && (State(), res) == Mark(old(State()), start, cnt)
    {
      res := Raise(start, cnt, snapNumberActive as byte, writeMap);
      changedSectors := changedSectors + cnt;
    }

    method SetBoth(start: nat, cnt: nat) returns (res: Status)
      requires Valid()
      modifies this, writeMap.pages, readMap.pages
      ensures Valid() && (State(), res) == MarkBoth(old(State()), start, cnt)
    {
      res := Raise(start, cnt, snapNumberActive as byte, writeMap);
      if res == Success {
        res := Raise(start, cnt, snapNumberPrevious as byte, readMap);
      }
      dirtySectors := dirtySectors + cnt;
    }

    /** Close an epoch: publish the map, and start over once the numbers are used up. */
    method Switch(newGen: Uuid)
      requires Valid()
      modifies this, writeMap.pages, readMap.pages
      ensures Valid() && State() == SwitchEpoch(old(State()), newGen)
      ensures snapNumberActive == if old(snapNumberActive) == 255 then 1 else old(snapNumberActive) + 1
    {
      readMap.Memcpy(writeMap);
      if snapNumberActive == 1 {
        generationIdPrevious := generationIdActive;
      }
      snapNumberPrevious := snapNumberActive;
      snapNumberActive := snapNumberActive + 1;
      if snapNumberActive == EPOCHS + 1 {
        snapNumberActive := 1;
        generationIdActive := newGen;
        writeMap.Memset(0);
      }
    }
  }

  method ZeroedMap(size: nat) returns (arr: PageArray<byte>)
    ensures arr.Valid() && fresh(arr) && fresh(arr.pages) && arr.pageLen == PAGE
    ensures |arr.pages| == (size + PAGE - 1) / PAGE
    ensures size <= arr.Size() && Ints(arr.Flat(), size) == seq(size, _ => 0)
  {
    var pageCnt := size / PAGE + if size % PAGE != 0 then 1 else 0;
    arr := new PageArray<byte>(PAGE, pageCnt);
    arr.Memset(0);
  }

  /** Whole blocks, and one more for a remainder. */
  method MapSize(degree: nat, capacity: nat) returns (size: nat)
    ensures size == CountByShift(capacity, degree)
  {
    ghost var want := CountByShift(capacity, degree);
    var whole, rest := Split(degree, capacity);
    assert want == whole + if rest != 0 then 1 else 0;
    size := whole;
    if rest != 0 {
      size := size + 1;
    }
  }

  /** `capacity >> degree` and the sectors left over. */
  method Split(degree: nat, capacity: nat) returns (whole: nat, rest: nat)
    ensures CountByShift(capacity, degree) == whole + if rest != 0 then 1 else 0
  {
    var d := Pow2(degree);
    whole, rest := Quot(capacity, d), Rem(capacity, d);
    CeilDiv(capacity, whole, rest, d);
  }

  lemma CeilDiv(x: nat, q: nat, r: nat, d: nat)
    requires d > 0 && q == x / d && r == x % d
    ensures (x + d - 1) / d == q + if r != 0 then 1 else 0
  {
    assert x == q * d + r by { DivBounds(x, d); }
    if r == 0 {
      DivModUnique(q, d - 1, d);
    } else {
      assert (q + 1) * d == q * d + d;
      DivModUnique(q + 1, r - 1, d);
    }
  }
}
