/** The store of a file snapstore (`snapstore.c`): cutting files into blocks and handing blocks out. */
module SnapstoreFile {
  import opened Basics
  import opened Ranges
  import opened CowEngine
  import opened BlkDescrPool
  import opened DeferredPages
  import opened RangeLists
  import opened RangeVectors
  import opened ZeroRanges

  /** What the blocks added so far hold, plus the part of a block still being put together. */
  ghost predicate Cut(was: seq<BlkDescr>, now: seq<BlkDescr>, open: seq<Range>, blk: BlockSize, sectors: seq<nat>) {
    && |was| <= |now| && now[..|was|] == was
    && (forall k | |was| <= k < |now| :: now[k].id == k && |Place(now[k])| == blk)
    && AllPlaces(now) + Sectors(open) == AllPlaces(was) + sectors
  }

  lemma CutNothing(was: seq<BlkDescr>, blk: BlockSize)
    ensures Cut(was, was, [], blk, [])
  {
  }

  lemma RangeGrows(sectors: seq<nat>, ofs: nat, a: nat, b: nat)
    ensures sectors + Span(Range(ofs, a)) + Span(Range(ofs + a, b)) == sectors + Span(Range(ofs, a + b))
  {
  }

  lemma CutMore(was: seq<BlkDescr>, now: seq<BlkDescr>, open: seq<Range>, blk: BlockSize, sectors: seq<nat>, rg: Range)
    requires Cut(was, now, open, blk, sectors)
    ensures Cut(was, now, open + [rg], blk, sectors + Span(rg)) && |Sectors(open + [rg])| == |Sectors(open)| + rg.cnt
  {
    SectorsSnoc(open, rg);
    AppendAssociates(AllPlaces(now), Sectors(open), Span(rg));
    AppendAssociates(AllPlaces(was), sectors, Span(rg));
  }

  /** A full block joins the pool. */
  lemma CutBlock(was: seq<BlkDescr>, now: seq<BlkDescr>, open: seq<Range>, blk: BlockSize, sectors: seq<nat>)
    requires Cut(was, now, open, blk, sectors) && |Sectors(open)| == blk
    ensures Cut(was, now + [BlkDescr(|now|, open)], [], blk, sectors)
  {
  }

  /** The blocks of `now` behind those of `was`, and the tail left over, are the ranges cut up. */
  ghost predicate CutInto(blk: BlockSize, was: seq<BlkDescr>, now: seq<BlkDescr>, ranges: seq<Range>, tail: seq<nat>) {
    && |was| <= |now| && now[..|was|] == was
    && (forall k | |was| <= k < |now| :: now[k].id == k && |Place(now[k])| == blk)
    && AllPlaces(now) + tail == AllPlaces(was) + Sectors(ranges) && |tail| < blk
  }

  class Snapstore {
    const blk: BlockSize
    const blkDev: BlockDevice
    const pool: Pool<BlkDescr>
    const ctrlPipe: bool
    var overflowed: nat
    var notified: nat // overflow messages sent through the pipe

    ghost predicate Valid()
      reads this, pool, pool.Repr
    {
      pool.Valid() && pool.available == 0 && this !in pool.Repr
    }

    constructor (blk: BlockSize, blkDev: BlockDevice, ctrlPipe: bool)
      ensures Valid() && fresh(pool) && pool.Contents() == [] && pool.takeCnt == 0 && overflowed == 0 && notified == 0
      ensures this.blk == blk && this.blkDev == blkDev && this.ctrlPipe == ctrlPipe && pool.Repr == {}
    {
      this.blk, this.blkDev, this.ctrlPipe := blk, blkDev, ctrlPipe;
      pool := new Pool<BlkDescr>(0);
      overflowed, notified := 0, 0;
    }

    /** Add one piece to the open block, and the block to the pool once it is full. */
    method AddPiece(rg: Range, list0: seq<Range>, size0: nat, capacity: nat, ghost was: seq<BlkDescr>,
            ghost sectors: seq<nat>)
      returns (blkRangelist: seq<Range>, currentBlkSize: nat)
      requires Valid() && capacity > 0 && Cut(was, pool.Contents(), list0, blk, sectors)
      requires |Sectors(list0)| == size0 && size0 + rg.cnt <= blk
      modifies pool, pool.Repr
      ensures Valid() && pool.takeCnt == old(pool.takeCnt)
      ensures Cut(was, pool.Contents(), blkRangelist, blk, sectors + Span(rg))
      ensures |Sectors(blkRangelist)| == currentBlkSize < blk
      ensures fresh(pool.Repr - old(pool.Repr))
    {
      CutMore(was, pool.Contents(), list0, blk, sectors, rg);
      blkRangelist, currentBlkSize := list0 + [rg], size0 + rg.cnt;
      if currentBlkSize == blk {
        CutBlock(was, pool.Contents(), blkRangelist, blk, sectors + Span(rg));
        pool.Alloc(BlkDescr(pool.totalCnt, blkRangelist), capacity);
        blkRangelist, currentBlkSize := [], 0;
      }
    }

    /** Cut the next piece off a range: up to its end, or to the end of the open block. */
    method NextPiece(range: Range, rangeOffset: nat, list0: seq<Range>, size0: nat, capacity: nat,
        ghost was: seq<BlkDescr>, ghost sectors: seq<nat>)
      returns (offset: nat, blkRangelist: seq<Range>, currentBlkSize: nat)
      requires Valid() && capacity > 0 && rangeOffset < range.cnt && |Sectors(list0)| == size0 < blk
      requires Cut(was, pool.Contents(), list0, blk, sectors + Span(Range(range.ofs, rangeOffset)))
      modifies pool, pool.Repr
      ensures Valid() && pool.takeCnt == old(pool.takeCnt) && rangeOffset < offset <= range.cnt
      ensures Cut(was, pool.Contents(), blkRangelist, blk, sectors + Span(Range(range.ofs, offset)))
      ensures |Sectors(blkRangelist)| == currentBlkSize < blk
      ensures fresh(pool.Repr - old(pool.Repr))
    {
      var cnt := if range.cnt - rangeOffset < blk - size0 then range.cnt - rangeOffset else blk - size0;
      ghost var before := sectors + Span(Range(range.ofs, rangeOffset));
      var piece := Range(range.ofs + rangeOffset, cnt);
      blkRangelist, currentBlkSize := AddPiece(piece, list0, size0, capacity, was, before);
      offset := rangeOffset + cnt;
      assert sectors + Span(Range(range.ofs, offset)) == before + Span(piece) by {
        RangeGrows(sectors, range.ofs, rangeOffset, cnt);
      }
    }

    /** Cut one range of the file; `capacity` is that of a pool element allocated on the way. */
    method AddRange(range: Range, list0: seq<Range>, size0: nat, capacity: nat, ghost was: seq<BlkDescr>,
            ghost sectors: seq<nat>)
      returns (blkRangelist: seq<Range>, currentBlkSize: nat)
      requires Valid() && capacity > 0 && Cut(was, pool.Contents(), list0, blk, sectors)
      requires |Sectors(list0)| == size0 < blk
      modifies pool, pool.Repr
      ensures Valid() && pool.takeCnt == old(pool.takeCnt)
      ensures Cut(was, pool.Contents(), blkRangelist, blk, sectors + Span(range))
      ensures |Sectors(blkRangelist)| == currentBlkSize < blk
      ensures fresh(pool.Repr - old(pool.Repr))
    {
      blkRangelist, currentBlkSize := list0, size0;
      var rangeOffset := 0;
      assert sectors + Span(Range(range.ofs, 0)) == sectors;
      while rangeOffset < range.cnt
        invariant 0 <= rangeOffset <= range.cnt && Valid() && pool.takeCnt == old(pool.takeCnt)
        invariant Cut(was, pool.Contents(), blkRangelist, blk, sectors + Span(Range(range.ofs, rangeOffset)))
        invariant |Sectors(blkRangelist)| == currentBlkSize < blk
        invariant fresh(pool.Repr - old(pool.Repr))
      {
        rangeOffset, blkRangelist, currentBlkSize :=
          NextPiece(range, rangeOffset, blkRangelist, currentBlkSize, capacity, was, sectors);
      }
    }

    /**
     * The loops of `snapstore_add_file`: the blocks added are exactly of the block size, and with the
     * tail left over they are the sectors of the ranges in order.
     */
    method CutFile(ranges: seq<Range>, capacity: nat) returns (ghost tail: seq<nat>)
      requires Valid() && capacity > 0
      modifies pool, pool.Repr
      ensures Valid() && pool.takeCnt == old(pool.takeCnt)
      ensures CutInto(blk, old(pool.Contents()), pool.Contents(), ranges, tail)
      ensures fresh(pool.Repr - old(pool.Repr))
    {
      ghost var was := pool.Contents();
      var blkRangelist: seq<Range>, currentBlkSize := [], 0;
      var inx := 0;
      CutNothing(was, blk);
      assert Sectors(ranges[..0]) == [];
      while inx < |ranges|
        invariant 0 <= inx <= |ranges| && Valid() && pool.takeCnt == old(pool.takeCnt)
        invariant Cut(was, pool.Contents(), blkRangelist, blk, Sectors(ranges[..inx]))
        invariant |Sectors(blkRangelist)| == currentBlkSize < blk
        invariant fresh(pool.Repr - old(pool.Repr))
      {
        ghost var before := Sectors(ranges[..inx]);
        assert ranges[..inx + 1] == ranges[..inx] + [ranges[inx]];
        SectorsSnoc(ranges[..inx], ranges[inx]);
        blkRangelist, currentBlkSize := AddRange(ranges[inx], blkRangelist, currentBlkSize, capacity, was, before);
        inx := inx + 1;
      }
      assert ranges[..inx] == ranges;
      tail := Sectors(blkRangelist);
    }

    /** `snapstore_get_empty_block`; the first failure is reported, and all later calls fail at once. */
    method GetEmptyBlock() returns (r: Option<BlkDescr>)
      requires Valid()
      modifies this, pool`takeCnt
      ensures Valid() && pool.Contents() == old(pool.Contents())
      ensures var left := old(overflowed) == 0 && old(pool.takeCnt) < |pool.Contents()|;
              r == if left then Some(pool.Contents()[old(pool.takeCnt)]) else None
      ensures pool.takeCnt == if r.Some? then old(pool.takeCnt) + 1 else old(pool.takeCnt)
      ensures overflowed == if r.None? && old(overflowed) == 0 then 1 else old(overflowed)
      ensures notified == if r.None? && old(overflowed) == 0 && ctrlPipe then old(notified) + 1 else old(notified)
    {
      if overflowed > 0 { return None; }
      r := pool.Take();
      ghost var chunks := pool.Chunks();
      if r.None? {
        overflowed := overflowed + 1;
        if overflowed == 1 && ctrlPipe {
          notified := notified + 1;
        }
      }
      assert pool.Chunks() == chunks;
    }
  }

  ghost function Footprint(zeros: Vector?): set<object>
    reads zeros
  {
    if zeros == null then {} else var v: set<object> := {zeros}; v + zeros.Elements() + zeros.Arrays()
  }

  /**
   * `snapstore_add_file`.  `found` says whether the snapstore is registered, `file` is its file store
   * if it has one, and `zeros` the zero ranges of the snapshot on the device of the file, if any.
   */
  method AddFile(found: bool, file: Snapstore?, ranges: seq<Range>, capacity: nat, zeros: Vector?, zeroing: bool)
    returns (res: Status, ghost tail: seq<nat>)
    requires capacity > 0 && (file != null ==> file.Valid()) && (zeros != null ==> zeros.Valid())
    requires file != null ==> ({file, file.pool} + file.pool.Repr) !! Footprint(zeros)
    modifies if file == null then {} else {file.pool} + file.pool.Repr, Footprint(zeros)
    ensures res == if ranges == [] then EInval else if !found then ENoData else if file == null then EFault else Success
    ensures file != null ==> file.Valid() && file.pool.takeCnt == old(file.pool.takeCnt)
    ensures file != null ==>
              var added := if res == Success then ranges else [];
              CutInto(file.blk, old(file.pool.Contents()), file.pool.Contents(), added, tail)
    ensures zeros != null ==> zeros.Valid()
    ensures zeros != null && res == Success && zeroing ==>
              SortedByOfs(zeros.Flat()) && multiset(zeros.Flat()) == multiset(old(zeros.Flat()) + ranges)
    ensures zeros != null && !(res == Success && zeroing) ==> zeros.Chunks() == old(zeros.Chunks())
  {
    tail := [];
    if ranges == [] { return EInval, []; }
    if !found { return ENoData, []; }
    if file == null { return EFault, []; }
    tail := file.CutFile(ranges, capacity);
    res := Success;
    if zeros != null {
      assert zeros.Valid() && zeros.Chunks() == old(zeros.Chunks());
      ghost var now := file.pool.Contents();
      res := AddZeroRanges(zeros, ranges, zeroing);
      assert file.Valid() && file.pool.Contents() == now;
    }
  }

  // ---- cutting disjoint ranges ----

  /** Blocks cut from fresh, disjoint ranges on the device keep the pool well formed. */
  lemma FileKeepsPool(blk: BlockSize, size: nat, was: seq<BlkDescr>, now: seq<BlkDescr>, tail: seq<nat>,
          ranges: seq<Range>)
    requires PoolOk(blk, size, was) && CutInto(blk, was, now, ranges, tail)
    requires NoRepeats(AllPlaces(was) + Sectors(ranges))
    requires forall i | 0 <= i < |Sectors(ranges)| :: Sectors(ranges)[i] < size
    ensures PoolOk(blk, size, now)
  {
    var all, places := AllPlaces(was) + Sectors(ranges), AllPlaces(now);
    assert places == all[..|places|];
    forall k | 0 <= k < |now|
      ensures now[k].id == k && |Place(now[k])| == blk
    {
      assert k < |was| ==> now[k] == was[k];
    }
    forall i, j | 0 <= i < j < |places|
      ensures places[i] != places[j]
    {
      assert places[i] == all[i] && places[j] == all[j];
    }
    forall i | 0 <= i < |places|
      ensures places[i] < size
    {
      assert places[i] == all[i];
    }
  }

  /** For a device of the snapstore, a file whose ranges are fresh and disjoint is a growth of the pool. */
  lemma FileIsGrowth(e: Engine, now: seq<BlkDescr>, tail: seq<nat>, ranges: seq<Range>)
    requires PoolOk(e.blk, |e.store|, e.pool) && CutInto(e.blk, e.pool, now, ranges, tail)
    requires NoRepeats(AllPlaces(e.pool) + Sectors(ranges))
    requires forall i | 0 <= i < |Sectors(ranges)| :: Sectors(ranges)[i] < |e.store|
    ensures OneOutside(e, Grown(now[|e.pool|..])) == e.(pool := now)
  {
    FileKeepsPool(e.blk, |e.store|, e.pool, now, tail, ranges);
    assert e.pool + now[|e.pool|..] == now;
  }

  /** No sector of the file belongs to two blocks, nor to one block twice. */
  lemma BlocksDisjoint(blk: BlockSize, size: nat, now: seq<BlkDescr>, k: nat, i: nat, k': nat, i': nat)
    requires PoolOk(blk, size, now) && k < |now| && k' < |now| && i < blk && i' < blk
    requires Cell(now[k], i) == Cell(now[k'], i')
    ensures k == k' && i == i'
  {
    PoolCellsDiffer(blk, size, now, k, i, k', i');
  }
}
