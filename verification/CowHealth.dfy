/**
 * When copy-on-write works: exactly which requests can be prepared, how many descriptors they take, and
 * exactly when reading the original and storing it succeeds, and what is stored then.
 */
module CowHealth {
  import opened Basics
  import opened CowEngine

  // ---- preparing ----

  /** Blocks of `[inx, last]` that have no descriptor. */
  function Unmapped(e: Engine, inx: nat, last: int): nat
    decreases last + 1 - inx
  {
    if inx > last then 0 else (if inx in e.blocks then 0 else 1) + Unmapped(e, inx + 1, last)
  }

  /** Further down, a block that gets its descriptor does not count. */
  lemma {:induction false} UnmappedBehind(e: Engine, e1: Engine, b: nat, inx: nat, last: int)
    requires b < inx && e1.blocks.Keys == e.blocks.Keys + {b}
    ensures Unmapped(e1, inx, last) == Unmapped(e, inx, last)
    decreases last + 1 - inx
  {
    if inx <= last {
      UnmappedBehind(e, e1, b, inx + 1, last);
    }
  }

  lemma {:induction false} NoneUnmapped(e: Engine, inx: nat, last: int)
    ensures Unmapped(e, inx, last) == 0 <==> AllIn(e, inx, last)
    decreases last + 1 - inx
  {
    if inx <= last {
      NoneUnmapped(e, inx + 1, last);
    }
  }

  /** The blocks that need a descriptor have a place in the map. */
  ghost predicate RoomInMap(e: Engine, inx: nat, last: int) {
    forall b | inx <= b <= last && b !in e.blocks :: b <= e.last
  }

  /** The pool was never exhausted and has descriptors for all of the range. */
  predicate PoolSuffices(e: Engine, inx: nat, last: int) {
    e.overflowed == 0 && e.taken + Unmapped(e, inx, last) <= |e.pool|
  }

  /** With nothing in between, a block joins the request just when a descriptor is left and it has a place. */
  lemma AddAlone(e: Engine, req: seq<Dio>, b: nat)
    ensures var r := AddRequest(AfterGap(e, map[], b), req, b, TestedLate(map[], b));
            if e.overflowed == 0 && e.taken < |e.pool| && b <= e.last then
              r == (WithBlock(e, b), req + [Dio(b, e.pool[e.taken])], Success)
            else r.2 != Success
  {
  }

  lemma RoomBehind(e: Engine, inx: nat, last: int)
    requires inx <= last && inx !in e.blocks && e.taken < |e.pool|
    ensures RoomInMap(e, inx, last) <==> inx <= e.last && RoomInMap(WithBlock(e, inx), inx + 1, last)
  {
    var e1 := WithBlock(e, inx);
    assert forall b | inx + 1 <= b <= last :: b in e1.blocks <==> b in e.blocks;
  }

  /**
   * When nothing happens in between, preparing works exactly when every block is mapped already, or the
   * pool was never exhausted and has a descriptor left for each block that is not, and these have a place.
   */
  lemma {:induction false} PrepareWorksIff(e: Engine, req: seq<Dio>, inx: nat, last: int)
    ensures PrepareRequests(e, req, inx, last, map[]).2 == Success <==>
              AllIn(e, inx, last) || (PoolSuffices(e, inx, last) && RoomInMap(e, inx, last))
    decreases last + 1 - inx
  {
    NoneUnmapped(e, inx, last);
    if inx > last {
    } else if inx in e.blocks {
      PrepareWorksIff(e, req, inx + 1, last);
      NoneUnmapped(e, inx + 1, last);
      assert RoomInMap(e, inx, last) == RoomInMap(e, inx + 1, last);
    } else {
      AddAlone(e, req, inx);
      if e.taken < |e.pool| {
        var e1 := WithBlock(e, inx);
        PrepareWorksIff(e1, req + [Dio(inx, e.pool[e.taken])], inx + 1, last);
        NoneUnmapped(e1, inx + 1, last);
        UnmappedBehind(e, e1, inx, inx + 1, last);
        RoomBehind(e, inx, last);
        RoomOfNone(e1, inx + 1, last);
      }
    }
  }

  lemma RoomOfNone(e: Engine, inx: nat, last: int)
    ensures AllIn(e, inx, last) ==> RoomInMap(e, inx, last)
  {
  }

  /** What preparing that works has done: the next descriptors, one for each block that had none. */
  ghost predicate TookNext(e: Engine, req: seq<Dio>, e1: Engine, req1: seq<Dio>, n: nat) {
    && e1.pool == e.pool && e1.taken == e.taken + n <= |e.pool| && e1 == e.(blocks := e1.blocks, taken := e1.taken)
    && req <= req1 && |req1| == |req| + n
    && forall k | |req| <= k < |req1| :: req1[k].descr == e.pool[e.taken + (k - |req|)]
  }

  lemma TookOneMore(e: Engine, req: seq<Dio>, b: nat, e1: Engine, req1: seq<Dio>, n: nat)
    requires e.taken < |e.pool| && TookNext(WithBlock(e, b), req + [Dio(b, e.pool[e.taken])], e1, req1, n)
    ensures TookNext(e, req, e1, req1, n + 1)
  {
    assert req1[|req|] == (req + [Dio(b, e.pool[e.taken])])[|req|];
  }

  /** Preparing that works takes the next descriptors in order, one for each block that had none. */
  lemma {:induction false} PrepareTakes(e: Engine, req: seq<Dio>, inx: nat, last: int)
    requires e.taken <= |e.pool| && PrepareRequests(e, req, inx, last, map[]).2 == Success
    ensures var r := PrepareRequests(e, req, inx, last, map[]); TookNext(e, req, r.0, r.1, Unmapped(e, inx, last))
    decreases last + 1 - inx
  {
    if inx > last {
    } else if inx in e.blocks {
      PrepareTakes(e, req, inx + 1, last);
    } else {
      AddAlone(e, req, inx);
      var e1, req1 := WithBlock(e, inx), req + [Dio(inx, e.pool[e.taken])];
      PrepareTakes(e1, req1, inx + 1, last);
      UnmappedBehind(e, e1, inx, inx + 1, last);
      var r := PrepareRequests(e1, req1, inx + 1, last, map[]);
      TookOneMore(e, req, inx, r.0, r.1, Unmapped(e1, inx + 1, last));
    }
  }

  lemma {:induction false} OutsideKeepsLast(e: Engine, acts: seq<Outside>)
    ensures AllOutside(e, acts).last == e.last
    decreases |acts|
  {
    if acts != [] {
      OutsideKeepsLast(OneOutside(e, acts[0]), acts[1..]);
    }
  }

  /** Whatever happens in between, preparing fails only with the pool exhausted or the map too small. */
  lemma {:induction false} PrepareFailsOnlyIf(e: Engine, req: seq<Dio>, inx: nat, last: int, gaps: Gaps)
    ensures var (e1, req1, st) := PrepareRequests(e, req, inx, last, gaps);
            st == Success || (st == ENoData && e1.overflowed > 0) || (st == EInval && last > e.last)
    decreases last + 1 - inx
  {
    if inx > last {
    } else if inx in e.blocks {
      PrepareFailsOnlyIf(e, req, inx + 1, last, gaps);
    } else {
      if inx in gaps {
        OutsideKeepsLast(e, gaps[inx].acts);
      }
      var (e1, req1, st) := AddRequest(AfterGap(e, gaps, inx), req, inx, TestedLate(gaps, inx));
      if st == Success {
        PrepareFailsOnlyIf(e1, req1, inx + 1, last, gaps);
      }
    }
  }

  // ---- blocks of the device ----

  /** A range of device sectors has its blocks in the map; on a device of whole blocks they are whole. */
  lemma DeviceBlocks(e: Engine, ofs: nat, cnt: nat, b: nat)
    requires WellFormed(e) && cnt > 0 && ofs + cnt <= |e.orig| && b <= LastBlock(e.blk, ofs, cnt)
    ensures b < e.last && b * e.blk < |e.orig|
    ensures |e.orig| % e.blk == 0 ==> b * e.blk + e.blk <= |e.orig|
  {
    var i := ofs + cnt - 1;
    DivBounds(i, e.blk);
    MulMonotone(b, i / e.blk, e.blk);
    MulCancelLess(b, e.last, e.blk);
    if |e.orig| % e.blk == 0 {
      var q := |e.orig| / e.blk;
      DivBounds(|e.orig|, e.blk);
      MulCancelLess(b, q, e.blk);
      MulMonotone(b + 1, q, e.blk);
      assert b * e.blk + e.blk == (b + 1) * e.blk <= q * e.blk == |e.orig|;
    }
  }

  /** Every block of the range has a descriptor, or the pool suffices for those that have none. */
  ghost predicate Preparable(e: Engine, ofs: nat, cnt: nat)
    requires cnt > 0
  {
    var first, last := FirstBlock(e.blk, ofs), LastBlock(e.blk, ofs, cnt);
    AllIn(e, first, last) || PoolSuffices(e, first, last)
  }

  /** A write on the device is prepared exactly then: its blocks always have a place in the map. */
  lemma WriteIsPreparedIff(e: Engine, req: seq<Dio>, ofs: nat, cnt: nat)
    requires WellFormed(e) && cnt > 0 && ofs + cnt <= |e.orig|
    ensures Prepare(e, req, ofs, cnt, map[]).2 == Success <==> Preparable(e, ofs, cnt)
  {
    var first, last := FirstBlock(e.blk, ofs), LastBlock(e.blk, ofs, cnt);
    PrepareWorksIff(e, req, first, last);
    forall b | first <= b <= last && b !in e.blocks
      ensures b <= e.last
    {
      DeviceBlocks(e, ofs, cnt, b);
    }
  }

  // ---- copying ----

  /** The block lies wholly on the device. */
  predicate Whole(e: Engine, b: nat) {
    b * e.blk + e.blk <= |e.orig|
  }

  predicate AllWhole(e: Engine, req: seq<Dio>) {
    forall k | 0 <= k < |req| :: Whole(e, req[k].block)
  }

  /** Copying works exactly when neither the read nor the store fails and every block lies wholly on the device. */
  lemma CopyOutWorksIff(e: Engine, req: seq<Dio>, f: Faults)
    ensures CopyOut(e, req, f).1 == Success <==> f.readOk && f.storeOk && AllWhole(e, req)
  {
    forall k | 0 <= k < |req|
      ensures (req[k].block + 1) * e.blk == req[k].block * e.blk + e.blk
    {
    }
    if ReadWorks(e, req, f) {
      forall k | 0 <= k < |req|
        ensures Whole(e, req[k].block)
      {
        assert (req[k].block + 1) * e.blk <= |e.orig|;
      }
    } else if AllWhole(e, req) {
      forall k | 0 <= k < |req|
        ensures (req[k].block + 1) * e.blk <= |e.orig|
      {
        assert Whole(e, req[k].block);
      }
    }
  }

  /** Each device sector of the block is held in its place in the snapstore. */
  ghost predicate KeepsBlock(e: Engine, e1: Engine, d: Dio) {
    forall i: nat | i < |e.orig| && i / e.blk == d.block :: At(e1.store, Cell(d.descr, i % e.blk)) == e.orig[i]
  }

  ghost predicate KeepsAll(e: Engine, e1: Engine, req: seq<Dio>) {
    forall k | 0 <= k < |req| :: KeepsBlock(e, e1, req[k])
  }

  /** Copying that works stores each block of the request, and changes nothing but the snapstore. */
  lemma CopyOutStores(e: Engine, req: seq<Dio>, f: Faults)
    requires WellFormed(e) && ReqOk(e, req) && CopyOut(e, req, f).1 == Success
    ensures var e1 := CopyOut(e, req, f).0;
            e1 == e.(store := e1.store) && KeepsAll(e, e1, req)
  {
    StoreAllKeeps(e, req);
    forall k | 0 <= k < |req|
      ensures KeepsBlock(e, StoreAll(e, req), req[k])
    {
      BlockStored(e, req, k);
    }
  }

  lemma {:induction false} BlockStored(e: Engine, req: seq<Dio>, k: nat)
    requires WellFormed(e) && ReqOk(e, req) && k < |req|
    ensures KeepsBlock(e, StoreAll(e, req), req[k])
  {
    StoreAllKeeps(e, req);
    forall i: nat | i < |e.orig| && i / e.blk == req[k].block
      ensures At(StoreAll(e, req).store, Cell(req[k].descr, i % e.blk)) == e.orig[i]
    {
      StoreAllShows(e, req, i);
      assert i / e.blk in Pending(req);
    }
  }
}
