/**
 * The snapstore device in memory (`snapstore_device.c`): its methods change the pool, the block
 * map and the devices in place and are proved to compute the functions of `CowEngine`.
 */
module SnapstoreDevices {
  import opened Basics
  import opened Ranges
  import opened PageArrays
  import opened BlkDescrPool
  import opened BlkDescrArray
  import opened DeferredPages
  import opened SnapstoreFile
  import opened BioWalk
  import opened Layout
  import opened ImageRequests
  import opened E = CowEngine
  import H = CowHealth

  /** A point of the loop of `snapstore_device_prepare_requests`. */
  datatype Point = Point(e: Engine, req: seq<Dio>, inx: nat)

  /** One turn of that loop. */
  function PrepareTurn(p: Point): (Engine, seq<Dio>, Status) {
    if p.inx in p.e.blocks then (p.e, p.req, Success) else E.AddRequest(p.e, p.req, p.inx, false)
  }

  ghost predicate Follows(p: Point, q: Point) {
    PrepareTurn(p) == (q.e, q.req, Success) && q.inx == p.inx + 1
  }

  /** What preparing comes to from a point on. */
  function Preparing(last: nat): Point -> (Engine, seq<Dio>, Status) {
    (p: Point) => E.PrepareRequests(p.e, p.req, p.inx, last, map[])
  }

  lemma TurnKeepsOutcome(p: Point, q: Point, last: nat)
    requires Follows(p, q) && p.inx <= last
    ensures Preparing(last)(p) == Preparing(last)(q)
  {
  }

  lemma OutcomeEnds(p: Point, last: nat)
    ensures p.inx > last ==> Preparing(last)(p) == (p.e, p.req, Success)
    ensures var (e, req, st) := PrepareTurn(p);
            p.inx <= last && st != Success ==> Preparing(last)(p) == (SetCorrupted(e, st), req, st)
  {
  }

  class SnapstoreDevice {
    const blk: BlockSize
    const origBlkDev: BlockDevice
    const snapstore: Snapstore
    const storeBlockMap: DescrArray<BlkDescr>
    var corrupted: bool
    var errCode: Status
    var reqFailedCnt: nat
    ghost var others: set<nat> // descriptors the pool gave to other devices of the snapstore

    /** No object serves two purposes. */
    ghost predicate Separate()
      reads snapstore.pool, storeBlockMap
    {
      && origBlkDev != snapstore.blkDev && snapstore.pool.Repr !! storeBlockMap.Repr
      && {this, origBlkDev, snapstore, snapstore.blkDev, snapstore.pool, storeBlockMap} !! snapstore.pool.Repr
      && {this, origBlkDev, snapstore, snapstore.blkDev, snapstore.pool, storeBlockMap} !! storeBlockMap.Repr
    }

    ghost predicate Valid()
      reads snapstore, snapstore.pool, snapstore.pool.Repr, storeBlockMap, storeBlockMap.Repr
    {
      && Separate() && snapstore.Valid() && storeBlockMap.Valid() && storeBlockMap.first == 0
      && snapstore.blk == blk && blk % SECTORS_IN_PAGE == 0
    }

    ghost function State(): Engine
      requires Valid()
      reads this, origBlkDev, snapstore, snapstore.blkDev, snapstore.pool, snapstore.pool.Repr
      reads storeBlockMap, storeBlockMap.Repr
    {
      Engine(blk, origBlkDev.data, snapstore.blkDev.data, snapstore.pool.Contents(), snapstore.pool.takeCnt,
        others, snapstore.ctrlPipe, snapstore.overflowed, snapstore.notified, storeBlockMap.last, storeBlockMap.Map(),
        corrupted, errCode, reqFailedCnt)
    }

    /** `snapstore_device_create`: a map with room for every block of the original device. */
    constructor (origBlkDev: BlockDevice, snapstore: Snapstore, ghost others: set<nat>)
      requires snapstore.Valid() && snapstore.blk % SECTORS_IN_PAGE == 0 && origBlkDev != snapstore.blkDev
      requires {origBlkDev, snapstore, snapstore.blkDev, snapstore.pool} !! snapstore.pool.Repr
      ensures Valid() && this.origBlkDev == origBlkDev && this.snapstore == snapstore && fresh(storeBlockMap.Repr)
      ensures blk == snapstore.blk && storeBlockMap.Map() == map[] && !corrupted && reqFailedCnt == 0
      ensures this.others == others && storeBlockMap.last == (|origBlkDev.data| + blk - 1) / blk
    {
      ghost var chunks := snapstore.pool.Chunks();
      var blk := snapstore.blk;
      var count := BlocksCount(|origBlkDev.data|, blk);
      var descrs := new DescrArray<BlkDescr>(0, count);
      this.blk, this.origBlkDev, this.snapstore, storeBlockMap := blk, origBlkDev, snapstore, descrs;
      corrupted, errCode, reqFailedCnt := false, Success, 0;
      this.others := others;
      new;
      assert snapstore.pool.Chunks() == chunks;
    }

    /** `snapstore_device_is_corrupted`: also counts the requests refused. */
    method IsCorrupted() returns (yes: bool)
      requires Valid()
      modifies `reqFailedCnt
      ensures Valid() && yes == corrupted && reqFailedCnt == old(reqFailedCnt) + if corrupted then 1 else 0
      ensures State() == Tested(old(State()))
    {
      if corrupted {
        reqFailedCnt := reqFailedCnt + 1;
        return true;
      }
      return false;
    }

    /** `snapstore_device_set_corrupted`. */
    method MarkCorrupted(code: Status)
      requires Valid()
      modifies `corrupted, `errCode, `reqFailedCnt
      ensures Valid() && State() == SetCorrupted(old(State()), code) && corrupted
      ensures if old(corrupted) then errCode == old(errCode) && reqFailedCnt == old(reqFailedCnt)
              else errCode == code && reqFailedCnt == 0
    {
      if !corrupted {
        reqFailedCnt, corrupted, errCode := 0, true, code;
      }
    }

    /** `_snapstore_device_is_block_stored`. */
    method IsBlockStored(b: nat) returns (stored: bool)
      requires Valid()
      ensures Valid() && stored == (b in storeBlockMap.Map())
    {
      var res, d := storeBlockMap.Get(b);
      stored := res == Success;
    }

    /** `snapstore_get_empty_block`, seen from this device. */
    method TakeBlock() returns (d: Option<BlkDescr>)
      requires Valid()
      modifies snapstore, snapstore.pool`takeCnt
      ensures Valid() && (State(), d) == E.GetEmptyBlock(old(State()), false)
    {
      ghost var blocks := storeBlockMap.Map();
      d := snapstore.GetEmptyBlock();
      assert storeBlockMap.Map() == blocks;
    }

    method SetBlock(b: nat, d: BlkDescr) returns (res: Status)
      requires Valid()
      modifies storeBlockMap, storeBlockMap.Repr
      ensures Valid() && fresh(storeBlockMap.Repr - old(storeBlockMap.Repr))
      ensures res == if b <= storeBlockMap.last then Success else EInval
      ensures State() == var e := old(State()); if res == Success then e.(blocks := e.blocks[b := d]) else e
    {
      ghost var chunks := snapstore.pool.Chunks();
      res := storeBlockMap.Set(b, d);
      assert snapstore.pool.Chunks() == chunks;
    }

    /** `snapstore_device_add_request`. */
    method AddRequest(req: seq<Dio>, b: nat) returns (req1: seq<Dio>, st: Status)
      requires Valid()
      modifies snapstore, snapstore.pool`takeCnt, storeBlockMap, storeBlockMap.Repr
      ensures Valid() && fresh(storeBlockMap.Repr - old(storeBlockMap.Repr))
      ensures (State(), req1, st) == E.AddRequest(old(State()), req, b, false)
    {
      var d := TakeBlock();
      if d.None? { return req, ENoData; }
      var res := SetBlock(b, d.value);
      if res != Success { return req, res; }
      return req + [Dio(b, d.value)], Success;
    }

    /** One turn of the preparing loop. */
    method PrepareBlock(req0: seq<Dio>, b: nat) returns (req: seq<Dio>, st: Status)
      requires Valid()
      modifies snapstore, snapstore.pool`takeCnt, storeBlockMap, storeBlockMap.Repr
      ensures Valid() && fresh(storeBlockMap.Repr - old(storeBlockMap.Repr))
      ensures (State(), req, st) == PrepareTurn(Point(old(State()), req0, b))
    {
      var stored := IsBlockStored(b);
      if stored { return req0, Success; }
      req, st := AddRequest(req0, b);
    }

    /** The loop of `snapstore_device_prepare_requests`; `outcome` is what every turn keeps. */
    method PrepareLoop<R>(req0: seq<Dio>, first: nat, last: nat, ghost outcome: Point -> R)
      returns (req: seq<Dio>, st: Status, ghost end: Point)
      requires Valid() && first <= last
      requires forall p, q | Follows(p, q) && p.inx <= last :: outcome(p) == outcome(q)
      modifies snapstore, snapstore.pool`takeCnt, storeBlockMap, storeBlockMap.Repr
      ensures Valid() && fresh(storeBlockMap.Repr - old(storeBlockMap.Repr))
      ensures outcome(end) == outcome(Point(old(State()), req0, first))
      ensures if st == Success then end == Point(State(), req, last + 1)
              else end.inx <= last && PrepareTurn(end) == (State(), req, st)
    {
      var inx := first;
      req, st := req0, Success;
      end := Point(State(), req, inx);
      while inx <= last
        invariant Valid() && fresh(storeBlockMap.Repr - old(storeBlockMap.Repr)) && st == Success
        invariant first <= inx <= last + 1
        invariant end == Point(State(), req, inx) && outcome(end) == outcome(Point(old(State()), req0, first))
        decreases last + 1 - inx
      {
        req, st := PrepareBlock(req, inx);
        if st != Success { return; }
        inx := inx + 1;
        assert Follows(end, Point(State(), req, inx));
        end := Point(State(), req, inx);
      }
    }

    /** `snapstore_device_prepare_requests`. */
    method PrepareRequests(req0: seq<Dio>, ofs: nat, cnt: nat) returns (req: seq<Dio>, st: Status)
      requires Valid() && cnt > 0
      modifies this, snapstore, snapstore.pool`takeCnt, storeBlockMap, storeBlockMap.Repr
      ensures Valid() && fresh(storeBlockMap.Repr - old(storeBlockMap.Repr))
      ensures (State(), req, st) == Prepare(old(State()), req0, ofs, cnt, map[])
      ensures WellFormed(old(State())) && ofs + cnt <= |origBlkDev.data| ==>
                (st == Success <==> H.Preparable(old(State()), ofs, cnt))
    {
      ghost var e := State();
      var first, last := FirstBlock(blk, ofs), LastBlock(blk, ofs, cnt);
      DivMonotone(ofs, ofs + cnt - 1, blk);
      forall p, q | Follows(p, q) && p.inx <= last
        ensures Preparing(last)(p) == Preparing(last)(q)
      {
        TurnKeepsOutcome(p, q, last);
      }
      ghost var end;
      req, st, end := PrepareLoop(req0, first, last, Preparing(last));
      OutcomeEnds(end, last);
      if st != Success {
        MarkCorrupted(st);
      }
      if WellFormed(e) && ofs + cnt <= |e.orig| {
        H.WriteIsPreparedIff(e, req0, ofs, cnt);
      }
    }

    /** Every bio gets memory and takes at least one page. */
    static ghost predicate Roomy(rooms: nat -> BioRoom) {
      forall k: nat, n: nat | n > 0 :: Halved(n, rooms(k).halvings) > 0 && rooms(k).pages > 0
    }

    /** Read consecutive sectors of the original device; what reaches past its end fails. */
    method ReadAt(at: nat, rooms: nat -> BioRoom) returns (st: Status, arr: PageArray<Sector>)
      requires Valid()
      ensures Valid() && State() == old(State())
      ensures arr.Valid() && fresh(arr) && fresh(arr.pages) && arr.pageLen == SECTORS_IN_PAGE
      ensures st == Success || st == EIO
      ensures st == Success ==> at + blk <= |origBlkDev.data| && arr.Flat() == origBlkDev.data[at..at + blk]
      ensures at + blk <= |origBlkDev.data| && Roomy(rooms) ==> st == Success
    {
      ghost var chunks, blocks := snapstore.pool.Chunks(), storeBlockMap.Map();
      st, arr := ReadWhole(origBlkDev, at, blk, rooms);
      assert snapstore.pool.Chunks() == chunks && storeBlockMap.Map() == blocks;
    }

    /** Read one block of the original device into a page array. */
    method ReadBlock(b: nat, rooms: nat -> BioRoom) returns (st: Status, arr: PageArray<Sector>)
      requires Valid()
      ensures Valid() && State() == old(State()) && fresh(arr.pages) && (st == Success || st == EIO)
      ensures st == Success ==> (b + 1) * blk <= |origBlkDev.data| && HoldsBlock(arr, origBlkDev.data, blk, b)
      ensures (b + 1) * blk <= |origBlkDev.data| && Roomy(rooms) ==> st == Success
    {
      assert b * blk + blk == (b + 1) * blk;
      st, arr := ReadAt(b * blk, rooms);
      if st == Success {
        WholeBlock(origBlkDev.data, blk, b);
      }
    }

    /** `blk_deferred_request_read_original`: all blocks of a request into their buffers. */
    method ReadOriginal(req: seq<Dio>, rooms: nat -> BioRoom, f: Faults)
      returns (st: Status, buffs: seq<PageArray<Sector>>)
      requires Valid()
      ensures Valid() && State() == old(State()) && (st == Success || st == EIO)
      ensures st == Success ==>
                && ReadWorks(State(), req, f) && |buffs| == |req|
                && forall k | 0 <= k < |req| :: HoldsBlock(buffs[k], origBlkDev.data, blk, req[k].block)
      ensures ReadWorks(State(), req, f) && Roomy(rooms) ==> st == Success
    {
      buffs := [];
      var k := 0;
      while k < |req|
        invariant 0 <= k <= |req| && Valid() && State() == old(State())
        invariant |buffs| == k && forall j | 0 <= j < k :: HoldsBlock(buffs[j], origBlkDev.data, blk, req[j].block)
        invariant forall j | 0 <= j < k :: (req[j].block + 1) * blk <= |origBlkDev.data|
      {
        var res, arr := ReadBlock(req[k].block, rooms);
        if res != Success { return EIO, []; }
        buffs := buffs + [arr];
        k := k + 1;
      }
      st := if f.readOk then Success else EIO;
    }

    /** One block of `blk_deferred_request_store_file`: the buffer, through the block's ranges. */
    method StoreBlock(d: BlkDescr, arr: PageArray<Sector>, rooms: nat -> BioRoom)
      requires Valid() && Roomy(rooms) && arr.Valid() && arr.pageLen == SECTORS_IN_PAGE
      requires |Place(d)| <= arr.Size() && forall k | 0 <= k < |Place(d)| :: Place(d)[k] < |snapstore.blkDev.data|
      modifies snapstore.blkDev
      ensures Valid() && arr.Flat() == old(arr.Flat())
      ensures State() == var e := old(State()); e.(store := Scatter(e.store, Place(d), arr.Flat()[..|Place(d)|]))
    {
      ghost var chunks, blocks := snapstore.pool.Chunks(), storeBlockMap.Map();
      StoreRanges(snapstore.blkDev, d.ranges, arr, rooms);
      assert snapstore.pool.Chunks() == chunks && storeBlockMap.Map() == blocks;
    }

    /** All blocks of `blk_deferred_request_store_file`. */
    method StoreFile(req: seq<Dio>, buffs: seq<PageArray<Sector>>, rooms: nat -> BioRoom)
      requires Valid() && Roomy(rooms) && Storable(req, blk, |snapstore.blkDev.data|) && |buffs| == |req|
      requires forall k | 0 <= k < |req| :: HoldsBlock(buffs[k], origBlkDev.data, blk, req[k].block)
      modifies snapstore.blkDev
      ensures Valid() && State() == StoreAll(old(State()), req)
    {
      var k := 0;
      ghost var s := State();
      ghost var want := StoreAll(s, req);
      assert req[0..] == req;
      while k < |req|
        invariant 0 <= k <= |req| && Valid() && s == State() && |s.store| == |old(snapstore.blkDev.data)|
        invariant origBlkDev.data == old(origBlkDev.data)
        invariant forall j | k <= j < |req| :: HoldsBlock(buffs[j], origBlkDev.data, blk, req[j].block)
        invariant StoreAll(s, req[k..]) == want
      {
        StoreNext(req[k], buffs[k], rooms);
        assert req[k..][0] == req[k] && req[k..][1..] == req[k + 1..];
        s := State();
        k := k + 1;
      }
    }

    method StoreNext(dio: Dio, arr: PageArray<Sector>, rooms: nat -> BioRoom)
      requires Valid() && Roomy(rooms) && Storable([dio], blk, |snapstore.blkDev.data|)
      requires HoldsBlock(arr, origBlkDev.data, blk, dio.block)
      modifies snapstore.blkDev
      ensures Valid()
      ensures var e := old(State());
              State() == e.(store := Scatter(e.store, Place(dio.descr), BlockData(e.orig, e.blk, dio.block)))
    {
      assert [dio][0] == dio;
      StoreBlock(dio.descr, arr, rooms);
      assert arr.Flat()[..|Place(dio.descr)|] == arr.Flat();
    }

    /** `snapstore_device_store`. */
    method Store(req: seq<Dio>, buffs: seq<PageArray<Sector>>, rooms: nat -> BioRoom, f: Faults) returns (st: Status)
      requires Valid() && Roomy(rooms) && Storable(req, blk, |snapstore.blkDev.data|) && |buffs| == |req|
      requires forall k | 0 <= k < |req| :: HoldsBlock(buffs[k], origBlkDev.data, blk, req[k].block)
      modifies this, snapstore.blkDev
      ensures Valid()
      ensures (State(), st) == var e := old(State());
                if f.storeOk then (StoreAll(e, req), Success)
                else (SetCorrupted(e.(store := Scatter(e.store, RequestPlaces(req), f.junk)), EIO), EIO)
    {
      if f.storeOk {
        StoreFile(req, buffs, rooms);
        return Success;
      }
      SetStore(Scatter(snapstore.blkDev.data, RequestPlaces(req), f.junk));
      MarkCorrupted(EIO);
      return EIO;
    }

    /** New contents of the snapstore device. */
    method SetStore(data: seq<Sector>)
      requires Valid()
      modifies snapstore.blkDev
      ensures Valid() && State() == old(State()).(store := data)
    {
      ghost var chunks, blocks := snapstore.pool.Chunks(), storeBlockMap.Map();
      snapstore.blkDev.data := data;
      assert snapstore.pool.Chunks() == chunks && storeBlockMap.Map() == blocks;
    }

    /**
     * Reading the original blocks of a request and storing them.  A bio that takes no page fails the
     * read; while storing it would stop the kernel, so there `storeRooms` must be roomy.
     */
    method CopyOut(req: seq<Dio>, readRooms: nat -> BioRoom, storeRooms: nat -> BioRoom, f: Faults)
      returns (st: Status, ghost g: Faults)
      requires Valid() && Roomy(storeRooms) && WellFormed(State()) && ReqOk(State(), req)
      modifies this, snapstore.blkDev
      ensures Valid() && (State(), st) == E.CopyOut(old(State()), req, g)
      ensures (g == f || g == f.(readOk := false)) && (Roomy(readRooms) ==> g == f)
      ensures st == Success ==> f.readOk && f.storeOk && H.AllWhole(State(), req)
      ensures f.readOk && f.storeOk && Roomy(readRooms) && H.AllWhole(State(), req) ==> st == Success
      ensures st == Success ==> corrupted == old(corrupted) && H.KeepsAll(old(State()), State(), req)
    {
      ghost var e := State();
      RequestStorable(e, req);
      var buffs;
      st, buffs := ReadOriginal(req, readRooms, f);
      if st == Success {
        g := f;
        st := Store(req, buffs, storeRooms, f);
      } else {
        g := if ReadWorks(State(), req, f) then f.(readOk := false) else f;
      }
      CopyDone(e, req, g);
    }

    /** `_snapstore_device_copy_on_write`. */
    method CopyOnWrite(ofs: nat, cnt: nat, readRooms: nat -> BioRoom, storeRooms: nat -> BioRoom, f: Faults)
      returns (st: Status, ghost g: Faults)
      requires Valid() && Roomy(storeRooms) && WellFormed(State()) && cnt > 0
      modifies this, snapstore, snapstore.blkDev, snapstore.pool`takeCnt, storeBlockMap, storeBlockMap.Repr
      ensures Valid() && fresh(storeBlockMap.Repr - old(storeBlockMap.Repr))
      ensures var (e, req, st1) := E.CopyOnWrite(old(State()), ofs, cnt, g, map[]); State() == e && st == st1
      ensures (g == f || g == f.(readOk := false)) && (Roomy(readRooms) ==> g == f)
    {
      PrepareKeeps(State(), [], FirstBlock(blk, ofs), LastBlock(blk, ofs, cnt), map[]);
      var req;
      req, st := PrepareRequests([], ofs, cnt);
      g := f;
      if st == Success && req != [] {
        st, g := CopyOut(req, readRooms, storeRooms, f);
      }
    }

    /** The descriptor of a block, if it has one. */
    method FindBlock(block: nat) returns (d: Option<BlkDescr>)
      requires Valid() && block <= storeBlockMap.last
      ensures Valid() && State() == old(State())
      ensures d == if block in State().blocks then Some(State().blocks[block]) else None
    {
      ghost var e := State();
      var res;
      res, d := storeBlockMap.Get(block);
      assert State() == e;
    }

    /** The piece of a request in one block, and where that block is stored. */
    method NextBlock(ofs: nat, cnt: nat, block: nat, start: nat) returns (count: nat, d: Option<BlkDescr>)
      requires Valid() && Readable(State()) && ofs + cnt <= |origBlkDev.data|
      requires Touches(blk, ofs, cnt, block) && start == Reached(blk, ofs, cnt, block)
      ensures Valid() && State() == old(State()) && count > 0
      ensures start + count == Reached(blk, ofs, cnt, block + 1) <= cnt
      ensures PieceOf(blk, ofs + start, count, block, OffsetIn(blk, ofs + start))
      ensures d == if block in State().blocks then Some(State().blocks[block]) else None
    {
      PieceReaches(blk, ofs, cnt, block);
      BlockInMap(State(), ofs, cnt, block);
      count := PieceCount(blk, ofs, cnt, block, start);
      d := FindBlock(block);
    }

    /** The bios for the piece of an image read in one block. */
    method ReadPiece(segs: seq<nat>, room: Room, ofs: nat, cnt: nat, block: nat, start: nat,
        ghost ios0: seq<Io>, ghost buf: seq<Sector>)
      returns (st: Status, next: nat, ios: seq<Io>)
      requires Valid() && Readable(State()) && Sized(segs, cnt) && ofs + cnt <= |origBlkDev.data|
      requires Touches(blk, ofs, cnt, block) && |buf| == cnt && start == Reached(blk, ofs, cnt, block)
      requires ReadSoFar(State(), buf, segs, ios0, ofs, start)
      ensures Valid() && State() == old(State()) && next == Reached(blk, ofs, cnt, block + 1)
      ensures (st == Success || st == EIO) && (Willing(segs, room) ==> st == Success)
      ensures st == Success ==> ReadSoFar(State(), buf, segs, ios0 + ios, ofs, next)
    {
      ghost var e := State();
      var count, d := NextBlock(ofs, cnt, block, start);
      next := start + count;
      st, ios := AnyPiece(segs, room, d, ofs, cnt, block, start, count, OffsetIn(blk, ofs + start), e, ios0, buf);
      assert State() == e;
    }

    /** The loop of `snapstore_device_read` over the blocks of a request. */
    method BuildRead(segs: seq<nat>, room: Room, ofs: nat, cnt: nat, ghost buf: seq<Sector>)
      returns (st: Status, ios: seq<Io>)
      requires Valid() && Readable(State()) && Sized(segs, cnt)
      requires ofs + cnt <= |origBlkDev.data| && cnt > 0 && |buf| == cnt
      ensures Valid() && State() == old(State())
      ensures (st == Success || st == EIO) && (Willing(segs, room) ==> st == Success)
      ensures st == Success ==> ReadSoFar(State(), buf, segs, ios, ofs, cnt)
    {
      var blockIndex, blockIndexLast := FirstBlock(blk, ofs), LastBlock(blk, ofs, cnt);
      var blkOfsStart := 0;
      st, ios := Success, [];
      ghost var e := State();
      DivMonotone(ofs, ofs + cnt - 1, blk);
      PieceReaches(blk, ofs, cnt, blockIndex);
      NothingRead(e, buf, segs, ofs);
      while blockIndex <= blockIndexLast
        invariant Valid() && State() == e && st == Success && FirstBlock(blk, ofs) <= blockIndex <= blockIndexLast + 1
        invariant blkOfsStart == Reached(blk, ofs, cnt, blockIndex) && ReadSoFar(e, buf, segs, ios, ofs, blkOfsStart)
        decreases blockIndexLast + 1 - blockIndex
      {
        var more;
        st, blkOfsStart, more := ReadPiece(segs, room, ofs, cnt, blockIndex, blkOfsStart, ios, buf);
        if st != Success { return; }
        ios := ios + more;
        blockIndex := blockIndex + 1;
      }
    }

    /**
     * `snapstore_device_read` under the lock: the bios of all pieces are submitted together at the end,
     * and the flag is not looked at again.
     */
    method ReadAdmitted(segs: seq<nat>, room: Room, ofs: nat, cnt: nat) returns (st: Status, data: seq<Sector>)
      requires Valid() && WellFormed(State()) && Sized(segs, cnt) && ofs + cnt <= |origBlkDev.data| && cnt > 0
      ensures Valid() && State() == old(State())
      ensures (st == Success || st == EIO) && (Willing(segs, room) ==> st == Success)
      ensures data == if st == Success then ShownSlice(State(), ofs, cnt) else []
    {
      ghost var e := State();
      var buf := seq(cnt, _ => 0);
      WellFormedReadable(e);
      var ios;
      st, ios := BuildRead(segs, room, ofs, cnt, buf);
      if st != Success { return st, []; }
      data := LoadedIos(buf, origBlkDev.data, snapstore.blkDev.data, segs, ios);
      WholeRead(buf, e, ofs, cnt);
    }

    /** `snapstore_device_read`: the test of the flag, then the part under the lock. */
    method Read(segs: seq<nat>, room: Room, ofs: nat, cnt: nat) returns (st: Status, data: seq<Sector>)
      requires Valid() && WellFormed(State()) && Sized(segs, cnt) && ofs + cnt <= |origBlkDev.data| && cnt > 0
      modifies `reqFailedCnt
      ensures Valid() && State() == Tested(old(State()))
      ensures if corrupted then st == ENoData
              else (st == Success || st == EIO) && (Willing(segs, room) ==> st == Success)
      ensures data == if st == Success then ShownSlice(State(), ofs, cnt) else []
    {
      var bad := IsCorrupted();
      if bad { return ENoData, []; }
      st, data := ReadAdmitted(segs, room, ofs, cnt);
    }

    /** The bios for the piece of an image write in one block; none if the block is not mapped. */
    method WritePiece(segs: seq<nat>, room: Room, ofs: nat, data: seq<Sector>, block: nat, start: nat,
            bios0: seq<NewBio>)
      returns (st: Status, next: nat, bios: seq<NewBio>)
      requires Valid() && Readable(State()) && Sized(segs, |data|) && ofs + |data| <= |origBlkDev.data|
      requires Touches(blk, ofs, |data|, block) && start == Reached(blk, ofs, |data|, block)
      requires WrittenSoFar(State(), data, segs, bios0, ofs, start)
      ensures Valid() && State() == old(State()) && next == Reached(blk, ofs, |data|, block + 1)
      ensures if st == Success then WrittenSoFar(State(), data, segs, bios, ofs, next)
              else st == EIO && (AllMapped(State(), ofs, |data|) ==> !Willing(segs, room))
    {
      ghost var e := State();
      var count, d := NextBlock(ofs, |data|, block, start);
      next := start + count;
      st, bios := SentIfMapped(segs, room, d, ofs, data, block, start, count, OffsetIn(blk, ofs + start), e, bios0);
      assert State() == e;
    }

    /** The loop of `snapstore_device_write` over the blocks of a request. */
    method BuildWrite(segs: seq<nat>, room: Room, ofs: nat, data: seq<Sector>) returns (st: Status, bios: seq<NewBio>)
      requires Valid() && Readable(State()) && Sized(segs, |data|)
      requires ofs + |data| <= |origBlkDev.data| && |data| > 0
      ensures Valid() && State() == old(State())
      ensures if st == Success then WrittenSoFar(State(), data, segs, bios, ofs, |data|)
              else st == EIO && (AllMapped(State(), ofs, |data|) ==> !Willing(segs, room))
    {
      var blockIndex, blockIndexLast := FirstBlock(blk, ofs), LastBlock(blk, ofs, |data|);
      var blkOfsStart := 0;
      st, bios := Success, [];
      ghost var e := State();
      DivMonotone(ofs, ofs + |data| - 1, blk);
      PieceReaches(blk, ofs, |data|, blockIndex);
      NothingWritten(e, data, segs, ofs);
      while blockIndex <= blockIndexLast
        invariant Valid() && State() == e && FirstBlock(blk, ofs) <= blockIndex <= blockIndexLast + 1 && st == Success
        invariant blkOfsStart == Reached(blk, ofs, |data|, blockIndex)
        invariant WrittenSoFar(e, data, segs, bios, ofs, blkOfsStart)
        decreases blockIndexLast + 1 - blockIndex
      {
        st, blkOfsStart, bios := WritePiece(segs, room, ofs, data, blockIndex, blkOfsStart, bios);
        if st != Success { break; }
        blockIndex := blockIndex + 1;
      }
    }

    /**
     * The second section of `snapstore_device_write`: nothing is submitted unless every block is mapped
     * and all bios can be built (`sent`).
     */
    method PutImage(segs: seq<nat>, room: Room, ofs: nat, data: seq<Sector>) returns (st: Status, ghost sent: bool)
      requires Valid() && WellFormed(State()) && Sized(segs, |data|) && ofs + |data| <= |origBlkDev.data| && |data| > 0
      modifies this, snapstore.blkDev
      ensures Valid() && (Willing(segs, room) ==> sent)
      ensures (State(), st)
              == if sent then ImageOverwrite(old(State()), ofs, data) else (SetCorrupted(old(State()), EIO), EIO)
    {
      WellFormedReadable(State());
      var bios;
      st, bios := BuildWrite(segs, room, ofs, data);
      sent := st == Success || !AllMapped(State(), ofs, |data|);
      if st != Success {
        MarkCorrupted(EIO);
        return;
      }
      assert data[..|data|] == data;
      SetStore(SentBios(snapstore.blkDev.data, data, segs, bios));
    }

    /**
     * `snapstore_device_write`: the test of the flag, then copy the blocks, then write into the snapstore.
     * That copying failed does not stop the write.
     */
    method Write(segs: seq<nat>, room: Room, readRooms: nat -> BioRoom, storeRooms: nat -> BioRoom, f: Faults,
        ofs: nat, data: seq<Sector>)
      returns (st: Status, ghost g: Faults, ghost sent: bool)
      requires Valid() && Roomy(storeRooms) && WellFormed(State()) && Sized(segs, |data|)
      requires ofs + |data| <= |origBlkDev.data| && |data| > 0
      modifies this, snapstore, snapstore.blkDev, snapstore.pool`takeCnt, storeBlockMap, storeBlockMap.Repr
      ensures Valid() && fresh(storeBlockMap.Repr - old(storeBlockMap.Repr))
      ensures (g == f || g == f.(readOk := false)) && (Roomy(readRooms) ==> g == f) && (Willing(segs, room) ==> sent)
      ensures var e := old(State());
              var e1 := E.CopyOnWrite(e, ofs, |data|, g, map[]).0;
              (State(), st) == if e.corrupted then (Tested(e), ENoData)
                               else if sent then ImageOverwrite(e1, ofs, data)
                               else (SetCorrupted(e1, EIO), EIO)
    {
      g, sent := f, true;
      var bad := IsCorrupted();
      if bad { return ENoData, g, sent; }
      ghost var e := State();
      st, g := CopyOnWrite(ofs, |data|, readRooms, storeRooms, f);
      CowWellFormed(e, ofs, |data|, g);
      st, sent := PutImage(segs, room, ofs, data);
    }
  }

  lemma CopyDone(e: Engine, req: seq<Dio>, g: Faults)
    requires WellFormed(e) && ReqOk(e, req)
    ensures var (e1, st) := E.CopyOut(e, req, g);
            && e1.blk == e.blk && e1.orig == e.orig
            && (st == Success <==> g.readOk && g.storeOk && H.AllWhole(e, req))
            && (st == Success ==> e1.corrupted == e.corrupted && H.KeepsAll(e, e1, req))
  {
    H.CopyOutWorksIff(e, req, g);
    if E.CopyOut(e, req, g).1 == Success {
      H.CopyOutStores(e, req, g);
    }
  }

  lemma NothingRead(e: Engine, buf: seq<Sector>, segs: seq<nat>, ofs: nat)
    ensures ReadSoFar(e, buf, segs, [], ofs, 0)
  {
  }

  lemma NothingWritten(e: Engine, data: seq<Sector>, segs: seq<nat>, ofs: nat)
    ensures WrittenSoFar(e, data, segs, [], ofs, 0)
  {
  }

  lemma PieceNotMapped(e: Engine, ofs: nat, cnt: nat, block: nat)
    requires Touches(e.blk, ofs, cnt, block) && block !in e.blocks
    ensures !AllMapped(e, ofs, cnt)
  {
    PieceIs(e.blk, ofs, cnt, block);
    var at := ofs + PieceStart(e.blk, ofs, block);
    assert BlockIn(e.blk, at) == block;
    assert !Mapped(e, at);
  }

  lemma CowWellFormed(e: Engine, ofs: nat, cnt: nat, f: Faults)
    requires WellFormed(e) && cnt > 0
    ensures var e1 := E.CopyOnWrite(e, ofs, cnt, f, map[]).0; WellFormed(e1) && |e1.orig| == |e.orig|
  {
    PrepareKeeps(e, [], FirstBlock(e.blk, ofs), LastBlock(e.blk, ofs, cnt), map[]);
    var (e1, req, st) := Prepare(e, [], ofs, cnt, map[]);
    StoreAllKeeps(e1, req);
    SameStoreSize(e1, CopyOut(e1, req, f).0);
  }

  lemma SameStoreSize(e: Engine, e1: Engine)
    requires WellFormed(e) && |e1.store| == |e.store|
    requires e1 == e.(store := e1.store, corrupted := e1.corrupted, err := e1.err, failed := e1.failed)
    ensures WellFormed(e1)
  {
  }

  lemma WholeRead(buf: seq<Sector>, e: Engine, ofs: nat, cnt: nat)
    requires |buf| == cnt
    ensures Overwrite(buf, 0, ShownPart(e, ofs, cnt)) == ShownPart(e, ofs, cnt)
  {
  }

  /** The bios so far write the first `n` sectors of an image write. */
  ghost predicate WrittenSoFar(e: Engine, data: seq<Sector>, segs: seq<nat>, bios: seq<NewBio>, ofs: nat, n: nat) {
    && n <= |data| && AllMapped(e, ofs, n)
    && SentBios(e.store, data, segs, bios) == Scatter(e.store, Targets(e, ofs, n), data[..n])
  }

  method SentPiece(segs: seq<nat>, room: Room, d: BlkDescr, ofs: nat, data: seq<Sector>, ghost block: nat,
      start: nat, count: nat, o: nat, ghost e: Engine, bios0: seq<NewBio>)
    returns (st: Status, bios: seq<NewBio>)
    requires Readable(e) && Sized(segs, |data|) && start + count <= |data|
    requires PieceOf(e.blk, ofs + start, count, block, o) && block in e.blocks && e.blocks[block] == d
    requires WrittenSoFar(e, data, segs, bios0, ofs, start)
    ensures (st == Success || st == EIO) && (Willing(segs, room) ==> st == Success)
    ensures st == Success ==> WrittenSoFar(e, data, segs, bios, ofs, start + count)
  {
    var more;
    st, more := RedirectStore(segs, room, d, o, start, count);
    if st != Success { return st, bios0; }
    PieceSent(e, data, segs, bios0, more, Targets(e, ofs, start), Place(d)[o..o + count]);
    TargetsMore(e, ofs, start, count, block, o);
    bios := bios0 + more;
  }

  method SentIfMapped(segs: seq<nat>, room: Room, d: Option<BlkDescr>, ofs: nat, data: seq<Sector>, ghost block: nat,
      start: nat, count: nat, o: nat, ghost e: Engine, bios0: seq<NewBio>)
    returns (st: Status, bios: seq<NewBio>)
    requires Readable(e) && Sized(segs, |data|) && start + count <= |data| && Touches(e.blk, ofs, |data|, block)
    requires PieceOf(e.blk, ofs + start, count, block, o)
    requires d == if block in e.blocks then Some(e.blocks[block]) else None
    requires WrittenSoFar(e, data, segs, bios0, ofs, start)
    ensures if st == Success then WrittenSoFar(e, data, segs, bios, ofs, start + count)
            else st == EIO && (AllMapped(e, ofs, |data|) ==> !Willing(segs, room))
  {
    if d.None? {
      PieceNotMapped(e, ofs, |data|, block);
      return EIO, bios0;
    }
    st, bios := SentPiece(segs, room, d.value, ofs, data, block, start, count, o, e, bios0);
  }

  /** How much of the request lies before block `block`; all of it once the last block is passed. */
  function Reached(blk: BlockSize, ofs: nat, cnt: nat, block: nat): nat {
    if cnt > 0 && block > LastBlock(blk, ofs, cnt) then cnt else PieceStart(blk, ofs, block)
  }

  lemma PieceReaches(blk: BlockSize, ofs: nat, cnt: nat, block: nat)
    requires Touches(blk, ofs, cnt, block)
    ensures var start := Reached(blk, ofs, cnt, block);
            var count := PieceCount(blk, ofs, cnt, block, start);
            && count > 0 && start + count == Reached(blk, ofs, cnt, block + 1) <= cnt
            && PieceOf(blk, ofs + start, count, block, OffsetIn(blk, ofs + start))
    ensures block == FirstBlock(blk, ofs) ==> Reached(blk, ofs, cnt, block) == 0
  {
    PiecesExact(blk, ofs, cnt, block);
    PieceIs(blk, ofs, cnt, block);
  }

  /** What the walks below need: every block has an index, every mapped block its whole place. */
  ghost predicate Readable(e: Engine) {
    |e.orig| <= e.last * e.blk && forall b | b in e.blocks :: |Place(e.blocks[b])| == e.blk
  }

  lemma WellFormedReadable(e: Engine)
    requires WellFormed(e)
    ensures Readable(e)
  {
  }

  /** The bios so far read the first `n` sectors of the image. */
  ghost predicate ReadSoFar(e: Engine, buf: seq<Sector>, segs: seq<nat>, ios: seq<Io>, ofs: nat, n: nat) {
    LoadedIos(buf, e.orig, e.store, segs, ios) == Overwrite(buf, 0, ShownPart(e, ofs, n))
  }

  method StoredPiece(segs: seq<nat>, room: Room, d: BlkDescr, ofs: nat, cnt: nat, ghost block: nat,
      start: nat, count: nat, o: nat, ghost e: Engine, ghost ios0: seq<Io>, ghost buf: seq<Sector>)
    returns (st: Status, ios: seq<Io>)
    requires Readable(e) && Sized(segs, cnt) && |buf| == cnt && start + count <= cnt
    requires PieceOf(e.blk, ofs + start, count, block, o) && block in e.blocks && e.blocks[block] == d
    requires ReadSoFar(e, buf, segs, ios0, ofs, start)
    ensures (st == Success || st == EIO) && (Willing(segs, room) ==> st == Success)
    ensures st == Success ==> ReadSoFar(e, buf, segs, ios0 + ios, ofs, start + count)
  {
    StoredShown(e, ofs + start, count, block, o);
    var bios;
    st, bios := RedirectStore(segs, room, d, o, start, count);
    if st != Success { return st, []; }
    PieceLoaded(e, buf, segs, ios0, true, bios, ofs, start, Place(d)[o..o + count]);
    ios := Ios(true, bios);
  }

  method OriginalPiece(segs: seq<nat>, room: Room, ofs: nat, cnt: nat, ghost block: nat,
      start: nat, count: nat, ghost o: nat, ghost e: Engine, ghost ios0: seq<Io>, ghost buf: seq<Sector>)
    returns (st: Status, ios: seq<Io>)
    requires Sized(segs, cnt) && |buf| == cnt && start + count <= cnt && count > 0
    requires PieceOf(e.blk, ofs + start, count, block, o) && block !in e.blocks
    requires ReadSoFar(e, buf, segs, ios0, ofs, start)
    ensures (st == Success || st == EIO) && (Willing(segs, room) ==> st == Success)
    ensures st == Success ==> ReadSoFar(e, buf, segs, ios0 + ios, ofs, start + count)
  {
    OriginalShown(e, ofs + start, count, block, o);
    var bios;
    st, bios := RedirectPart(segs, ofs + start, start, count, room);
    if st != Success { return st, []; }
    AllBefore(segs, start, count);
    StraightIsSpan(ofs + start, start, count);
    PieceLoaded(e, buf, segs, ios0, false, bios, ofs, start, Span(Range(ofs + start, count)));
    ios := Ios(false, bios);
  }

  /** A piece comes from the snapstore if its block is stored, and from the original otherwise. */
  method AnyPiece(segs: seq<nat>, room: Room, d: Option<BlkDescr>, ofs: nat, cnt: nat, ghost block: nat,
      start: nat, count: nat, o: nat, ghost e: Engine, ghost ios0: seq<Io>, ghost buf: seq<Sector>)
    returns (st: Status, ios: seq<Io>)
    requires Readable(e) && Sized(segs, cnt) && |buf| == cnt && start + count <= cnt && count > 0
    requires PieceOf(e.blk, ofs + start, count, block, o)
    requires d == if block in e.blocks then Some(e.blocks[block]) else None
    requires ReadSoFar(e, buf, segs, ios0, ofs, start)
    ensures (st == Success || st == EIO) && (Willing(segs, room) ==> st == Success)
    ensures st == Success ==> ReadSoFar(e, buf, segs, ios0 + ios, ofs, start + count)
  {
    if d.Some? {
      st, ios := StoredPiece(segs, room, d.value, ofs, cnt, block, start, count, o, e, ios0, buf);
    } else {
      st, ios := OriginalPiece(segs, room, ofs, cnt, block, start, count, o, e, ios0, buf);
    }
  }

  lemma BlockInMap(e: Engine, ofs: nat, cnt: nat, block: nat)
    requires Readable(e) && Touches(e.blk, ofs, cnt, block) && ofs + cnt <= |e.orig|
    ensures block <= e.last
  {
    BlockMeets(e.blk, ofs, cnt, block);
    MulCancelLess(block, e.last, e.blk);
  }

  /** Each block of the request has its place on the snapstore device. */
  ghost predicate Storable(req: seq<Dio>, blk: BlockSize, size: nat) {
    forall k | 0 <= k < |req| :: HasPlace(req[k].descr, blk, size)
  }

  ghost predicate HasPlace(d: BlkDescr, blk: BlockSize, size: nat) {
    |Place(d)| == blk && forall j | 0 <= j < |Place(d)| :: Place(d)[j] < size
  }

  lemma RequestStorable(e: Engine, req: seq<Dio>)
    requires WellFormed(e) && ReqOk(e, req)
    ensures Storable(req, e.blk, |e.store|)
  {
    forall k | 0 <= k < |req|
      ensures HasPlace(req[k].descr, e.blk, |e.store|)
    {
      PlaceDistinct(e, req[k].block);
    }
  }

  /** One range of a block, behind the ranges that hold `places`. */
  method StoreRange(dev: BlockDevice, rg: Range, arr: PageArray<Sector>, pageArrayOfs: nat, rooms: nat -> BioRoom,
      ghost data: seq<Sector>, ghost places: seq<nat>)
    requires SnapstoreDevice.Roomy(rooms) && arr.Valid() && arr.pageLen == SECTORS_IN_PAGE
    requires pageArrayOfs == |places| && |places| + rg.cnt <= arr.Size() && (rg.cnt > 0 ==> rg.ofs + rg.cnt <= |data|)
    requires dev.data == Scatter(data, places, arr.Flat()[..|places|])
    modifies dev
    ensures arr.Flat() == old(arr.Flat())
    ensures dev.data == Scatter(data, places + Span(rg), arr.Flat()[..|places| + rg.cnt])
  {
    if rg.cnt > 0 { // an empty range moves nothing
      StoredMore(data, places, rg, arr.Flat());
      var processed := SubmitPages(true, dev, arr, pageArrayOfs, rg.ofs, rg.cnt, rooms);
    } else {
      assert places + Span(rg) == places && arr.Flat()[..|places| + rg.cnt] == arr.Flat()[..|places|];
    }
  }

  /** The loop over the ranges of one block. */
  method StoreRanges(dev: BlockDevice, ranges: seq<Range>, arr: PageArray<Sector>, rooms: nat -> BioRoom)
    requires SnapstoreDevice.Roomy(rooms) && arr.Valid() && arr.pageLen == SECTORS_IN_PAGE
    requires |Sectors(ranges)| <= arr.Size() && forall k | 0 <= k < |Sectors(ranges)| :: Sectors(ranges)[k] < |dev.data|
    modifies dev
    ensures arr.Flat() == old(arr.Flat())
    ensures dev.data == Scatter(old(dev.data), Sectors(ranges), arr.Flat()[..|Sectors(ranges)|])
  {
    var pageArrayOfs, i := 0, 0;
    ghost var flat, data, places := arr.Flat(), dev.data, [];
    while i < |ranges|
      invariant 0 <= i <= |ranges| && places == Sectors(ranges[..i]) && pageArrayOfs == |places| <= |Sectors(ranges)|
      invariant arr.Flat() == flat && dev.data == Scatter(data, places, flat[..pageArrayOfs])
    {
      RangeOfBlock(ranges, i, |data|);
      StoreRange(dev, ranges[i], arr, pageArrayOfs, rooms, data, places);
      places := places + Span(ranges[i]);
      pageArrayOfs := pageArrayOfs + ranges[i].cnt;
      i := i + 1;
    }
    assert ranges[..i] == ranges;
  }

  lemma RangeOfBlock(ranges: seq<Range>, i: nat, size: nat)
    requires i < |ranges| && forall k | 0 <= k < |Sectors(ranges)| :: Sectors(ranges)[k] < size
    ensures Sectors(ranges[..i + 1]) == Sectors(ranges[..i]) + Span(ranges[i])
    ensures |Sectors(ranges[..i])| + ranges[i].cnt <= |Sectors(ranges)|
    ensures ranges[i].cnt > 0 ==> ranges[i].ofs + ranges[i].cnt <= size
  {
    assert ranges[..i + 1] == ranges[..i] + [ranges[i]] && ranges == ranges[..i + 1] + ranges[i + 1..];
    SectorsSnoc(ranges[..i], ranges[i]);
    SectorsAppend(ranges[..i + 1], ranges[i + 1..]);
    if ranges[i].cnt > 0 {
      var k := |Sectors(ranges[..i])| + ranges[i].cnt - 1;
      assert Sectors(ranges)[k] == ranges[i].ofs + ranges[i].cnt - 1;
    }
  }

  /** Storing one more range scatters the next sectors of the buffer. */
  lemma StoredMore(data: seq<Sector>, places: seq<nat>, rg: Range, flat: seq<Sector>)
    requires |places| + rg.cnt <= |flat| && rg.ofs + rg.cnt <= |data|
    ensures Overwrite(Scatter(data, places, flat[..|places|]), rg.ofs, flat[|places|..|places| + rg.cnt])
         == Scatter(data, places + Span(rg), flat[..|places| + rg.cnt])
  {
    var a, b := flat[..|places|], flat[|places|..|places| + rg.cnt];
    Prefixes(flat, |places|, rg.cnt);
    ScatterAppend(data, places, a, Span(rg), b);
    ScatterSpan(Scatter(data, places, a), rg.ofs, b);
  }

  /** The buffer holds the original contents of block `b`. */
  ghost predicate HoldsBlock(arr: PageArray<Sector>, orig: seq<Sector>, blk: BlockSize, b: nat)
    reads arr.pages
  {
    arr.Valid() && arr.pageLen == SECTORS_IN_PAGE && arr.Flat() == BlockData(orig, blk, b)
  }

  lemma WholeBlock(data: seq<Sector>, blk: BlockSize, b: nat)
    requires (b + 1) * blk <= |data|
    ensures b * blk + blk <= |data| && data[b * blk..b * blk + blk] == BlockData(data, blk, b)
  {
    var base := b * blk;
    assert base + blk == (b + 1) * blk;
    forall j | 0 <= j < blk
      ensures data[base..base + blk][j] == BlockData(data, blk, b)[j]
    {
      assert data[base..base + blk][j] == At(data, base + j);
    }
  }

  /** `cnt` sectors of a device into fresh pages; all of them, or an error. */
  method ReadWhole(dev: BlockDevice, at: nat, cnt: nat, rooms: nat -> BioRoom)
    returns (st: Status, arr: PageArray<Sector>)
    requires cnt % SECTORS_IN_PAGE == 0
    ensures arr.Valid() && fresh(arr) && fresh(arr.pages) && arr.pageLen == SECTORS_IN_PAGE
    ensures st == Success || st == EIO
    ensures st == Success ==> at + cnt <= |dev.data| && arr.Flat() == dev.data[at..at + cnt]
    ensures at + cnt <= |dev.data| && SnapstoreDevice.Roomy(rooms) ==> st == Success
  {
    arr := new PageArray<Sector>(SECTORS_IN_PAGE, cnt / SECTORS_IN_PAGE);
    assert arr.Size() == cnt;
    if at + cnt > |dev.data| { return EIO, arr; }
    ghost var flat := arr.Flat();
    var processed := SubmitPages(false, dev, arr, 0, at, cnt, rooms);
    if processed != cnt { return EIO, arr; }
    AllTransferred(dev.data, flat, at);
    st := Success;
  }

  lemma AllTransferred(data: seq<Sector>, flat: seq<Sector>, at: nat)
    requires at + |flat| <= |data|
    ensures Transferred(false, data, flat, 0, at, |flat|).1 == data[at..at + |flat|]
  {
  }

  /** Blocks of a device, counting a partial one. */
  method BlocksCount(capacity: nat, blk: BlockSize) returns (count: nat)
    ensures count == (capacity + blk - 1) / blk
  {
    var sectCnt := capacity;
    LastIsCeiling(sectCnt, blk);
    if sectCnt % blk != 0 {
      sectCnt := sectCnt + blk;
    }
    count := sectCnt / blk;
  }

  lemma LastIsCeiling(n: nat, blk: BlockSize)
    ensures (if n % blk != 0 then n + blk else n) / blk == (n + blk - 1) / blk
  {
    var q, r := n / blk, n % blk;
    DivBounds(n, blk);
    assert (q + 1) * blk == q * blk + blk;
    if r == 0 {
      DivModUnique(q, blk - 1, blk);
    } else {
      DivModUnique(q + 1, r, blk);
      DivModUnique(q + 1, r - 1, blk);
    }
  }
}
