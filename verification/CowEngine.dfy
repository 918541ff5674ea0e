/**
 * The lock-protected core of a snapshot store device (`snapstore_device.c`, `snapstore.c`,
 * `blk_deferred.c`), as functions on values: which blocks get copied, where their sectors go,
 * and what an image read or write sees.  The classes in `SnapstoreDevice.dfy` are proved to
 * compute these functions.
 */
module CowEngine {
  import opened Basics
  import opened Ranges

  type BlockSize = b: int | b > 0 witness 32

  /** A block descriptor of a file snapstore.  `id` is its position in the pool: the pointer's identity. */
  datatype BlkDescr = BlkDescr(id: nat, ranges: seq<Range>)

  /** One block of a copy request; an empty request is the source's NULL request. */
  datatype Dio = Dio(block: nat, descr: BlkDescr)

  datatype Engine = Engine(
    blk: BlockSize,             // SNAPSTORE_BLK_SIZE, in sectors
    orig: seq<Sector>,          // original device
    store: seq<Sector>,         // device that holds the snapstore file
    pool: seq<BlkDescr>,        // descriptors added so far
    taken: nat,                 // take_cnt
    others: set<nat>,           // descriptors the pool gave to other devices of the snapstore
    pipe: bool,                 // a control pipe is attached
    overflowed: nat,
    notified: nat,              // overflow notifications sent
    last: nat,                  // last index of store_block_map
    blocks: map<nat, BlkDescr>, // store_block_map
    corrupted: bool,
    err: Status,
    failed: nat)                // req_failed_cnt

  /**
   * What may happen to the snapstore outside this device's locks: a file is added, or another device
   * asks for a block; `late` marks a test of the overflow that came before the overflow.
   */
  datatype Outside = Grown(more: seq<BlkDescr>) | Taken(late: bool)

  /** What happens before a block is taken; `late` as above, for the test of this device. */
  datatype Gap = Gap(acts: seq<Outside>, late: bool)

  /** The gaps ahead of the blocks of a request; ahead of the blocks not named nothing happens. */
  type Gaps = map<nat, Gap>

  /** What device I/O did: `junk` is what a failed store leaves in the sectors it was to write. */
  datatype Faults = Faults(readOk: bool, storeOk: bool, junk: seq<Sector>)

  // ---- sectors ----

  function At(s: seq<Sector>, i: nat): Sector {
    if i < |s| then s[i] else 0
  }

  function Put(s: seq<Sector>, i: nat, v: Sector): (r: seq<Sector>)
    ensures |r| == |s|
    ensures forall k: nat :: At(r, k) == if k == i && i < |s| then v else At(s, k)
  {
    if i < |s| then s[i := v] else s
  }

  /** Writes `data` to the sectors `places`, first to last. */
  function Scatter(s: seq<Sector>, places: seq<nat>, data: seq<Sector>): (r: seq<Sector>)
    ensures |r| == |s|
    decreases |places|
  {
    if places == [] || data == [] then s
    else Scatter(Put(s, places[0], data[0]), places[1..], data[1..])
  }

  function Overwrite(s: seq<Sector>, ofs: nat, data: seq<Sector>): (r: seq<Sector>)
    ensures |r| == |s|
  {
    seq(|s|, i requires 0 <= i < |s| => if ofs <= i < ofs + |data| then data[i - ofs] else s[i])
  }

  // ---- where a device sector lives ----

  function Place(d: BlkDescr): seq<nat> {
    Sectors(d.ranges)
  }

  function Cell(d: BlkDescr, j: nat): nat {
    if j < |Place(d)| then Place(d)[j] else 0
  }

  /** Sector `i` as an image read returns it, blocks in `pending` being mapped but not stored yet. */
  function Shown(e: Engine, pending: set<nat>, i: nat): Sector {
    var b := i / e.blk;
    if b in e.blocks && b !in pending then At(e.store, Cell(e.blocks[b], i % e.blk)) else At(e.orig, i)
  }

  function Pending(req: seq<Dio>): set<nat> {
    set k | 0 <= k < |req| :: req[k].block
  }

  function BlockData(orig: seq<Sector>, blk: BlockSize, b: nat): (r: seq<Sector>)
    ensures |r| == blk
  {
    seq(blk, j requires 0 <= j < blk => At(orig, b * blk + j))
  }

  function FirstBlock(blk: BlockSize, ofs: nat): nat {
    ofs / blk
  }

  function LastBlock(blk: BlockSize, ofs: nat, cnt: nat): nat
    requires cnt > 0
  {
    (ofs + cnt - 1) / blk
  }

  predicate Touches(blk: BlockSize, ofs: nat, cnt: nat, b: nat) {
    cnt > 0 && FirstBlock(blk, ofs) <= b <= LastBlock(blk, ofs, cnt)
  }

  // ---- operations ----

  function SetCorrupted(e: Engine, st: Status): Engine {
    if e.corrupted then e else e.(corrupted := true, err := st, failed := 0)
  }

  function GetEmptyBlock(e: Engine, late: bool): (Engine, Option<BlkDescr>) {
    if e.overflowed > 0 && !late then (e, None)
    else if e.taken < |e.pool| then (e.(taken := e.taken + 1), Some(e.pool[e.taken]))
    else
      var notified := if e.overflowed == 0 && e.pipe then e.notified + 1 else e.notified;
      (e.(overflowed := e.overflowed + 1, notified := notified), None)
  }

  /** Blocks are added only if they overlap nothing the pool holds. */
  function OneOutside(e: Engine, act: Outside): Engine {
    match act
    case Grown(more) => if PoolOk(e.blk, |e.store|, e.pool + more) then e.(pool := e.pool + more) else e
    case Taken(late) =>
      var (e1, d) := GetEmptyBlock(e, late);
      if d.Some? then e1.(others := e1.others + {e.taken}) else e1
  }

  function AllOutside(e: Engine, acts: seq<Outside>): Engine
    decreases |acts|
  {
    if acts == [] then e else AllOutside(OneOutside(e, acts[0]), acts[1..])
  }

  function AfterGap(e: Engine, gaps: Gaps, b: nat): Engine {
    if b in gaps then AllOutside(e, gaps[b].acts) else e
  }

  predicate TestedLate(gaps: Gaps, b: nat) {
    b in gaps && gaps[b].late
  }

  function AddRequest(e: Engine, req: seq<Dio>, b: nat, late: bool): (Engine, seq<Dio>, Status) {
    match GetEmptyBlock(e, late)
    case (e1, None) => (e1, req, ENoData)
    case (e1, Some(d)) =>
      if b > e1.last then (e1, req, EInval)
      else (e1.(blocks := e1.blocks[b := d]), req + [Dio(b, d)], Success)
  }

  function PrepareRequests(e: Engine, req: seq<Dio>, inx: nat, last: int, gaps: Gaps): (Engine, seq<Dio>, Status)
    decreases last + 1 - inx
  {
    if inx > last then (e, req, Success)
    else if inx in e.blocks then PrepareRequests(e, req, inx + 1, last, gaps)
    else
      var (e1, req1, st) := AddRequest(AfterGap(e, gaps, inx), req, inx, TestedLate(gaps, inx));
      if st != Success then (SetCorrupted(e1, st), req1, st) else PrepareRequests(e1, req1, inx + 1, last, gaps)
  }

  function Prepare(e: Engine, req: seq<Dio>, ofs: nat, cnt: nat, gaps: Gaps): (Engine, seq<Dio>, Status)
    requires cnt > 0
  {
    PrepareRequests(e, req, FirstBlock(e.blk, ofs), LastBlock(e.blk, ofs, cnt), gaps)
  }

  /** Reading the original succeeds when no fault strikes and every block lies on the device. */
  predicate ReadWorks(e: Engine, req: seq<Dio>, f: Faults) {
    f.readOk && forall k | 0 <= k < |req| :: (req[k].block + 1) * e.blk <= |e.orig|
  }

  function StoreAll(e: Engine, req: seq<Dio>): Engine
    decreases |req|
  {
    if req == [] then e
    else
      StoreAll(e.(store := Scatter(e.store, Place(req[0].descr), BlockData(e.orig, e.blk, req[0].block))), req[1..])
  }

  /** The snapstore sectors a request writes, block after block. */
  function RequestPlaces(req: seq<Dio>): seq<nat>
    decreases |req|
  {
    if req == [] then [] else Place(req[0].descr) + RequestPlaces(req[1..])
  }

  /** Read the original blocks of a request and store them. */
  function CopyOut(e: Engine, req: seq<Dio>, f: Faults): (Engine, Status) {
    if !ReadWorks(e, req, f) then (e, EIO)
    else if f.storeOk then (StoreAll(e, req), Success)
    else (SetCorrupted(e.(store := Scatter(e.store, RequestPlaces(req), f.junk)), EIO), EIO)
  }

  /** Copy-on-write ahead of an image write; also returns the blocks it copied. */
  function CopyOnWrite(e: Engine, ofs: nat, cnt: nat, f: Faults, gaps: Gaps): (Engine, seq<Dio>, Status)
    requires cnt > 0
  {
    var (e1, req, st) := Prepare(e, [], ofs, cnt, gaps);
    if st != Success || req == [] then (e1, req, st)
    else
      var (e2, st2) := CopyOut(e1, req, f);
      (e2, req, st2)
  }

  /** `snapstore_device_is_corrupted`: a refused request is counted. */
  function Tested(e: Engine): Engine {
    if e.corrupted then e.(failed := e.failed + 1) else e
  }

  /** What an image read that got the lock returns, whatever the flag says by then. */
  function ShownSlice(e: Engine, ofs: nat, cnt: nat): (r: seq<Sector>)
    ensures |r| == cnt
  {
    seq(cnt, k requires 0 <= k < cnt => Shown(e, {}, ofs + k))
  }

  predicate Mapped(e: Engine, i: nat) {
    i / e.blk in e.blocks
  }

  predicate AllMapped(e: Engine, ofs: nat, cnt: nat) {
    forall i | ofs <= i < ofs + cnt :: Mapped(e, i)
  }

  /** The snapstore sector behind device sector `i`. */
  function Target(e: Engine, i: nat): nat
    requires Mapped(e, i)
  {
    Cell(e.blocks[i / e.blk], i % e.blk)
  }

  function Targets(e: Engine, ofs: nat, cnt: nat): (r: seq<nat>)
    requires AllMapped(e, ofs, cnt)
    ensures |r| == cnt
  {
    seq<nat>(cnt, k requires 0 <= k < cnt && AllMapped(e, ofs, cnt) => Target(e, ofs + k))
  }

  /** The second half of an image write: every block must be mapped by now. */
  function ImageOverwrite(e: Engine, ofs: nat, data: seq<Sector>): (Engine, Status) {
    if AllMapped(e, ofs, |data|) then (e.(store := Scatter(e.store, Targets(e, ofs, |data|), data)), Success)
    else (SetCorrupted(e, EIO), EIO)
  }

  // ---- well-formedness ----

  /** All snapstore sectors of a pool, descriptor after descriptor. */
  function AllPlaces(pool: seq<BlkDescr>): seq<nat> {
    if pool == [] then [] else AllPlaces(pool[..|pool| - 1]) + Place(pool[|pool| - 1])
  }

  predicate BlockSized(blk: BlockSize, pool: seq<BlkDescr>) {
    forall k | 0 <= k < |pool| :: pool[k].id == k && |Place(pool[k])| == blk
  }

  predicate PoolOk(blk: BlockSize, size: nat, pool: seq<BlkDescr>) {
    && BlockSized(blk, pool)
    && NoRepeats(AllPlaces(pool))
    && (forall i | 0 <= i < |AllPlaces(pool)| :: AllPlaces(pool)[i] < size)
  }

  ghost predicate MapOk(e: Engine) {
    && (forall b | b in e.blocks :: e.blocks[b].id < e.taken <= |e.pool| && e.pool[e.blocks[b].id] == e.blocks[b])
    && (forall b, b' | b in e.blocks && b' in e.blocks :: e.blocks[b].id == e.blocks[b'].id ==> b == b')
  }

  /** Descriptors of other devices are taken, and serve no block of this one. */
  ghost predicate OthersApart(e: Engine) {
    && (forall id | id in e.others :: id < e.taken)
    && (forall b | b in e.blocks :: e.blocks[b].id !in e.others)
  }

  ghost predicate WellFormed(e: Engine) {
    && e.taken <= |e.pool|
    && PoolOk(e.blk, |e.store|, e.pool)
    && MapOk(e) && OthersApart(e)
    && |e.orig| <= e.last * e.blk
    && e.notified == (if e.pipe && e.overflowed > 0 then 1 else 0)
  }

  ghost predicate ReqOk(e: Engine, req: seq<Dio>) {
    && (forall k | 0 <= k < |req| :: req[k].block in e.blocks && e.blocks[req[k].block] == req[k].descr)
    && (forall k, k' | 0 <= k < k' < |req| :: req[k].block != req[k'].block)
  }

  /** Two engines that differ at most in what preparing a request may change. */
  ghost predicate Grows(e: Engine, e': Engine) {
    && e'.blk == e.blk && e'.orig == e.orig && e'.store == e.store && e'.last == e.last && e'.pipe == e.pipe
    && e.pool <= e'.pool && e.others <= e'.others && e.overflowed <= e'.overflowed
    && (forall b | b in e.blocks :: b in e'.blocks && e'.blocks[b] == e.blocks[b])
    && (forall b | b in e'.blocks :: b in e.blocks || e'.blocks[b].id >= e.taken)
    && e.taken <= e'.taken && (e.corrupted ==> e'.corrupted && e'.err == e.err)
  }

  /** Two engines that differ at most in what happens outside the device. */
  ghost predicate OnlyOutside(e: Engine, e': Engine) {
    && e' == e.(pool := e'.pool, taken := e'.taken, others := e'.others, overflowed := e'.overflowed,
                notified := e'.notified)
    && e.pool <= e'.pool && e.taken <= e'.taken && e.others <= e'.others && e.overflowed <= e'.overflowed
  }

  lemma OneOutsideKeeps(e: Engine, act: Outside)
    requires WellFormed(e)
    ensures WellFormed(OneOutside(e, act)) && OnlyOutside(e, OneOutside(e, act))
  {
    match act
    case Grown(more) => GrownKeeps(e, more);
    case Taken(late) => TakenKeeps(e, late);
  }

  lemma GrownKeeps(e: Engine, more: seq<BlkDescr>)
    requires WellFormed(e)
    ensures var e1 := OneOutside(e, Grown(more)); WellFormed(e1) && OnlyOutside(e, e1)
  {
    var e1 := OneOutside(e, Grown(more));
    if e1 != e {
      SameMap(e, e1);
    }
  }

  lemma SameMap(e: Engine, e1: Engine)
    requires MapOk(e) && e1.blocks == e.blocks && e.taken <= e1.taken <= |e1.pool| && e.pool <= e1.pool
    ensures MapOk(e1)
  {
    forall b | b in e1.blocks
      ensures e1.blocks[b].id < e1.taken && e1.pool[e1.blocks[b].id] == e1.blocks[b]
    {
      var id := e.blocks[b].id;
      assert e1.pool[..|e.pool|][id] == e.pool[id];
    }
  }

  /** A descriptor is passed over. */
  lemma SkipKeeps(e: Engine)
    requires WellFormed(e) && e.taken < |e.pool|
    ensures WellFormed(e.(taken := e.taken + 1)) && OnlyOutside(e, e.(taken := e.taken + 1))
  {
    SameMap(e, e.(taken := e.taken + 1));
  }

  /** The pool is asked in vain. */
  lemma OverflowKeeps(e: Engine, late: bool)
    requires WellFormed(e) && GetEmptyBlock(e, late).1.None?
    ensures WellFormed(GetEmptyBlock(e, late).0) && OnlyOutside(e, GetEmptyBlock(e, late).0)
  {
    SameMap(e, GetEmptyBlock(e, late).0);
  }

  lemma TakenKeeps(e: Engine, late: bool)
    requires WellFormed(e)
    ensures var e1 := OneOutside(e, Taken(late)); WellFormed(e1) && OnlyOutside(e, e1)
  {
    if GetEmptyBlock(e, late).1.None? {
      OverflowKeeps(e, late);
    } else {
      SkipKeeps(e);
      OneMoreApart(e, OneOutside(e, Taken(late)));
    }
  }

  lemma OneMoreApart(e: Engine, e1: Engine)
    requires MapOk(e) && OthersApart(e) && e1.blocks == e.blocks && e.taken <= e1.taken
    requires e1.others == e.others || (e1.taken == e.taken + 1 && e1.others == e.others + {e.taken})
    ensures OthersApart(e1)
  {
  }

  lemma {:induction false} AllOutsideKeeps(e: Engine, acts: seq<Outside>)
    requires WellFormed(e)
    ensures WellFormed(AllOutside(e, acts)) && OnlyOutside(e, AllOutside(e, acts))
    decreases |acts|
  {
    if acts != [] {
      OneOutsideKeeps(e, acts[0]);
      AllOutsideKeeps(OneOutside(e, acts[0]), acts[1..]);
    }
  }

  lemma AfterGapKeeps(e: Engine, gaps: Gaps, b: nat)
    requires WellFormed(e)
    ensures WellFormed(AfterGap(e, gaps, b)) && OnlyOutside(e, AfterGap(e, gaps, b))
  {
    if b in gaps {
      AllOutsideKeeps(e, gaps[b].acts);
    }
  }

  // ---- preparing a request ----

  lemma MapAdd(e: Engine, b: nat)
    requires MapOk(e) && e.taken < |e.pool| && e.pool[e.taken].id == e.taken
    ensures MapOk(e.(taken := e.taken + 1, blocks := e.blocks[b := e.pool[e.taken]]))
  {
  }

  /** The block gets the next descriptor. */
  function WithBlock(e: Engine, b: nat): Engine
    requires e.taken < |e.pool|
  {
    e.(taken := e.taken + 1, blocks := e.blocks[b := e.pool[e.taken]])
  }

  lemma WithBlockKeeps(e: Engine, b: nat)
    requires WellFormed(e) && e.taken < |e.pool| && b !in e.blocks
    ensures WellFormed(WithBlock(e, b)) && Grows(e, WithBlock(e, b))
  {
    MapAdd(e, b);
  }

  lemma WithBlockReq(e: Engine, req: seq<Dio>, b: nat)
    requires ReqOk(e, req) && e.taken < |e.pool| && b !in e.blocks
    ensures ReqOk(WithBlock(e, b), req + [Dio(b, e.pool[e.taken])])
  {
  }

  lemma OutsideGrows(e: Engine, req: seq<Dio>, e1: Engine)
    requires WellFormed(e) && ReqOk(e, req) && OnlyOutside(e, e1)
    ensures Grows(e, e1) && ReqOk(e1, req)
  {
  }

  lemma AddRequestKeeps(e: Engine, req: seq<Dio>, b: nat, late: bool)
    requires WellFormed(e) && ReqOk(e, req) && b !in e.blocks
    ensures var (e1, req1, st) := AddRequest(e, req, b, late);
            && WellFormed(e1) && ReqOk(e1, req1) && Grows(e, e1) && e1.corrupted == e.corrupted
            && (st == Success ==>
                  b in e1.blocks && req1 == req + [Dio(b, e1.blocks[b])] && e1.blocks.Keys == e.blocks.Keys + {b})
            && (st != Success ==> req1 == req && e1.blocks == e.blocks)
            && (st == Success <==> (e.overflowed == 0 || late) && e.taken < |e.pool| && b <= e.last)
  {
    var (e1, req1, st) := AddRequest(e, req, b, late);
    if st == Success {
      WithBlockKeeps(e, b);
      WithBlockReq(e, req, b);
      assert e1 == WithBlock(e, b) && req1 == req + [Dio(b, e.pool[e.taken])];
    } else {
      if GetEmptyBlock(e, late).1.None? {
        OverflowKeeps(e, late);
      } else {
        SkipKeeps(e);
        assert e1 == e.(taken := e.taken + 1);
      }
      OutsideGrows(e, req, e1);
    }
  }

  /** One turn of the loop: what happens outside, then the block. */
  lemma TurnKeeps(e: Engine, req: seq<Dio>, b: nat, gaps: Gaps) returns (e1: Engine, req1: seq<Dio>, st: Status)
    requires WellFormed(e) && ReqOk(e, req) && b !in e.blocks
    ensures (e1, req1, st) == AddRequest(AfterGap(e, gaps, b), req, b, TestedLate(gaps, b))
    ensures WellFormed(e1) && ReqOk(e1, req1) && Grows(e, e1) && e1.corrupted == e.corrupted
    ensures st == Success ==> b in e1.blocks && req1 == req + [Dio(b, e1.blocks[b])]
    ensures st == Success ==> e1.blocks.Keys == e.blocks.Keys + {b}
    ensures st != Success ==> req1 == req && e1.blocks == e.blocks
  {
    AfterGapKeeps(e, gaps, b);
    AddRequestKeeps(AfterGap(e, gaps, b), req, b, TestedLate(gaps, b));
    var r := AddRequest(AfterGap(e, gaps, b), req, b, TestedLate(gaps, b));
    e1, req1, st := r.0, r.1, r.2;
  }

  predicate AllIn(e: Engine, inx: nat, last: int) {
    forall b | inx <= b <= last :: b in e.blocks
  }

  /** Preparing keeps the engine well formed; only a failure sets the corrupted flag. */
  lemma {:induction false} PrepareKeeps(e: Engine, req: seq<Dio>, inx: nat, last: int, gaps: Gaps)
    requires WellFormed(e) && ReqOk(e, req)
    ensures var (e1, req1, st) := PrepareRequests(e, req, inx, last, gaps);
            && WellFormed(e1) && ReqOk(e1, req1) && Grows(e, e1)
            && e1.corrupted == (e.corrupted || st != Success)
            && (st == Success ==> AllIn(e1, inx, last))
    decreases last + 1 - inx
  {
    if inx > last {
    } else if inx in e.blocks {
      PrepareKeeps(e, req, inx + 1, last, gaps);
    } else {
      var e1, req1, st := TurnKeeps(e, req, inx, gaps);
      if st == Success {
        PrepareKeeps(e1, req1, inx + 1, last, gaps);
        var e2 := PrepareRequests(e1, req1, inx + 1, last, gaps).0;
        GrowsOn(e, e1, e2);
        assert inx in e2.blocks;
      } else {
        GrowsOn(e, e1, SetCorrupted(e1, st));
        SetCorruptedKeeps(e1, req1, st);
      }
    }
  }

  lemma GrowsOn(e: Engine, e1: Engine, e2: Engine)
    requires Grows(e, e1)
    ensures Grows(e1, e2) ==> Grows(e, e2)
  {
  }

  lemma SetCorruptedKeeps(e: Engine, req: seq<Dio>, st: Status)
    requires WellFormed(e) && ReqOk(e, req)
    ensures WellFormed(SetCorrupted(e, st)) && ReqOk(SetCorrupted(e, st), req) && Grows(e, SetCorrupted(e, st))
  {
  }

  /** The request keeps what it held, and gains exactly the blocks mapped anew, all of them in a range. */
  ghost predicate Gains(e: Engine, req: seq<Dio>, e1: Engine, req1: seq<Dio>, inx: nat, last: int) {
    && req <= req1
    && (forall k | |req| <= k < |req1| :: req1[k].block !in e.blocks && inx <= req1[k].block <= last)
    && (forall b | b in e1.blocks :: b in e.blocks || exists k :: |req| <= k < |req1| && req1[k].block == b)
  }

  lemma GainsOne(e: Engine, req: seq<Dio>, e1: Engine, req1: seq<Dio>, e2: Engine, req2: seq<Dio>, inx: nat, last: int)
    requires inx <= last && inx !in e.blocks && |req1| == |req| + 1 && req <= req1 && req1[|req|].block == inx
    requires e1.blocks.Keys == e.blocks.Keys + {inx} && Gains(e1, req1, e2, req2, inx + 1, last)
    ensures Gains(e, req, e2, req2, inx, last)
  {
    assert req2[|req|] == req1[|req|];
    forall b | b in e2.blocks && b !in e.blocks
      ensures exists k :: |req| <= k < |req2| && req2[k].block == b
    {
      if b != inx {
        assert b !in e1.blocks;
      }
    }
  }

  lemma {:induction false} OutsideMapsNothing(e: Engine, acts: seq<Outside>)
    ensures AllOutside(e, acts).blocks == e.blocks
    decreases |acts|
  {
    if acts != [] {
      OutsideMapsNothing(OneOutside(e, acts[0]), acts[1..]);
    }
  }

  /** A turn of the loop gains its block, or nothing. */
  lemma TurnGains(e: Engine, req: seq<Dio>, b: nat, gaps: Gaps)
    requires b !in e.blocks
    ensures var (e1, req1, st) := AddRequest(AfterGap(e, gaps, b), req, b, TestedLate(gaps, b));
            if st == Success then
              |req1| == |req| + 1 && req <= req1 && req1[|req|].block == b && e1.blocks.Keys == e.blocks.Keys + {b}
            else req1 == req && e1.blocks == e.blocks
  {
    if b in gaps {
      OutsideMapsNothing(e, gaps[b].acts);
    }
  }

  lemma GainsWider(e: Engine, req: seq<Dio>, e1: Engine, req1: seq<Dio>, inx: nat, last: int)
    requires Gains(e, req, e1, req1, inx + 1, last)
    ensures Gains(e, req, e1, req1, inx, last)
  {
  }

  lemma {:induction false} PrepareAdds(e: Engine, req: seq<Dio>, inx: nat, last: int, gaps: Gaps)
    ensures var r := PrepareRequests(e, req, inx, last, gaps); Gains(e, req, r.0, r.1, inx, last)
    decreases last + 1 - inx
  {
    if inx > last {
    } else if inx in e.blocks {
      PrepareAdds(e, req, inx + 1, last, gaps);
      var r := PrepareRequests(e, req, inx + 1, last, gaps);
      GainsWider(e, req, r.0, r.1, inx, last);
    } else {
      TurnGains(e, req, inx, gaps);
      var (e1, req1, st) := AddRequest(AfterGap(e, gaps, inx), req, inx, TestedLate(gaps, inx));
      if st == Success {
        PrepareAdds(e1, req1, inx + 1, last, gaps);
        var r := PrepareRequests(e1, req1, inx + 1, last, gaps);
        GainsOne(e, req, e1, req1, r.0, r.1, inx, last);
      }
    }
  }

  /** Preparing changes nothing an image read can see, as long as pending blocks read the original. */
  lemma PrepareShows(e: Engine, req: seq<Dio>, inx: nat, last: int, gaps: Gaps, i: nat)
    requires WellFormed(e) && ReqOk(e, req)
    ensures var (e1, req1, st) := PrepareRequests(e, req, inx, last, gaps);
            Shown(e1, Pending(req1), i) == Shown(e, Pending(req), i)
  {
    PrepareKeeps(e, req, inx, last, gaps);
    PrepareAdds(e, req, inx, last, gaps);
    var (e1, req1, st) := PrepareRequests(e, req, inx, last, gaps);
    var b := i / e.blk;
    if b in Pending(req) {
      var k :| 0 <= k < |req| && req[k].block == b;
      assert req1[k].block == b;
    } else if b in e.blocks {
      forall k | 0 <= k < |req1|
        ensures req1[k].block != b
      {
        assert k < |req| ==> req[k].block in Pending(req);
      }
    }
  }

  // ---- storing a request ----

  lemma {:induction false} ScatterMiss(s: seq<Sector>, places: seq<nat>, data: seq<Sector>, p: nat)
    requires forall k | 0 <= k < |places| :: places[k] != p
    ensures At(Scatter(s, places, data), p) == At(s, p)
    decreases |places|
  {
    if places == [] || data == [] {
    } else {
      ScatterMiss(Put(s, places[0], data[0]), places[1..], data[1..], p);
    }
  }

  lemma {:induction false} ScatterHit(s: seq<Sector>, places: seq<nat>, data: seq<Sector>, k: nat)
    requires |places| == |data| && k < |places| && places[k] < |s| && NoRepeats(places)
    ensures At(Scatter(s, places, data), places[k]) == data[k]
    decreases |places|
  {
    var s1 := Put(s, places[0], data[0]);
    if k == 0 {
      ScatterMiss(s1, places[1..], data[1..], places[0]);
    } else {
      ScatterHit(s1, places[1..], data[1..], k - 1);
    }
  }

  lemma {:induction false} ScatterAppend(s: seq<Sector>, p1: seq<nat>, d1: seq<Sector>, p2: seq<nat>, d2: seq<Sector>)
    requires |p1| == |d1|
    ensures Scatter(s, p1 + p2, d1 + d2) == Scatter(Scatter(s, p1, d1), p2, d2)
    decreases |p1|
  {
    if p1 == [] {
      assert p1 + p2 == p2 && d1 + d2 == d2;
    } else {
      assert (p1 + p2)[1..] == p1[1..] + p2 && (d1 + d2)[1..] == d1[1..] + d2;
      ScatterAppend(Put(s, p1[0], d1[0]), p1[1..], d1[1..], p2, d2);
    }
  }

  lemma {:induction false} AllPlacesAt(blk: BlockSize, pool: seq<BlkDescr>, k: nat, j: nat)
    requires BlockSized(blk, pool) && k < |pool| && j < blk
    ensures k * blk + j < |AllPlaces(pool)| == |pool| * blk
    ensures AllPlaces(pool)[k * blk + j] == Place(pool[k])[j] == Cell(pool[k], j)
  {
    var n := |pool| - 1;
    var front := pool[..n];
    assert BlockSized(blk, front);
    AllPlacesSize(blk, front);
    assert |pool| * blk == n * blk + blk;
    if k == n {
      assert pool[n] == pool[k];
    } else {
      MulMonotone(k + 1, n, blk);
      assert (k + 1) * blk == k * blk + blk;
      AllPlacesAt(blk, front, k, j);
    }
  }

  lemma {:induction false} AllPlacesSize(blk: BlockSize, pool: seq<BlkDescr>)
    requires BlockSized(blk, pool)
    ensures |AllPlaces(pool)| == |pool| * blk
  {
    if pool != [] {
      var n := |pool| - 1;
      assert BlockSized(blk, pool[..n]);
      AllPlacesSize(blk, pool[..n]);
      assert |pool| * blk == n * blk + blk;
    }
  }

  lemma PoolCellsDiffer(blk: BlockSize, size: nat, pool: seq<BlkDescr>, k: nat, j: nat, k': nat, j': nat)
    requires PoolOk(blk, size, pool) && k < |pool| && k' < |pool| && j < blk && j' < blk
    ensures Cell(pool[k], j) < size
    ensures Cell(pool[k], j) == Cell(pool[k'], j') ==> k == k' && j == j'
  {
    AllPlacesAt(blk, pool, k, j);
    AllPlacesAt(blk, pool, k', j');
    var p, p' := k * blk + j, k' * blk + j';
    if Cell(pool[k], j) == Cell(pool[k'], j') {
      assert p == p' by {
        assert AllPlaces(pool)[p] == AllPlaces(pool)[p'];
      }
      DivModUnique(k, j, blk);
      DivModUnique(k', j', blk);
    }
  }

  /** The place of a pooled descriptor never names a sector twice. */
  lemma PlaceDistinct(e: Engine, b: nat)
    requires WellFormed(e) && b in e.blocks
    ensures |Place(e.blocks[b])| == e.blk && NoRepeats(Place(e.blocks[b]))
    ensures forall j | 0 <= j < e.blk :: Place(e.blocks[b])[j] == Cell(e.blocks[b], j) < |e.store|
  {
    var d := e.blocks[b];
    assert e.pool[d.id] == d;
    forall i, j | 0 <= i < j < |Place(d)|
      ensures Place(d)[i] != Place(d)[j]
    {
      PoolCellsDiffer(e.blk, |e.store|, e.pool, d.id, i, d.id, j);
    }
    forall j | 0 <= j < e.blk
      ensures Place(d)[j] == Cell(d, j) < |e.store|
    {
      PoolCellsDiffer(e.blk, |e.store|, e.pool, d.id, j, d.id, j);
    }
  }

  lemma CellsDiffer(e: Engine, b: nat, j: nat, b': nat, j': nat)
    requires WellFormed(e) && b in e.blocks && b' in e.blocks && j < e.blk && j' < e.blk
    requires Cell(e.blocks[b], j) == Cell(e.blocks[b'], j')
    ensures b == b' && j == j'
  {
    PoolCellsDiffer(e.blk, |e.store|, e.pool, e.blocks[b].id, j, e.blocks[b'].id, j');
  }

  lemma StoreOneShows(e: Engine, req: seq<Dio>, i: nat)
    requires WellFormed(e) && ReqOk(e, req) && req != []
    requires i < |e.orig|
    ensures var e1 := e.(store := Scatter(e.store, Place(req[0].descr), BlockData(e.orig, e.blk, req[0].block)));
            Shown(e1, Pending(req[1..]), i) == Shown(e, Pending(req), i)
  {
    var d := req[0];
    var data := BlockData(e.orig, e.blk, d.block);
    var e1 := e.(store := Scatter(e.store, Place(d.descr), data));
    var b, j := i / e.blk, i % e.blk;
    DivBounds(i, e.blk);
    PlaceDistinct(e, d.block);
    PendingTail(req);
    if b == d.block {
      assert b !in Pending(req[1..]);
      ScatterHit(e.store, Place(d.descr), data, j);
    } else if b in e.blocks && b !in Pending(req) {
      var p := Cell(e.blocks[b], j);
      forall k | 0 <= k < |Place(d.descr)|
        ensures Place(d.descr)[k] != p
      {
        if Place(d.descr)[k] == p {
          CellsDiffer(e, d.block, k, b, j);
        }
      }
      ScatterMiss(e.store, Place(d.descr), data, p);
    }
  }

  lemma PendingTail(req: seq<Dio>)
    requires req != []
    ensures Pending(req) == {req[0].block} + Pending(req[1..])
  {
    forall b | b in Pending(req)
      ensures b in {req[0].block} + Pending(req[1..])
    {
      var k :| 0 <= k < |req| && req[k].block == b;
      if k > 0 {
        assert req[1..][k - 1].block == b;
      }
    }
    forall b | b in Pending(req[1..])
      ensures b in Pending(req)
    {
      var k :| 0 <= k < |req[1..]| && req[1..][k].block == b;
      assert req[k + 1].block == b;
    }
  }

  /** Once the whole request is stored, the image shows what it showed while the blocks were pending. */
  lemma {:induction false} StoreAllShows(e: Engine, req: seq<Dio>, i: nat)
    requires WellFormed(e) && ReqOk(e, req) && i < |e.orig|
    ensures Shown(StoreAll(e, req), {}, i) == Shown(e, Pending(req), i)
    decreases |req|
  {
    if req == [] {
      assert Pending(req) == {};
    } else {
      var e1 := e.(store := Scatter(e.store, Place(req[0].descr), BlockData(e.orig, e.blk, req[0].block)));
      StoreOneShows(e, req, i);
      StoreAllShows(e1, req[1..], i);
    }
  }

  lemma {:induction false} StoreAllKeeps(e: Engine, req: seq<Dio>)
    ensures var e1 := StoreAll(e, req);
            |e1.store| == |e.store| && e1 == e.(store := e1.store)
    decreases |req|
  {
    if req != [] {
      var store := Scatter(e.store, Place(req[0].descr), BlockData(e.orig, e.blk, req[0].block));
      StoreAllKeeps(e.(store := store), req[1..]);
    }
  }

  // ---- image writes ----

  lemma TargetsDiffer(e: Engine, i: nat, i': nat)
    requires WellFormed(e) && Mapped(e, i) && Mapped(e, i') && Target(e, i) == Target(e, i')
    ensures i == i'
  {
    CellsDiffer(e, i / e.blk, i % e.blk, i' / e.blk, i' % e.blk);
    DivBounds(i, e.blk);
    DivBounds(i', e.blk);
  }

  lemma TargetsDistinct(e: Engine, ofs: nat, cnt: nat)
    requires WellFormed(e) && AllMapped(e, ofs, cnt)
    ensures NoRepeats(Targets(e, ofs, cnt))
    ensures forall k | 0 <= k < cnt :: Targets(e, ofs, cnt)[k] < |e.store|
  {
    forall i, j | 0 <= i < j < cnt
      ensures Targets(e, ofs, cnt)[i] != Targets(e, ofs, cnt)[j]
    {
      if Targets(e, ofs, cnt)[i] == Targets(e, ofs, cnt)[j] {
        TargetsDiffer(e, ofs + i, ofs + j);
      }
    }
    forall k | 0 <= k < cnt
      ensures Targets(e, ofs, cnt)[k] < |e.store|
    {
      assert Mapped(e, ofs + k);
      PlaceDistinct(e, (ofs + k) / e.blk);
      assert Targets(e, ofs, cnt)[k] == Target(e, ofs + k);
    }
  }

  /** An image write replaces exactly the written sectors of the image. */
  lemma OverwriteShows(e: Engine, ofs: nat, data: seq<Sector>, i: nat)
    requires WellFormed(e) && AllMapped(e, ofs, |data|)
    ensures Shown(ImageOverwrite(e, ofs, data).0, {}, i)
         == if ofs <= i < ofs + |data| then data[i - ofs] else Shown(e, {}, i)
  {
    var t := Targets(e, ofs, |data|);
    TargetsDistinct(e, ofs, |data|);
    if ofs <= i < ofs + |data| {
      assert Mapped(e, i) && t[i - ofs] == Target(e, i);
      ScatterHit(e.store, t, data, i - ofs);
    } else if Mapped(e, i) {
      forall k | 0 <= k < |t|
        ensures t[k] != Target(e, i)
      {
        assert Mapped(e, ofs + k);
        if t[k] == Target(e, i) {
          TargetsDiffer(e, ofs + k, i);
        }
      }
      ScatterMiss(e.store, t, data, Target(e, i));
    }
  }
}
