/**
 * Runs in which no device I/O fails: nothing is lost from the image, and the snapshot is corrupted only
 * by running out of descriptors, which a pool with one for each block of the device never does.
 */
module SnapshotHealth {
  import opened Basics
  import opened CowEngine
  import opened CowHealth
  import opened SnapshotMachine
  import opened SnapshotProofs
  import opened SnapshotTheorems

  predicate HealthyIo(f: Faults) {
    f.readOk && f.storeOk
  }

  /** No read or store fails, and the bios of an image write can be built. */
  predicate Healthy(ev: Event) {
    match ev
    case Copy(f) => HealthyIo(f)
    case ImageCow(f, gaps) => HealthyIo(f)
    case ImagePut(sent) => sent
    case _ => true
  }

  predicate AllHealthy(evs: seq<Event>) {
    forall k | 0 <= k < |evs| :: Healthy(evs[k])
  }

  /** What healthy runs on a device of whole blocks keep. */
  ghost predicate Sound(s: State) {
    && |s.eng.orig| % s.eng.blk == 0 && s.missed == {} && AllWhole(s.eng, s.req)
    && (s.eng.corrupted ==> s.eng.overflowed > 0)
    && (s.img.Cowed? && !s.eng.corrupted ==> AllMapped(s.eng, s.img.ofs, |s.img.data|))
  }

  /** Preparing a range of the device asks for whole blocks, and corrupts only when the pool ran out. */
  lemma PrepareSound(e: Engine, req: seq<Dio>, ofs: nat, cnt: nat, gaps: Gaps)
    requires WellFormed(e) && ReqOk(e, req) && cnt > 0 && ofs + cnt <= |e.orig| && |e.orig| % e.blk == 0
    requires AllWhole(e, req) && (e.corrupted ==> e.overflowed > 0)
    ensures var r := Prepare(e, req, ofs, cnt, gaps); AllWhole(r.0, r.1) && (r.0.corrupted ==> r.0.overflowed > 0)
  {
    var first, last := FirstBlock(e.blk, ofs), LastBlock(e.blk, ofs, cnt);
    var r := Prepare(e, req, ofs, cnt, gaps);
    PrepareKeeps(e, req, first, last, gaps);
    PrepareAdds(e, req, first, last, gaps);
    PrepareFailsOnlyIf(e, req, first, last, gaps);
    DeviceBlocks(e, ofs, cnt, last);
    forall k | 0 <= k < |r.1|
      ensures Whole(r.0, r.1[k].block)
    {
      if k < |req| {
        assert Whole(e, req[k].block);
      } else {
        DeviceBlocks(e, ofs, cnt, r.1[k].block);
      }
    }
  }

  lemma PopSound(s: State, gaps: Gaps)
    requires RoomLeft(s) && EngineOk(s) && Queues(s) && Sound(s)
    ensures Sound(DoPop(s, gaps))
  {
    var bio := s.waiting[0];
    assert OnDevice(|s.eng.orig|, bio);
    if bio.Write? && !s.stopping && !s.eng.corrupted {
      PrepareSound(s.eng, s.req, bio.ofs, |bio.data|, gaps);
      PrepareKeeps(s.eng, s.req, FirstBlock(s.eng.blk, bio.ofs), LastBlock(s.eng.blk, bio.ofs, |bio.data|), gaps);
      var s' := DoPop(s, gaps);
      if s'.img.Cowed? && !s'.eng.corrupted {
        MappedGrows(s.eng, s'.eng, s.img.ofs, |s.img.data|);
      }
    }
  }

  /** With no fault, whole blocks are read and stored. */
  lemma HealthyCopy(e: Engine, req: seq<Dio>, f: Faults)
    requires WellFormed(e) && AllWhole(e, req) && HealthyIo(f)
    ensures ReadWorks(e, req, f) && CopyOut(e, req, f) == (StoreAll(e, req), Success)
    ensures StoreAll(e, req) == e.(store := StoreAll(e, req).store)
  {
    CopyOutWorksIff(e, req, f);
    StoreAllKeeps(e, req);
  }

  lemma CopySound(s: State, f: Faults)
    requires EngineOk(s) && Sound(s) && HealthyIo(f)
    ensures Sound(DoCopy(s, f)) && DoCopy(s, f).lost == s.lost
  {
    HealthyCopy(s.eng, s.req, f);
    SameMapping(s, DoCopy(s, f));
  }

  /** With no fault, copy-on-write goes wrong only in preparing, and then nothing is read. */
  lemma HealthyCow(e: Engine, ofs: nat, cnt: nat, f: Faults, gaps: Gaps)
    requires WellFormed(e) && cnt > 0 && ofs + cnt <= |e.orig| && |e.orig| % e.blk == 0 && HealthyIo(f)
    requires e.corrupted ==> e.overflowed > 0
    ensures var (e0, req, st0) := Prepare(e, [], ofs, cnt, gaps);
            var (e1, req1, st1) := CopyOnWrite(e, ofs, cnt, f, gaps);
            && st1 == st0 && (e1.corrupted ==> e1.overflowed > 0) && ReadWorks(e0, req, f)
            && e1.orig == e.orig && e1.blk == e.blk && (st0 == Success ==> AllMapped(e1, ofs, cnt))
            && (st0 != Success ==> e1.corrupted)
  {
    PrepareSound(e, [], ofs, cnt, gaps);
    CowKeeps(e, ofs, cnt, f, gaps);
    var (e0, req, st0) := Prepare(e, [], ofs, cnt, gaps);
    HealthyCopy(e0, req, f);
  }

  lemma CowSound(s: State, f: Faults, gaps: Gaps)
    requires s.img.Writing? && EngineOk(s) && ImageOnDevice(|s.eng.orig|, s.img) && Sound(s) && HealthyIo(f)
    requires s.req == []
    ensures Sound(DoImageCow(s, f, gaps))
  {
    HealthyCow(s.eng, s.img.ofs, |s.img.data|, f, gaps);
  }

  lemma StepSound(s: State, ev: Event)
    requires Enabled(s, ev) && Shape(s) && Sound(s) && Healthy(ev)
    ensures Sound(Step(s, ev))
  {
    match ev
    case Pop(gaps) => PopSound(s, gaps);
    case Copy(f) => CopySound(s, f);
    case ImageCow(f, gaps) => CowSound(s, f, gaps);
    case ImagePut(sent) => PutSound(s);
    case Submit(bio, late) => SubmitSound(s, bio, late);
    case Elsewhere(act) => OutsideSound(s, act);
    case _ => RestSound(s, ev);
  }

  /** A bio that arrives changes at most the contents of the device and the count of refused requests. */
  lemma SubmitEngine(s: State, bio: Bio, late: bool)
    ensures var s' := DoSubmit(s, bio, late);
            && s'.eng == s.eng.(orig := s'.eng.orig, failed := s'.eng.failed) && |s'.eng.orig| == |s.eng.orig|
            && s'.req == s.req && s'.img == s.img && s'.missed == s.missed
  {
  }

  lemma SubmitSound(s: State, bio: Bio, late: bool)
    requires Sound(s)
    ensures Sound(DoSubmit(s, bio, late))
  {
    SubmitEngine(s, bio, late);
    SameMapping(s, DoSubmit(s, bio, late));
  }

  lemma PutSound(s: State)
    requires s.img.Cowed? && Sound(s)
    ensures Sound(DoImagePut(s, true))
  {
    SameMapping(s, DoImagePut(s, true));
  }

  lemma OutsideSound(s: State, act: Outside)
    requires EngineOk(s) && Sound(s)
    ensures Sound(s.(eng := OneOutside(s.eng, act)))
  {
    OneOutsideKeeps(s.eng, act);
    SameMapping(s, s.(eng := OneOutside(s.eng, act)));
  }

  lemma RestSound(s: State, ev: Event)
    requires Enabled(s, ev) && Sound(s)
    requires !ev.Pop? && !ev.Copy? && !ev.ImageCow? && !ev.ImagePut? && !ev.Submit? && !ev.Elsewhere?
    ensures Sound(Step(s, ev))
  {
    SameMapping(s, Step(s, ev));
  }

  lemma SameMapping(s: State, s': State)
    requires s'.eng.blk == s.eng.blk && s'.eng.blocks == s.eng.blocks && |s'.eng.orig| == |s.eng.orig|
    requires s'.req == s.req || s'.req == []
    ensures AllWhole(s.eng, s.req) ==> AllWhole(s'.eng, s'.req)
    ensures s'.img == s.img && s.img.Cowed? && AllMapped(s.eng, s.img.ofs, |s.img.data|) ==>
              AllMapped(s'.eng, s.img.ofs, |s.img.data|)
  {
    if s.img.Cowed? && AllMapped(s.eng, s.img.ofs, |s.img.data|) {
      MappedGrows(s.eng, s'.eng, s.img.ofs, |s.img.data|);
    }
    if AllWhole(s.eng, s.req) {
      forall k | 0 <= k < |s'.req|
        ensures Whole(s'.eng, s'.req[k].block)
      {
        assert Whole(s.eng, s.req[k].block);
      }
    }
  }

  lemma {:induction false} RunSound(s: State, evs: seq<Event>)
    requires Inv(s) && Sound(s) && Legal(s, evs) && AllHealthy(evs)
    ensures Inv(Run(s, evs)) && Sound(Run(s, evs))
    decreases |evs|
  {
    if evs != [] {
      assert Healthy(evs[0]);
      StepSound(s, evs[0]);
      StepKeepsInv(s, evs[0]);
      RestHealthy(evs);
      RunSound(Step(s, evs[0]), evs[1..]);
    }
  }

  lemma RestHealthy(evs: seq<Event>)
    requires evs != [] && AllHealthy(evs)
    ensures AllHealthy(evs[1..])
  {
    forall k | 0 <= k < |evs[1..]|
      ensures Healthy(evs[1..][k])
    {
      assert Healthy(evs[k + 1]);
    }
  }

  /**
   * On a device of whole blocks, when no I/O fails: every block could be read, the snapshot is corrupted
   * only if the pool ran out of descriptors, and in service an uncorrupted one has lost nothing.
   */
  lemma HealthyLosesNothing(s0: State, evs: seq<Event>)
    requires Captured(s0) && Legal(s0, evs) && AllHealthy(evs) && |s0.eng.orig| % s0.eng.blk == 0
    ensures var s := Run(s0, evs);
            && s.missed == {} && (s.eng.corrupted ==> s.eng.overflowed > 0)
            && (InService(s) && !s.eng.corrupted ==> s.lost == {})
  {
    CaptureInv(s0);
    RunSound(s0, evs);
    var s := Run(s0, evs);
    if InService(s) && !s.eng.corrupted {
      LostWhere(s);
      if i :| i in s.lost {
        assert false;
      }
    }
  }

  // ---- descriptors enough ----

  /** Blocks of the device, the last one perhaps not whole. */
  function Count(e: Engine): nat {
    (|e.orig| + e.blk - 1) / e.blk
  }

  lemma CountBlocks(e: Engine)
    ensures Count(e) * e.blk < |e.orig| + e.blk && |e.orig| <= Count(e) * e.blk
    ensures WellFormed(e) ==> Count(e) <= e.last
  {
    DivBounds(|e.orig| + e.blk - 1, e.blk);
    if WellFormed(e) {
      assert (e.last + 1) * e.blk == e.last * e.blk + e.blk;
      MulCancelLess(Count(e), e.last + 1, e.blk);
    }
  }

  lemma BlockCounts(e: Engine, ofs: nat, cnt: nat)
    requires cnt > 0 && ofs + cnt <= |e.orig|
    ensures LastBlock(e.blk, ofs, cnt) < Count(e)
  {
    CountBlocks(e);
    DivBounds(ofs + cnt - 1, e.blk);
    MulCancelLess(LastBlock(e.blk, ofs, cnt), Count(e), e.blk);
  }

  /** The pool never ran out and has a descriptor left for each block of the device that has none. */
  ghost predicate Enough(e: Engine) {
    && e.overflowed == 0 && (forall b | b in e.blocks :: b < Count(e))
    && e.taken + Count(e) <= |e.pool| + |e.blocks|
  }

  lemma {:induction false} FewerThan(s: set<nat>, n: nat)
    requires forall x | x in s :: x < n
    ensures |s| <= n
    decreases n
  {
    if n > 0 {
      FewerThan(s - {n - 1}, n - 1);
    } else {
      assert s == {};
    }
  }

  lemma OneLeft(e: Engine, b: nat)
    requires Enough(e) && b < Count(e) && b !in e.blocks
    ensures e.taken < |e.pool| && Enough(WithBlock(e, b))
  {
    FewerThan(e.blocks.Keys + {b}, Count(e));
    assert |e.blocks.Keys + {b}| == |e.blocks| + 1;
  }

  /** No other device asks the pool for a block. */
  predicate OnlyGrown(acts: seq<Outside>) {
    forall k | 0 <= k < |acts| :: acts[k].Grown?
  }

  predicate GapsAlone(gaps: Gaps) {
    forall b | b in gaps :: OnlyGrown(gaps[b].acts)
  }

  predicate Alone(ev: Event) {
    match ev
    case Pop(gaps) => GapsAlone(gaps)
    case ImageCow(f, gaps) => GapsAlone(gaps)
    case Elsewhere(act) => act.Grown?
    case _ => true
  }

  predicate AllAlone(evs: seq<Event>) {
    forall k | 0 <= k < |evs| :: Alone(evs[k])
  }

  lemma {:induction false} GrownIsEnough(e: Engine, acts: seq<Outside>)
    requires OnlyGrown(acts) && Enough(e)
    ensures var e1 := AllOutside(e, acts);
            Enough(e1) && e1.blocks == e.blocks && e1.last == e.last && Count(e1) == Count(e)
    decreases |acts|
  {
    if acts != [] {
      assert acts[0].Grown?;
      GrownIsEnough(OneOutside(e, acts[0]), acts[1..]);
    }
  }

  /** Then a turn of the loop always works. */
  lemma EnoughForBlock(e: Engine, req: seq<Dio>, b: nat, gaps: Gaps) returns (e1: Engine, req1: seq<Dio>)
    requires Enough(e) && GapsAlone(gaps) && b < Count(e) <= e.last && b !in e.blocks
    ensures AddRequest(AfterGap(e, gaps, b), req, b, TestedLate(gaps, b)) == (e1, req1, Success)
    ensures Enough(e1) && Count(e1) == Count(e) && e1.last == e.last
  {
    var e0 := AfterGap(e, gaps, b);
    if b in gaps {
      GrownIsEnough(e, gaps[b].acts);
    }
    OneLeft(e0, b);
    e1, req1 := WithBlock(e0, b), req + [Dio(b, e0.pool[e0.taken])];
  }

  /** Then preparing blocks of the device always works. */
  lemma {:induction false} EnoughPrepares(e: Engine, req: seq<Dio>, inx: nat, last: nat, gaps: Gaps)
    requires Enough(e) && GapsAlone(gaps) && last < Count(e) <= e.last
    ensures var r := PrepareRequests(e, req, inx, last, gaps); r.2 == Success && Enough(r.0)
    decreases last + 1 - inx
  {
    if inx > last {
    } else if inx in e.blocks {
      EnoughPrepares(e, req, inx + 1, last, gaps);
    } else {
      var e1, req1 := EnoughForBlock(e, req, inx, gaps);
      EnoughPrepares(e1, req1, inx + 1, last, gaps);
    }
  }

  lemma EnoughForRange(e: Engine, req: seq<Dio>, ofs: nat, cnt: nat, gaps: Gaps)
    requires WellFormed(e) && Enough(e) && GapsAlone(gaps) && cnt > 0 && ofs + cnt <= |e.orig|
    ensures var r := Prepare(e, req, ofs, cnt, gaps); r.2 == Success && Enough(r.0)
  {
    CountBlocks(e);
    BlockCounts(e, ofs, cnt);
    EnoughPrepares(e, req, FirstBlock(e.blk, ofs), LastBlock(e.blk, ofs, cnt), gaps);
  }

  lemma CopyIsEnough(e: Engine, req: seq<Dio>, f: Faults)
    requires WellFormed(e) && Enough(e)
    ensures Enough(CopyOut(e, req, f).0)
  {
    CopyOutKeeps(e, req, f);
  }

  lemma CowIsEnough(e: Engine, ofs: nat, cnt: nat, f: Faults, gaps: Gaps)
    requires WellFormed(e) && Enough(e) && GapsAlone(gaps) && cnt > 0 && ofs + cnt <= |e.orig|
    ensures Enough(CopyOnWrite(e, ofs, cnt, f, gaps).0)
  {
    EnoughForRange(e, [], ofs, cnt, gaps);
    PrepareKeeps(e, [], FirstBlock(e.blk, ofs), LastBlock(e.blk, ofs, cnt), gaps);
    var (e0, req, _) := Prepare(e, [], ofs, cnt, gaps);
    CopyIsEnough(e0, req, f);
  }

  lemma StepIsEnough(s: State, ev: Event)
    requires Enabled(s, ev) && Shape(s) && Enough(s.eng) && Alone(ev)
    ensures Enough(Step(s, ev).eng)
  {
    match ev
    case Pop(gaps) => PopIsEnough(s, gaps);
    case Copy(f) => CopyIsEnough(s.eng, s.req, f);
    case ImageCow(f, gaps) => CowIsEnough(s.eng, s.img.ofs, |s.img.data|, f, gaps);
    case _ => RestIsEnough(s, ev);
  }

  lemma PopIsEnough(s: State, gaps: Gaps)
    requires RoomLeft(s) && EngineOk(s) && Queues(s) && Enough(s.eng) && GapsAlone(gaps)
    ensures Enough(DoPop(s, gaps).eng)
  {
    var bio := s.waiting[0];
    assert OnDevice(|s.eng.orig|, bio);
    if bio.Write? && !s.stopping && !s.eng.corrupted {
      EnoughForRange(s.eng, s.req, bio.ofs, |bio.data|, gaps);
    }
  }

  lemma RestIsEnough(s: State, ev: Event)
    requires Enabled(s, ev) && Enough(s.eng) && Alone(ev) && !ev.Pop? && !ev.Copy? && !ev.ImageCow?
    ensures Enough(Step(s, ev).eng)
  {
    match ev
    case Submit(bio, late) => SubmitEngine(s, bio, late);
    case Elsewhere(act) => GrownOneIsEnough(s.eng, act);
    case ImageAsk(io) => SameIsEnough(s.eng, DoAsk(s, io).eng);
    case ImagePut(sent) => PutIsEnough(s, sent);
    case _ => OthersAreEnough(s, ev);
  }

  lemma PutIsEnough(s: State, sent: bool)
    requires s.img.Cowed? && Enough(s.eng)
    ensures Enough(DoImagePut(s, sent).eng)
  {
    SameIsEnough(s.eng, DoImagePut(s, sent).eng);
  }

  lemma OthersAreEnough(s: State, ev: Event)
    requires Enabled(s, ev) && Enough(s.eng) && !ev.Pop? && !ev.Copy? && !ev.ImageCow? && !ev.Submit?
    requires !ev.Elsewhere? && !ev.ImageAsk? && !ev.ImagePut?
    ensures Enough(Step(s, ev).eng)
  {
    SameIsEnough(s.eng, Step(s, ev).eng);
  }

  lemma GrownOneIsEnough(e: Engine, act: Outside)
    requires Enough(e) && act.Grown?
    ensures Enough(OneOutside(e, act))
  {
  }

  lemma SameIsEnough(e: Engine, e1: Engine)
    requires Enough(e) && e1.overflowed == e.overflowed && e1.blocks == e.blocks && e1.taken == e.taken
    requires |e1.pool| >= |e.pool| && |e1.orig| == |e.orig| && e1.blk == e.blk
    ensures Enough(e1)
  {
  }

  lemma {:induction false} RunIsEnough(s: State, evs: seq<Event>)
    requires Inv(s) && Enough(s.eng) && Legal(s, evs) && AllAlone(evs)
    ensures Enough(Run(s, evs).eng)
    decreases |evs|
  {
    if evs != [] {
      assert Alone(evs[0]);
      StepIsEnough(s, evs[0]);
      StepKeepsInv(s, evs[0]);
      forall k | 0 <= k < |evs[1..]|
        ensures Alone(evs[1..][k])
      {
        assert Alone(evs[k + 1]);
      }
      RunIsEnough(Step(s, evs[0]), evs[1..]);
    }
  }

  /** At the capture the pool has a descriptor for each block of the device. */
  ghost predicate Stocked(s0: State) {
    s0.eng.overflowed == 0 && s0.eng.taken + Count(s0.eng) <= |s0.eng.pool|
  }

  /** A pool that has a descriptor for each block of the device never runs out, whatever else fails. */
  lemma StockedNeverOverflows(s0: State, evs: seq<Event>)
    requires Captured(s0) && Legal(s0, evs) && AllAlone(evs) && Stocked(s0)
    ensures Run(s0, evs).eng.overflowed == 0
  {
    CaptureInv(s0);
    RunIsEnough(s0, evs);
  }

  /**
   * So on a device of whole blocks with a stocked pool, when no I/O fails, the snapshot is never corrupted
   * and in service nothing is lost: each sector is shown as the image has it, and each read that gets the
   * lock returns its slice of the image.
   */
  lemma HealthyIsRight(s0: State, evs: seq<Event>)
    requires Captured(s0) && Legal(s0, evs) && AllHealthy(evs) && AllAlone(evs) && Stocked(s0)
    requires |s0.eng.orig| % s0.eng.blk == 0
    ensures var s := Run(s0, evs);
            && !s.eng.corrupted && |s.orig0| == |s.eng.orig|
            && (InService(s) ==> s.lost == {} && forall i: nat | i < |s.orig0| ::
                                   Shown(s.eng, PendingNow(s), i) == Image(s)[i])
            && (InService(s) && Unlocked(s) && s.img.Reading? ==>
                  s.img.ofs + s.img.cnt <= |s.orig0| && Served(s) == Image(s)[s.img.ofs..s.img.ofs + s.img.cnt])
  {
    HealthyLosesNothing(s0, evs);
    StockedNeverOverflows(s0, evs);
    RunFacts(s0, evs);
    if InService(Run(s0, evs)) && Unlocked(Run(s0, evs)) && Run(s0, evs).img.Reading? {
      ServesImage(Run(s0, evs));
    }
  }

  /** An image write from its test of the flag to its end, nothing in between. */
  function ImageWriteSteps(ofs: nat, data: seq<Sector>, f: Faults, gaps: Gaps): seq<Event> {
    [ImageAsk(Write(ofs, data)), ImageCow(f, gaps), ImagePut(true)]
  }

  lemma StepAhead(s: State, ev: Event, evs: seq<Event>)
    requires Enabled(s, ev) && Legal(Step(s, ev), evs)
    ensures Legal(s, [ev] + evs) && Run(s, [ev] + evs) == Run(Step(s, ev), evs)
  {
    assert ([ev] + evs)[0] == ev && ([ev] + evs)[1..] == evs;
  }

  lemma ThreeSteps(s: State, a: Event, b: Event, c: Event)
    requires Enabled(s, a) && Enabled(Step(s, a), b) && Enabled(Step(Step(s, a), b), c)
    ensures Legal(s, [a, b, c]) && Run(s, [a, b, c]) == Step(Step(Step(s, a), b), c)
  {
    var s1, s2 := Step(s, a), Step(Step(s, a), b);
    StepAhead(s2, c, []);
    StepAhead(s1, b, [c]);
    StepAhead(s, a, [b, c]);
    assert [a] + [b, c] == [a, b, c] && [b] + [c] == [b, c] && [c] + [] == [c];
  }

  /** In such a run an image read is admitted, and an image write is done in full. */
  lemma HealthyIsServed(s0: State, evs: seq<Event>, io: Bio, f: Faults, gaps: Gaps)
    requires Captured(s0) && Legal(s0, evs) && AllHealthy(evs) && AllAlone(evs) && Stocked(s0)
    requires |s0.eng.orig| % s0.eng.blk == 0 && HealthyIo(f) && GapsAlone(gaps)
    requires var s := Run(s0, evs); Unlocked(s) && s.img.Quiet? && !io.NoData? && OnDevice(|s.eng.orig|, io)
    ensures var s := Run(s0, evs);
            && (io.Read? ==> Enabled(s, ImageAsk(io)) && Step(s, ImageAsk(io)).img == Reading(io.ofs, io.cnt))
            && (io.Write? ==>
                  var steps := ImageWriteSteps(io.ofs, io.data, f, gaps);
                  Legal(s, steps) && Run(s, steps).written == s.written + [io] && Run(s, steps).img.Quiet?)
  {
    var s := Run(s0, evs);
    HealthyIsRight(s0, evs);
    if io.Write? {
      CaptureInv(s0);
      RunSound(s0, evs);
      RunIsEnough(s0, evs);
      WriteIsDone(s, io.ofs, io.data, f, gaps);
    }
  }

  lemma WriteIsDone(s: State, ofs: nat, data: seq<Sector>, f: Faults, gaps: Gaps)
    requires Inv(s) && Sound(s) && Enough(s.eng) && HealthyIo(f) && GapsAlone(gaps)
    requires Unlocked(s) && s.img.Quiet? && OnDevice(|s.eng.orig|, Write(ofs, data))
    ensures var steps := ImageWriteSteps(ofs, data, f, gaps);
            && Legal(s, steps) && Run(s, steps).written == s.written + [Write(ofs, data)] && Run(s, steps).img.Quiet?
  {
    var s1 := Step(s, ImageAsk(Write(ofs, data)));
    assert s1 == s.(img := Writing(ofs, data));
    StepKeepsInv(s, ImageAsk(Write(ofs, data)));
    var s2 := Step(s1, ImageCow(f, gaps));
    StepSound(s1, ImageCow(f, gaps));
    StepIsEnough(s1, ImageCow(f, gaps));
    assert AllMapped(s2.eng, ofs, |data|);
    ThreeSteps(s, ImageAsk(Write(ofs, data)), ImageCow(f, gaps), ImagePut(true));
  }
}
