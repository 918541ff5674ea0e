/** What every run of the snapshot machine keeps, and what follows for images, copies and bios. */
module SnapshotProofs {
  import opened Basics
  import opened CowEngine
  import opened SnapshotMachine

  // ---- the invariant ----

  /** The flag is clear, and no write has gone by without copy-on-write. */
  predicate Clean(s: State) {
    !s.eng.corrupted && !s.bypassed
  }

  /** Contents at capture, plus the image writes in order. */
  function Image(s: State): seq<Sector> {
    ApplyAll(s.orig0, s.written)
  }

  predicate AllOnDevice(capacity: nat, bios: seq<Bio>) {
    forall bio | bio in bios :: OnDevice(capacity, bio)
  }

  ghost predicate EngineOk(s: State) {
    WellFormed(s.eng) && ReqOk(s.eng, s.req) && |s.orig0| == |s.eng.orig|
  }

  /** The image request under way lies on the device. */
  predicate ImageOnDevice(capacity: nat, img: ImageThread) {
    match img
    case Quiet => true
    case Reading(ofs, cnt) => OnDevice(capacity, Read(ofs, cnt))
    case Writing(ofs, data) => OnDevice(capacity, Write(ofs, data))
    case Cowed(ofs, data) => OnDevice(capacity, Write(ofs, data))
  }

  ghost predicate Queues(s: State) {
    && AllOnDevice(|s.eng.orig|, s.waiting) && AllOnDevice(|s.eng.orig|, s.inProcess)
    && ImageOnDevice(|s.eng.orig|, s.img)
  }

  predicate Flags(s: State) {
    && (Unlocked(s) ==> s.req == [] && s.inProcess == [])
    && (s.phase.Copying? ==> !s.eng.corrupted)
    && (s.phase.Preparing? && s.eng.corrupted ==> s.req == [])
    && (s.bypassed ==> s.eng.corrupted || s.stopping || !s.captured)
    && (s.phase.Exited? || s.phase.Draining? || s.phase.Done? ==> s.stopping)
    && (s.phase.Done? ==> s.waiting == [])
  }

  ghost predicate Shape(s: State) {
    EngineOk(s) && Queues(s) && Flags(s)
  }

  predicate NoWrites(bios: seq<Bio>) {
    forall k | 0 <= k < |bios| :: !bios[k].Write?
  }

  ghost predicate Deferral(s: State) {
    && s.accepted == s.issued + s.inProcess + s.waiting
    && (NoWrites(s.direct) ==> s.eng.orig == ApplyAll(s.orig0, s.issued))
  }

  /** Whatever has failed: a sector that is not lost is shown as the image has it. */
  ghost predicate Right(s: State) {
    && |s.orig0| == |s.eng.orig|
    && forall i: nat | i < |s.eng.orig| && i !in s.lost :: Shown(s.eng, PendingNow(s), i) == Image(s)[i]
  }

  /** Every write waiting in the batch, and every finished copy of the image thread, is covered. */
  ghost predicate Covered(s: State) {
    && (forall k | 0 <= k < |s.inProcess| && s.inProcess[k].Write? ::
          AllMapped(s.eng, s.inProcess[k].ofs, |s.inProcess[k].data|))
    && (s.img.Cowed? ==> AllMapped(s.eng, s.img.ofs, |s.img.data|))
  }

  ghost predicate CopiedFirst(s: State) {
    && |s.orig0| == |s.eng.orig|
    && forall i: nat | i < |s.eng.orig| && s.eng.orig[i] != s.orig0[i] :: Stored(s, i)
  }

  /** Sectors are lost only where a block could not be read. */
  ghost predicate LostByReads(s: State) {
    forall i | i in s.lost :: i / s.eng.blk in s.missed
  }

  ghost predicate Refines(s: State) {
    Clean(s) ==> Covered(s) && CopiedFirst(s) && LostByReads(s)
  }

  ghost predicate Core(s: State) {
    Shape(s) && Deferral(s) && Right(s) && Refines(s)
  }

  // ---- issuing and applying ----

  lemma {:induction false} ApplyAllAppend(dev: seq<Sector>, a: seq<Bio>, b: seq<Bio>)
    ensures ApplyAll(dev, a + b) == ApplyAll(ApplyAll(dev, a), b)
    decreases |b|
  {
    if b == [] {
      assert a + b == a;
    } else {
      assert (a + b)[..|a + b| - 1] == a + b[..|b| - 1];
      ApplyAllAppend(dev, a, b[..|b| - 1]);
    }
  }

  lemma ApplyAllSnoc(dev: seq<Sector>, a: seq<Bio>, bio: Bio)
    ensures ApplyAll(dev, a + [bio]) == Apply(ApplyAll(dev, a), bio)
  {
  }

  // ---- mapping facts ----

  /** The blocks a write touches are exactly the blocks of its sectors. */
  lemma TouchedBlocks(e: Engine, ofs: nat, cnt: nat)
    requires cnt > 0
    requires forall b | FirstBlock(e.blk, ofs) <= b <= LastBlock(e.blk, ofs, cnt) :: b in e.blocks
    ensures AllMapped(e, ofs, cnt)
  {
    forall i | ofs <= i < ofs + cnt
      ensures Mapped(e, i)
    {
      DivMonotone(ofs, i, e.blk);
      DivMonotone(i, ofs + cnt - 1, e.blk);
    }
  }

  lemma MappedGrows(e: Engine, e': Engine, ofs: nat, cnt: nat)
    requires AllMapped(e, ofs, cnt) && e'.blk == e.blk
    requires forall b | b in e.blocks :: b in e'.blocks
    ensures AllMapped(e', ofs, cnt)
  {
    forall i | ofs <= i < ofs + cnt
      ensures Mapped(e', i)
    {
      assert Mapped(e, i);
    }
  }

  lemma CoveredGrows(s: State, s': State)
    requires Covered(s) && s'.inProcess == s.inProcess && (s'.img.Cowed? ==> s'.img == s.img) && s'.eng.blk == s.eng.blk
    requires forall b | b in s.eng.blocks :: b in s'.eng.blocks
    ensures Covered(s')
  {
    forall k | 0 <= k < |s'.inProcess| && s'.inProcess[k].Write?
      ensures AllMapped(s'.eng, s'.inProcess[k].ofs, |s'.inProcess[k].data|)
    {
      MappedGrows(s.eng, s'.eng, s.inProcess[k].ofs, |s.inProcess[k].data|);
    }
    if s'.img.Cowed? {
      MappedGrows(s.eng, s'.eng, s.img.ofs, |s.img.data|);
    }
  }

  // ---- the steps that change the original device ----

  /** A write that reaches the device changes the image only where it is exposed. */
  lemma ToDeviceRight(s: State, bio: Bio)
    requires Right(s)
    ensures Right(ToDevice(s, bio))
  {
    var s' := ToDevice(s, bio);
    forall i: nat | i < |s.eng.orig| && i !in s'.lost
      ensures Shown(s'.eng, PendingNow(s'), i) == Image(s')[i]
    {
      assert Shown(s.eng, PendingNow(s), i) == Image(s)[i];
      if s'.eng.orig[i] != s.eng.orig[i] {
        assert i !in Exposed(s, bio);
        assert Stored(s, i);
      }
    }
  }

  /** Right depends on contents, map, requests and image writes alone. */
  lemma RightFrame(s: State, s': State)
    requires Right(s) && PendingNow(s') == PendingNow(s) && s'.orig0 == s.orig0 && s'.written == s.written
    requires s'.lost == s.lost
    requires s'.eng.orig == s.eng.orig && s'.eng.store == s.eng.store && s'.eng.blocks == s.eng.blocks
    requires s'.eng.blk == s.eng.blk
    ensures Right(s')
  {
    forall i: nat | i < |s.eng.orig| && i !in s'.lost
      ensures Shown(s'.eng, PendingNow(s'), i) == Image(s')[i]
    {
      assert Shown(s.eng, PendingNow(s), i) == Image(s)[i];
    }
  }

  /** A write to blocks already mapped loses nothing. */
  lemma IssueRefines(s: State, s': State, bio: Bio)
    requires Refines(s) && Clean(s) && PendingNow(s) == {} == PendingNow(s') && bio in s.inProcess
    requires s'.eng == s.eng.(orig := Apply(s.eng.orig, bio)) && s'.lost == s.lost + Exposed(s, bio)
    requires s'.missed == s.missed
    requires s'.img == s.img && s'.orig0 == s.orig0
    requires forall k | 0 <= k < |s'.inProcess| :: s'.inProcess[k] in s.inProcess
    ensures Covered(s') && CopiedFirst(s') && LostByReads(s')
  {
    NothingExposed(s, bio);
    forall i: nat | i < |s.eng.orig| && s'.eng.orig[i] != s.orig0[i]
      ensures Stored(s', i)
    {
      assert s.eng.orig[i] != s.orig0[i] ==> Stored(s, i);
      assert s'.eng.orig[i] != s.eng.orig[i] ==> Writes(bio, i);
    }
    CoveredShrinks(s, s');
  }

  /** A covered write exposes nothing. */
  lemma NothingExposed(s: State, bio: Bio)
    requires Covered(s) && PendingNow(s) == {} && bio in s.inProcess
    ensures Exposed(s, bio) == {}
    ensures forall i: nat | Writes(bio, i) :: Stored(s, i)
  {
    if bio.Write? {
      assert AllMapped(s.eng, bio.ofs, |bio.data|);
    }
  }

  lemma CoveredShrinks(s: State, s': State)
    requires Covered(s) && s'.eng.blocks == s.eng.blocks && s'.eng.blk == s.eng.blk && s'.img == s.img
    requires forall k | 0 <= k < |s'.inProcess| :: s'.inProcess[k] in s.inProcess
    ensures Covered(s')
  {
    forall k | 0 <= k < |s'.inProcess| && s'.inProcess[k].Write?
      ensures AllMapped(s'.eng, s'.inProcess[k].ofs, |s'.inProcess[k].data|)
    {
      var j :| 0 <= j < |s.inProcess| && s.inProcess[j] == s'.inProcess[k];
      MappedGrows(s.eng, s'.eng, s.inProcess[j].ofs, |s.inProcess[j].data|);
    }
    if s.img.Cowed? {
      MappedGrows(s.eng, s'.eng, s.img.ofs, |s.img.data|);
    }
  }

  predicate Writes(bio: Bio, i: nat) {
    bio.Write? && bio.ofs <= i < bio.ofs + |bio.data|
  }

  lemma IssueStep(s: State)
    requires Enabled(s, Issue) && Core(s)
    ensures Core(Step(s, Issue))
  {
    var s' := Step(s, Issue);
    EngineSame(s, s');
    IssueQueues(s);
    ToDeviceRight(s, s.inProcess[0]);
    RightFrame(ToDevice(s, s.inProcess[0]), s');
    if Clean(s') {
      IssueRefines(s, s', s.inProcess[0]);
    }
  }

  lemma IssueQueues(s: State)
    requires Enabled(s, Issue) && Queues(s) && Deferral(s)
    ensures Queues(Step(s, Issue)) && Deferral(Step(s, Issue))
  {
    var s' := Step(s, Issue);
    var bio := s.inProcess[0];
    ApplyAllSnoc(s.orig0, s.issued, bio);
    assert s.inProcess == [bio] + s'.inProcess;
  }

  /** Steps that leave pool and map alone keep the engine well formed. */
  lemma EngineSame(s: State, s': State)
    requires EngineOk(s) && (s'.req == s.req || s'.req == []) && s'.orig0 == s.orig0
    requires s'.eng == s.eng.(orig := s'.eng.orig, store := s'.eng.store, failed := s'.eng.failed,
                              corrupted := s'.eng.corrupted, err := s'.eng.err)
    requires |s'.eng.orig| == |s.eng.orig| && |s'.eng.store| == |s.eng.store|
    ensures EngineOk(s')
  {
  }

  lemma SubmitStep(s: State, bio: Bio, late: bool)
    requires Enabled(s, Submit(bio, late)) && Core(s)
    ensures Core(Step(s, Submit(bio, late)))
  {
    var s' := Step(s, Submit(bio, late));
    EngineSame(s, s');
    SubmitQueues(s, bio, late);
    SubmitDefers(s, bio, late);
    SubmitRight(s, bio, late);
    SubmitRefines(s, bio, late);
  }

  lemma SubmitRight(s: State, bio: Bio, late: bool)
    requires Right(s)
    ensures Right(DoSubmit(s, bio, late))
  {
    if Refused(s, late) {
      ToDeviceRight(s, bio);
      RightFrame(ToDevice(s, bio), DoSubmit(s, bio, late));
    } else {
      RightFrame(s, DoSubmit(s, bio, late));
    }
  }

  lemma SubmitQueues(s: State, bio: Bio, late: bool)
    requires Enabled(s, Submit(bio, late)) && Queues(s) && Flags(s)
    ensures Queues(Step(s, Submit(bio, late))) && Flags(Step(s, Submit(bio, late)))
  {
    var s' := Step(s, Submit(bio, late));
    assert forall b | b in s'.waiting :: b in s.waiting || b == bio;
  }

  lemma SubmitRefines(s: State, bio: Bio, late: bool)
    requires Refines(s)
    ensures Refines(DoSubmit(s, bio, late))
  {
    var s' := DoSubmit(s, bio, late);
    if Clean(s') {
      if Refused(s, late) {
        assert s'.eng.orig == s.eng.orig && Exposed(s, bio) == {};
      }
      SameRefines(s, s');
    }
  }

  lemma SubmitDefers(s: State, bio: Bio, late: bool)
    requires Enabled(s, Submit(bio, late)) && Deferral(s)
    ensures Deferral(Step(s, Submit(bio, late)))
  {
    var s' := Step(s, Submit(bio, late));
    if !Refused(s, late) {
      assert s'.accepted == s'.issued + s'.inProcess + s'.waiting;
    } else if NoWrites(s'.direct) {
      assert s'.direct[|s.direct|] == bio;
      assert forall k | 0 <= k < |s.direct| :: s.direct[k] == s'.direct[k];
    }
  }

  /** Steps that change neither original, map nor batch keep the refinement. */
  lemma SameRefines(s: State, s': State)
    requires Refines(s) && (Clean(s') ==> Clean(s)) && PendingNow(s') == PendingNow(s)
    requires s'.eng.orig == s.eng.orig && s'.eng.blocks == s.eng.blocks && s'.eng.blk == s.eng.blk
    requires (s'.img.Cowed? ==> s'.img == s.img) && s'.orig0 == s.orig0 && s'.inProcess == s.inProcess
    requires s'.missed == s.missed && s'.lost <= s.lost
    ensures Refines(s')
  {
    if Clean(s') {
      CoveredGrows(s, s');
      forall i: nat | i < |s.eng.orig| && s'.eng.orig[i] != s.orig0[i]
        ensures Stored(s', i)
      {
        assert Stored(s, i);
      }
    }
  }

  lemma DrainStep(s: State)
    requires Enabled(s, Drain) && Core(s)
    ensures Core(Step(s, Drain))
  {
    var s' := Step(s, Drain);
    EngineSame(s, s');
    DrainQueues(s);
    ToDeviceRight(s, s.waiting[0]);
    RightFrame(ToDevice(s, s.waiting[0]), s');
    if Clean(s') {
      assert s'.eng.orig == s.eng.orig && Exposed(s, s.waiting[0]) == {};
      SameRefines(s, s');
    }
  }

  lemma DrainQueues(s: State)
    requires Enabled(s, Drain) && Queues(s) && Flags(s) && Deferral(s)
    ensures Queues(Step(s, Drain)) && Flags(Step(s, Drain)) && Deferral(Step(s, Drain))
  {
  }

  // ---- taking a bio into the batch ----

  lemma PopStep(s: State, gaps: Gaps)
    requires Enabled(s, Pop(gaps)) && Core(s)
    ensures Core(Step(s, Pop(gaps)))
  {
    var s' := Step(s, Pop(gaps));
    var bio := s.waiting[0];
    assert OnDevice(|s.eng.orig|, bio);
    PopEngine(s, gaps);
    PopQueues(s, gaps);
    PopRight(s, gaps);
    if Clean(s') {
      if bio.Write? && !s.stopping {
        WritePopRefines(s, s', bio, gaps);
      } else {
        SameRefines(s, s'.(inProcess := s.inProcess));
        assert Covered(s');
      }
    }
  }

  lemma PopEngine(s: State, gaps: Gaps)
    requires RoomLeft(s) && EngineOk(s)
    ensures var s' := DoPop(s, gaps);
            EngineOk(s') && s'.eng.orig == s.eng.orig && (s.eng.corrupted ==> s'.eng.corrupted && s'.req == s.req)
            && (s'.phase.Preparing? ==> s'.eng.corrupted == s.eng.corrupted)
  {
    var bio := s.waiting[0];
    if bio.Write? && |bio.data| > 0 && !s.stopping && !s.eng.corrupted {
      PrepareKeeps(s.eng, s.req, FirstBlock(s.eng.blk, bio.ofs), LastBlock(s.eng.blk, bio.ofs, |bio.data|), gaps);
    } else {
      EngineSame(s, DoPop(s, gaps));
    }
  }

  lemma PopQueues(s: State, gaps: Gaps)
    requires RoomLeft(s) && EngineOk(s) && Queues(s) && Flags(s) && Deferral(s)
    ensures Queues(DoPop(s, gaps)) && Flags(DoPop(s, gaps)) && Deferral(DoPop(s, gaps))
  {
    PopEngine(s, gaps);
    var s' := DoPop(s, gaps);
    MoveOne(s.issued, s.inProcess, s.waiting);
    assert s'.waiting == s.waiting[1..] && s'.inProcess == s.inProcess + [s.waiting[0]];
  }

  lemma MoveOne(a: seq<Bio>, b: seq<Bio>, c: seq<Bio>)
    requires c != []
    ensures a + b + c == a + (b + [c[0]]) + c[1..]
  {
  }

  /** Preparing shows what was shown; where it fails, the blocks mapped but not stored are lost. */
  lemma PopRight(s: State, gaps: Gaps)
    requires RoomLeft(s) && EngineOk(s) && Right(s)
    ensures Right(DoPop(s, gaps))
  {
    var s' := DoPop(s, gaps);
    var bio := s.waiting[0];
    if bio.Write? && |bio.data| > 0 && !s.stopping && !s.eng.corrupted {
      var first, last := FirstBlock(s.eng.blk, bio.ofs), LastBlock(s.eng.blk, bio.ofs, |bio.data|);
      PrepareKeeps(s.eng, s.req, first, last, gaps);
      forall i: nat | i < |s.eng.orig| && i !in s'.lost
        ensures Shown(s'.eng, PendingNow(s'), i) == Image(s')[i]
      {
        PrepareShows(s.eng, s.req, first, last, gaps, i);
        assert Shown(s.eng, PendingNow(s), i) == Image(s)[i];
        assert s'.phase.Finishing? ==> i / s'.eng.blk !in Pending(s'.req);
      }
    } else {
      RightFrame(s, s');
    }
  }

  lemma WritePopRefines(s: State, s': State, bio: Bio, gaps: Gaps)
    requires Shape(s) && Clean(s) && Refines(s) && RoomLeft(s) && bio == s.waiting[0] && bio.Write? && |bio.data| > 0
    requires !s.stopping && s' == DoPop(s, gaps) && Clean(s')
    ensures Refines(s')
  {
    var first, last := FirstBlock(s.eng.blk, bio.ofs), LastBlock(s.eng.blk, bio.ofs, |bio.data|);
    PrepareKeeps(s.eng, s.req, first, last, gaps);
    TouchedBlocks(s'.eng, bio.ofs, |bio.data|);
    CoveredGrows(s, s'.(inProcess := s.inProcess));
    forall i: nat | i < |s.eng.orig| && s'.eng.orig[i] != s.orig0[i]
      ensures Stored(s', i)
    {
      assert Stored(s, i);
      StaysStored(s.eng, s.req, first, last, gaps, i / s.eng.blk);
    }
  }

  /** A block mapped and stored before is never pending again. */
  lemma StaysStored(e: Engine, req: seq<Dio>, first: nat, last: int, gaps: Gaps, b: nat)
    requires WellFormed(e) && ReqOk(e, req) && b in e.blocks && b !in Pending(req)
    ensures b !in Pending(PrepareRequests(e, req, first, last, gaps).1)
  {
    PrepareAdds(e, req, first, last, gaps);
    var req1 := PrepareRequests(e, req, first, last, gaps).1;
    forall k | 0 <= k < |req1|
      ensures req1[k].block != b
    {
      assert k < |req| ==> req[k].block in Pending(req);
    }
  }

  // ---- copying ----

  lemma StoreAllWellFormed(e: Engine, req: seq<Dio>)
    requires WellFormed(e)
    ensures WellFormed(StoreAll(e, req))
  {
    StoreAllKeeps(e, req);
    assert PoolOk(e.blk, |e.store|, e.pool);
    assert MapOk(e);
  }

  lemma CopyOutKeeps(e: Engine, req: seq<Dio>, f: Faults)
    requires WellFormed(e)
    ensures var (e1, st) := CopyOut(e, req, f);
            && WellFormed(e1) && |e1.store| == |e.store|
            && e1 == e.(store := e1.store, corrupted := e1.corrupted, err := e1.err, failed := e1.failed)
            && (e.corrupted ==> e1.corrupted && e1.err == e.err) && (st == Success ==> e1 == StoreAll(e, req))
            && (st != Success && !e1.corrupted ==> !ReadWorks(e, req, f))
  {
    StoreAllWellFormed(e, req);
    StoreAllKeeps(e, req);
    assert PoolOk(e.blk, |e.store|, e.pool);
    assert MapOk(e);
  }

  /** Whatever copying comes to, sectors outside the request are shown as before. */
  lemma CopyOutShows(e: Engine, req: seq<Dio>, f: Faults, i: nat)
    requires WellFormed(e) && ReqOk(e, req) && i < |e.orig|
    requires CopyOut(e, req, f).1 == Success || i / e.blk !in Pending(req)
    ensures Shown(CopyOut(e, req, f).0, {}, i) == Shown(e, Pending(req), i)
  {
    if CopyOut(e, req, f).1 == Success {
      StoreAllShows(e, req, i);
    } else if ReadWorks(e, req, f) && Mapped(e, i) {
      RequestMisses(e, req, i);
      ScatterMiss(e.store, RequestPlaces(req), f.junk, Target(e, i));
    }
  }

  /** The places of a request are those of its blocks. */
  lemma {:induction false} RequestMisses(e: Engine, req: seq<Dio>, i: nat)
    requires WellFormed(e) && ReqOk(e, req) && Mapped(e, i) && i / e.blk !in Pending(req)
    ensures forall k | 0 <= k < |RequestPlaces(req)| :: RequestPlaces(req)[k] != Target(e, i)
    decreases |req|
  {
    if req != [] {
      var b := req[0].block;
      PlaceDistinct(e, b);
      PendingTail(req);
      RequestMisses(e, req[1..], i);
      forall j | 0 <= j < e.blk
        ensures Place(req[0].descr)[j] != Target(e, i)
      {
        if Place(req[0].descr)[j] == Target(e, i) {
          CellsDiffer(e, b, j, i / e.blk, i % e.blk);
        }
      }
    }
  }

  lemma CopyStep(s: State, f: Faults)
    requires Enabled(s, Copy(f)) && Core(s)
    ensures Core(Step(s, Copy(f)))
  {
    var s' := Step(s, Copy(f));
    CopyOutKeeps(s.eng, s.req, f);
    CopyRight(s, f);
    if Clean(s') {
      CopyRefines(s, f);
    }
  }

  lemma CopyRight(s: State, f: Faults)
    requires s.phase.Copying? && EngineOk(s) && Right(s)
    ensures Right(DoCopy(s, f))
  {
    var s' := DoCopy(s, f);
    CopyOutKeeps(s.eng, s.req, f);
    forall i: nat | i < |s.eng.orig| && i !in s'.lost
      ensures Shown(s'.eng, {}, i) == Image(s')[i]
    {
      CopyOutShows(s.eng, s.req, f, i);
      assert Shown(s.eng, PendingNow(s), i) == Image(s)[i];
    }
  }

  lemma CopyRefines(s: State, f: Faults)
    requires s.phase.Copying? && EngineOk(s) && Refines(s) && Clean(s) && Clean(DoCopy(s, f))
    ensures Refines(DoCopy(s, f))
  {
    var s' := DoCopy(s, f);
    CopyOutKeeps(s.eng, s.req, f);
    CoveredGrows(s, s');
    forall i: nat | i < |s.eng.orig| && s'.eng.orig[i] != s.orig0[i]
      ensures Stored(s', i)
    {
      assert Stored(s, i);
    }
  }

  // ---- the image thread ----

  /** What copy-on-write ahead of an image write does to the engine, corrupted or not. */
  lemma CowKeeps(e: Engine, ofs: nat, cnt: nat, f: Faults, gaps: Gaps)
    requires WellFormed(e) && cnt > 0
    ensures var (e0, req, st0) := Prepare(e, [], ofs, cnt, gaps);
            var (e1, req1, st1) := CopyOnWrite(e, ofs, cnt, f, gaps);
            && WellFormed(e0) && ReqOk(e0, req) && Grows(e, e0) && req1 == req
            && WellFormed(e1) && e1.orig == e.orig && e1.blk == e.blk && |e1.store| == |e.store|
            && e1.blocks == e0.blocks
            && (e.corrupted ==> e1.corrupted && e1.err == e.err) && (st0 != Success ==> e1.corrupted)
            && e1.overflowed == e0.overflowed
            && (st0 == Success ==> AllMapped(e1, ofs, cnt))
            && (st1 != Success && !e1.corrupted ==> st0 == Success && req != [] && !ReadWorks(e0, req, f))
  {
    PrepareKeeps(e, [], FirstBlock(e.blk, ofs), LastBlock(e.blk, ofs, cnt), gaps);
    var (e0, req, st0) := Prepare(e, [], ofs, cnt, gaps);
    if st0 == Success {
      CopyOutKeeps(e0, req, f);
      TouchedBlocks(e0, ofs, cnt);
      var e1 := if req == [] then e0 else CopyOut(e0, req, f).0;
      assert CopyOnWrite(e, ofs, cnt, f, gaps).0 == e1;
      MappedGrows(e0, e1, ofs, cnt);
    }
  }

  /** Copy-on-write shows what was shown, except for new blocks whose copy failed. */
  lemma CowShows(e: Engine, ofs: nat, cnt: nat, f: Faults, gaps: Gaps, i: nat)
    requires WellFormed(e) && cnt > 0 && i < |e.orig|
    requires var (e1, req, st) := CopyOnWrite(e, ofs, cnt, f, gaps); st == Success || i / e.blk !in Pending(req)
    ensures Shown(CopyOnWrite(e, ofs, cnt, f, gaps).0, {}, i) == Shown(e, {}, i)
  {
    CowKeeps(e, ofs, cnt, f, gaps);
    assert Pending([]) == {};
    var (e0, req, st0) := Prepare(e, [], ofs, cnt, gaps);
    PrepareShows(e, [], FirstBlock(e.blk, ofs), LastBlock(e.blk, ofs, cnt), gaps, i);
    if st0 == Success && req != [] {
      CopyOutShows(e0, req, f, i);
    }
  }

  lemma ImageCowStep(s: State, f: Faults, gaps: Gaps)
    requires Enabled(s, ImageCow(f, gaps)) && Core(s)
    ensures Core(Step(s, ImageCow(f, gaps)))
  {
    var s' := Step(s, ImageCow(f, gaps));
    CowKeeps(s.eng, s.img.ofs, |s.img.data|, f, gaps);
    ImageCowRight(s, f, gaps);
    if Clean(s') {
      ImageCowRefines(s, f, gaps);
    }
  }

  lemma ImageCowRight(s: State, f: Faults, gaps: Gaps)
    requires Unlocked(s) && s.img.Writing? && |s.img.data| > 0 && EngineOk(s) && Right(s)
    ensures Right(DoImageCow(s, f, gaps))
  {
    var s' := DoImageCow(s, f, gaps);
    CowKeeps(s.eng, s.img.ofs, |s.img.data|, f, gaps);
    forall i: nat | i < |s.eng.orig| && i !in s'.lost
      ensures Shown(s'.eng, {}, i) == Image(s')[i]
    {
      assert Shown(s.eng, PendingNow(s), i) == Image(s)[i];
      CowShows(s.eng, s.img.ofs, |s.img.data|, f, gaps, i);
    }
  }

  lemma ImageCowRefines(s: State, f: Faults, gaps: Gaps)
    requires Unlocked(s) && s.img.Writing? && |s.img.data| > 0 && EngineOk(s) && s.inProcess == []
    requires Refines(s) && Clean(s) && Clean(DoImageCow(s, f, gaps))
    ensures Refines(DoImageCow(s, f, gaps))
  {
    var s' := DoImageCow(s, f, gaps);
    CowKeeps(s.eng, s.img.ofs, |s.img.data|, f, gaps);
    forall i: nat | i < |s.eng.orig| && s'.eng.orig[i] != s.orig0[i]
      ensures Stored(s', i)
    {
      assert Stored(s, i);
    }
  }

  lemma ImagePutStep(s: State, sent: bool)
    requires Enabled(s, ImagePut(sent)) && Core(s)
    ensures Core(Step(s, ImagePut(sent)))
  {
    var s' := Step(s, ImagePut(sent));
    EngineSame(s, s');
    ImagePutRight(s, sent);
    SameRefines(s, s');
  }

  lemma ImagePutRight(s: State, sent: bool)
    requires Unlocked(s) && s.img.Cowed? && EngineOk(s) && Right(s)
    ensures Right(DoImagePut(s, sent))
  {
    var s' := DoImagePut(s, sent);
    var w := Write(s.img.ofs, s.img.data);
    ApplyAllSnoc(s.orig0, s.written, w);
    forall i: nat | i < |s.eng.orig| && i !in s'.lost
      ensures Shown(s'.eng, {}, i) == Image(s')[i]
    {
      if sent && AllMapped(s.eng, s.img.ofs, |s.img.data|) {
        OverwriteShows(s.eng, s.img.ofs, s.img.data, i);
      }
      assert i !in s.lost ==> Shown(s.eng, PendingNow(s), i) == Image(s)[i];
    }
  }

  // ---- the other devices of the snapstore ----

  /** What another device stores in its own descriptors is not shown here. */
  lemma OtherStoresRight(s: State, id: nat, data: seq<Sector>)
    requires Enabled(s, OtherStores(id, data)) && EngineOk(s) && Right(s)
    ensures Right(Step(s, OtherStores(id, data)))
  {
    var s' := Step(s, OtherStores(id, data));
    forall i: nat | i < |s.eng.orig| && i !in s'.lost
      ensures Shown(s'.eng, PendingNow(s'), i) == Image(s')[i]
    {
      assert Shown(s.eng, PendingNow(s), i) == Image(s)[i];
      if Mapped(s.eng, i) {
        OtherMisses(s, id, i);
        ScatterMiss(s.eng.store, Place(s.eng.pool[id]), data, Target(s.eng, i));
      }
    }
  }

  /** No sector of the snapstore serves two devices. */
  lemma OtherMisses(s: State, id: nat, i: nat)
    requires EngineOk(s) && id in s.eng.others && id < |s.eng.pool| && Mapped(s.eng, i)
    ensures Target(s.eng, i) !in Place(s.eng.pool[id])
  {
    var b, j := i / s.eng.blk, i % s.eng.blk;
    var d := s.eng.blocks[b];
    assert s.eng.pool[d.id] == d;
    forall k | 0 <= k < |Place(s.eng.pool[id])|
      ensures Place(s.eng.pool[id])[k] != Target(s.eng, i)
    {
      PoolCellsDiffer(s.eng.blk, |s.eng.store|, s.eng.pool, d.id, j, id, k);
    }
  }

  // ---- the remaining steps ----

  lemma PhaseStep(s: State, ev: Event)
    requires Enabled(s, ev) && Core(s)
    requires ev in {Begin, EndPrepare, EndBatch, Release, Stop, Exit, Deactivate, Finish}
    ensures Core(Step(s, ev))
  {
    var s' := Step(s, ev);
    EngineSame(s, s');
    assert Pending([]) == {};
    RightFrame(s, s');
    SameRefines(s, s');
  }

  lemma AskStep(s: State, io: Bio)
    requires Enabled(s, ImageAsk(io)) && Core(s)
    ensures Core(DoAsk(s, io))
  {
    var s' := DoAsk(s, io);
    EngineSame(s, s');
    RightFrame(s, s');
    SameRefines(s, s');
  }

  lemma GetStep(s: State)
    requires s.img.Reading? && Core(s)
    ensures Core(s.(img := Quiet))
  {
    var s' := s.(img := Quiet);
    RightFrame(s, s');
    SameRefines(s, s');
  }

  lemma ElsewhereStep(s: State, act: Outside)
    requires Core(s)
    ensures Core(s.(eng := OneOutside(s.eng, act)))
  {
    var s' := s.(eng := OneOutside(s.eng, act));
    OneOutsideKeeps(s.eng, act);
    RightFrame(s, s');
    SameRefines(s, s');
  }

  lemma OtherStoresStep(s: State, id: nat, data: seq<Sector>)
    requires Enabled(s, OtherStores(id, data)) && Core(s)
    ensures Core(Step(s, OtherStores(id, data)))
  {
    var s' := Step(s, OtherStores(id, data));
    EngineSame(s, s');
    OtherStoresRight(s, id, data);
    SameRefines(s, s');
  }

  lemma StepKeepsCore(s: State, ev: Event)
    requires Enabled(s, ev) && Core(s)
    ensures Core(Step(s, ev))
  {
    match ev
    case Submit(bio, late) => SubmitStep(s, bio, late);
    case Pop(gaps) => PopStep(s, gaps);
    case Copy(f) => CopyStep(s, f);
    case Issue => IssueStep(s);
    case Drain => DrainStep(s);
    case ImageCow(f, gaps) => ImageCowStep(s, f, gaps);
    case ImagePut(sent) => ImagePutStep(s, sent);
    case ImageAsk(io) => AskStep(s, io);
    case ImageGet => GetStep(s);
    case Elsewhere(act) => ElsewhereStep(s, act);
    case OtherStores(id, data) => OtherStoresStep(s, id, data);
    case _ => PhaseStep(s, ev);
  }
}
