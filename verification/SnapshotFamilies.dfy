/**
 * The machine never looks at contents: runs come in families that differ in contents alone, and whether
 * a step is possible, what gets copied and what is lost is the same for the whole family.
 */
module SnapshotFamilies {
  import opened Basics
  import opened CowEngine
  import opened SnapshotMachine
  import opened SnapshotProofs
  import opened SnapshotTheorems

  // ---- runs that differ in contents alone ----

  predicate SameBio(a: Bio, b: Bio) {
    match a
    case Write(ofs, data) => b.Write? && b.ofs == ofs && |b.data| == |data|
    case _ => b == a
  }

  predicate SameBios(a: seq<Bio>, b: seq<Bio>) {
    |a| == |b| && forall k | 0 <= k < |a| :: SameBio(a[k], b[k])
  }

  predicate SameFaults(f: Faults, g: Faults) {
    f.readOk == g.readOk && f.storeOk == g.storeOk
  }

  predicate SameEvent(a: Event, b: Event) {
    match a
    case Submit(bio, late) => b.Submit? && SameBio(bio, b.bio) && b.late == late
    case Copy(f) => b.Copy? && SameFaults(f, b.f)
    case ImageAsk(io) => b.ImageAsk? && SameBio(io, b.io)
    case ImageCow(f, gaps) => b.ImageCow? && SameFaults(f, b.f) && b.gaps == gaps
    case OtherStores(id, data) => b.OtherStores? && b.id == id
    case _ => b == a
  }

  predicate SameEvents(a: seq<Event>, b: seq<Event>) {
    |a| == |b| && forall k | 0 <= k < |a| :: SameEvent(a[k], b[k])
  }

  predicate SameImg(a: ImageThread, b: ImageThread) {
    match a
    case Writing(ofs, data) => b.Writing? && b.ofs == ofs && |b.data| == |data|
    case Cowed(ofs, data) => b.Cowed? && b.ofs == ofs && |b.data| == |data|
    case _ => b == a
  }

  /** Engines that differ in the contents of the devices alone. */
  predicate SameEngine(e: Engine, g: Engine) {
    && |g.orig| == |e.orig| && |g.store| == |e.store| && g.blk == e.blk && g.last == e.last && g.blocks == e.blocks
    && g.pool == e.pool && g.taken == e.taken && g.others == e.others && g.pipe == e.pipe
    && g.overflowed == e.overflowed && g.notified == e.notified && g.corrupted == e.corrupted
    && g.err == e.err && g.failed == e.failed
  }

  predicate SameState(s: State, t: State) {
    && SameEngine(s.eng, t.eng) && SameBios(s.waiting, t.waiting) && SameBios(s.inProcess, t.inProcess)
    && t.req == s.req && t.phase == s.phase && t.captured == s.captured && t.stopping == s.stopping
    && SameImg(s.img, t.img) && t.missed == s.missed && t.lost == s.lost
  }

  lemma OneOutsideSame(e: Engine, g: Engine, act: Outside)
    requires SameEngine(e, g)
    ensures SameEngine(OneOutside(e, act), OneOutside(g, act))
  {
  }

  lemma {:induction false} OutsideSame(e: Engine, g: Engine, acts: seq<Outside>)
    requires SameEngine(e, g)
    ensures SameEngine(AllOutside(e, acts), AllOutside(g, acts))
    decreases |acts|
  {
    if acts != [] {
      OneOutsideSame(e, g, acts[0]);
      OutsideSame(OneOutside(e, acts[0]), OneOutside(g, acts[0]), acts[1..]);
    }
  }

  lemma BlockSame(e: Engine, g: Engine, req: seq<Dio>, b: nat, gaps: Gaps)
    requires SameEngine(e, g)
    ensures var (e1, req1, st1) := AddRequest(AfterGap(e, gaps, b), req, b, TestedLate(gaps, b));
            var (g1, req2, st2) := AddRequest(AfterGap(g, gaps, b), req, b, TestedLate(gaps, b));
            SameEngine(e1, g1) && req2 == req1 && st2 == st1
  {
    if b in gaps {
      OutsideSame(e, g, gaps[b].acts);
    }
    AddSame(AfterGap(e, gaps, b), AfterGap(g, gaps, b), req, b, TestedLate(gaps, b));
  }

  lemma AddSame(e: Engine, g: Engine, req: seq<Dio>, b: nat, late: bool)
    requires SameEngine(e, g)
    ensures var (e1, req1, st1) := AddRequest(e, req, b, late);
            var (g1, req2, st2) := AddRequest(g, req, b, late);
            SameEngine(e1, g1) && req2 == req1 && st2 == st1
  {
  }

  lemma {:induction false} PrepareSame(e: Engine, g: Engine, req: seq<Dio>, inx: nat, last: int, gaps: Gaps)
    requires SameEngine(e, g)
    ensures var (e1, req1, st1) := PrepareRequests(e, req, inx, last, gaps);
            var (g1, req2, st2) := PrepareRequests(g, req, inx, last, gaps);
            SameEngine(e1, g1) && req2 == req1 && st2 == st1
    decreases last + 1 - inx
  {
    if inx > last {
    } else if inx in e.blocks {
      PrepareSame(e, g, req, inx + 1, last, gaps);
    } else {
      BlockSame(e, g, req, inx, gaps);
      var (e1, req1, st1) := AddRequest(AfterGap(e, gaps, inx), req, inx, TestedLate(gaps, inx));
      if st1 == Success {
        var g1 := AddRequest(AfterGap(g, gaps, inx), req, inx, TestedLate(gaps, inx)).0;
        PrepareSame(e1, g1, req1, inx + 1, last, gaps);
      }
    }
  }

  lemma CopyOutSame(e: Engine, g: Engine, req: seq<Dio>, f: Faults, h: Faults)
    requires SameEngine(e, g) && SameFaults(f, h)
    ensures ReadWorks(e, req, f) == ReadWorks(g, req, h) && CopyOut(e, req, f).1 == CopyOut(g, req, h).1
    ensures SameEngine(CopyOut(e, req, f).0, CopyOut(g, req, h).0)
  {
    StoreAllKeeps(e, req);
    StoreAllKeeps(g, req);
  }

  lemma CowSame(e: Engine, g: Engine, ofs: nat, cnt: nat, f: Faults, h: Faults, gaps: Gaps)
    requires SameEngine(e, g) && SameFaults(f, h) && cnt > 0
    ensures var (e0, req, st0) := Prepare(e, [], ofs, cnt, gaps);
            var (g0, req', st0') := Prepare(g, [], ofs, cnt, gaps);
            && SameEngine(e0, g0) && req' == req && st0' == st0 && ReadWorks(e0, req, f) == ReadWorks(g0, req, h)
    ensures var (e1, req1, st1) := CopyOnWrite(e, ofs, cnt, f, gaps);
            var (g1, req2, st2) := CopyOnWrite(g, ofs, cnt, h, gaps);
            SameEngine(e1, g1) && req2 == req1 && st2 == st1
  {
    PrepareSame(e, g, [], FirstBlock(e.blk, ofs), LastBlock(e.blk, ofs, cnt), gaps);
    var (e0, req, st0) := Prepare(e, [], ofs, cnt, gaps);
    CopyOutSame(e0, Prepare(g, [], ofs, cnt, gaps).0, req, f, h);
  }

  lemma SameBiosMove(a: seq<Bio>, b: seq<Bio>, x: Bio, y: Bio)
    requires SameBios(a, b) && SameBio(x, y)
    ensures SameBios(a + [x], b + [y])
    ensures a != [] ==> SameBio(a[0], b[0]) && SameBios(a[1..], b[1..])
  {
    forall k | 0 <= k < |a + [x]|
      ensures SameBio((a + [x])[k], (b + [y])[k])
    {
      assert k < |a| ==> SameBio(a[k], b[k]);
    }
    if a != [] {
      assert SameBio(a[0], b[0]);
      forall k | 0 <= k < |a[1..]|
        ensures SameBio(a[1..][k], b[1..][k])
      {
        assert SameBio(a[k + 1], b[k + 1]);
      }
    }
  }

  lemma PassSameShape(s: State, t: State, bio: Bio, bio': Bio)
    requires SameState(s, t) && SameBio(bio, bio')
    ensures SameState(ToDevice(s, bio), ToDevice(t, bio'))
  {
    assert Exposed(s, bio) == Exposed(t, bio');
  }

  lemma TestSameShape(s: State, t: State, tested: bool)
    requires SameState(s, t)
    ensures SameState(if tested then s.(eng := Tested(s.eng)) else s, if tested then t.(eng := Tested(t.eng)) else t)
  {
  }

  lemma QueueSameShape(s: State, t: State, bio: Bio, bio': Bio)
    requires SameState(s, t) && SameBio(bio, bio')
    ensures SameState(s.(waiting := s.waiting + [bio], accepted := s.accepted + [bio]),
                      t.(waiting := t.waiting + [bio'], accepted := t.accepted + [bio']))
  {
    SameBiosMove(s.waiting, t.waiting, bio, bio');
  }

  lemma SubmitSameShape(s: State, t: State, bio: Bio, bio': Bio, late: bool)
    requires SameState(s, t) && SameBio(bio, bio')
    ensures SameState(DoSubmit(s, bio, late), DoSubmit(t, bio', late))
  {
    var tested := s.captured && !late;
    var s1, t1 := if tested then s.(eng := Tested(s.eng)) else s, if tested then t.(eng := Tested(t.eng)) else t;
    TestSameShape(s, t, tested);
    if Refused(s, late) {
      PassSameShape(s1, t1, bio, bio');
    } else {
      QueueSameShape(s1, t1, bio, bio');
    }
  }

  lemma PopSameShape(s: State, t: State, gaps: Gaps)
    requires SameState(s, t) && RoomLeft(s)
    ensures RoomLeft(t) && SameState(DoPop(s, gaps), DoPop(t, gaps))
  {
    var bio, bio' := s.waiting[0], t.waiting[0];
    SameBiosMove(s.waiting, t.waiting, bio, bio');
    SameBiosMove(s.inProcess, t.inProcess, bio, bio');
    if bio.Write? && |bio.data| > 0 && !s.stopping && !s.eng.corrupted {
      var first, last := FirstBlock(s.eng.blk, bio.ofs), LastBlock(s.eng.blk, bio.ofs, |bio.data|);
      PrepareSame(s.eng, t.eng, s.req, first, last, gaps);
      var (e1, req1, st) := Prepare(s.eng, s.req, bio.ofs, |bio.data|, gaps);
      InBlocksSame(e1, Prepare(t.eng, s.req, bio.ofs, |bio.data|, gaps).0, req1);
    }
  }

  lemma InBlocksSame(e: Engine, g: Engine, req: seq<Dio>)
    requires SameEngine(e, g)
    ensures InBlocks(e, req) == InBlocks(g, req)
  {
  }

  lemma CopySameShape(s: State, t: State, f: Faults, h: Faults)
    requires SameState(s, t) && SameFaults(f, h)
    ensures SameState(DoCopy(s, f), DoCopy(t, h))
  {
    CopyOutSame(s.eng, t.eng, s.req, f, h);
    assert InBlocks(s.eng, s.req) == InBlocks(t.eng, t.req);
  }

  lemma CowSameShape(s: State, t: State, f: Faults, h: Faults, gaps: Gaps)
    requires SameState(s, t) && SameFaults(f, h) && s.img.Writing? && |s.img.data| > 0
    ensures SameState(DoImageCow(s, f, gaps), DoImageCow(t, h, gaps))
  {
    CowSame(s.eng, t.eng, s.img.ofs, |s.img.data|, f, h, gaps);
  }

  lemma PutSameShape(s: State, t: State, sent: bool)
    requires SameState(s, t) && s.img.Cowed?
    ensures SameState(DoImagePut(s, sent), DoImagePut(t, sent))
  {
    assert forall i: nat :: Mapped(s.eng, i) == Mapped(t.eng, i);
    if AllMapped(s.eng, s.img.ofs, |s.img.data|) {
      assert AllMapped(t.eng, t.img.ofs, |t.img.data|);
    }
  }

  /** Steps of one kind take states of one shape to states of one shape. */
  lemma OtherStoresSameShape(s: State, t: State, id: nat, data: seq<Sector>, data': seq<Sector>)
    requires SameState(s, t) && Enabled(s, OtherStores(id, data))
    ensures Enabled(t, OtherStores(id, data'))
    ensures SameState(Step(s, OtherStores(id, data)), Step(t, OtherStores(id, data')))
  {
  }

  predicate OfWorker(ev: Event) {
    ev.Pop? || ev.Copy? || ev.Issue? || ev.Drain?
  }

  lemma WorkerSameShape(s: State, t: State, ev: Event, ev': Event)
    requires SameState(s, t) && SameEvent(ev, ev') && Enabled(s, ev) && Shape(s) && OfWorker(ev)
    ensures Enabled(t, ev') && SameState(Step(s, ev), Step(t, ev'))
  {
    match ev
    case Pop(gaps) => PopSameShape(s, t, gaps);
    case Copy(f) => CopySameShape(s, t, f, ev'.f);
    case Issue => IssueSameShape(s, t);
    case Drain => DrainSameShape(s, t);
  }

  lemma StepSame(s: State, t: State, ev: Event, ev': Event)
    requires SameState(s, t) && SameEvent(ev, ev') && Enabled(s, ev) && Shape(s)
    ensures Enabled(t, ev') && SameState(Step(s, ev), Step(t, ev'))
  {
    if OfWorker(ev) {
      WorkerSameShape(s, t, ev, ev');
    } else {
      match ev
      case Submit(bio, late) => SubmitSameShape(s, t, bio, ev'.bio, late);
      case ImageCow(f, gaps) => CowSameShape(s, t, f, ev'.f, gaps);
      case ImagePut(sent) => PutSameShape(s, t, sent);
      case ImageAsk(io) => AskSameShape(s, t, io, ev'.io);
      case Elsewhere(act) => ElsewhereSameShape(s, t, act);
      case OtherStores(id, data) => OtherStoresSameShape(s, t, id, data, ev'.data);
      case _ => PhaseSameShape(s, t, ev);
    }
  }

  lemma IssueSameShape(s: State, t: State)
    requires SameState(s, t) && Enabled(s, Issue) && Shape(s)
    ensures Enabled(t, Issue) && SameState(Step(s, Issue), Step(t, Issue))
  {
    SameBiosMove(s.inProcess, t.inProcess, s.inProcess[0], t.inProcess[0]);
    PassSameShape(s, t, s.inProcess[0], t.inProcess[0]);
  }

  lemma DrainSameShape(s: State, t: State)
    requires SameState(s, t) && Enabled(s, Drain) && Shape(s)
    ensures Enabled(t, Drain) && SameState(Step(s, Drain), Step(t, Drain))
  {
    SameBiosMove(s.waiting, t.waiting, s.waiting[0], t.waiting[0]);
    PassSameShape(s, t, s.waiting[0], t.waiting[0]);
  }

  lemma AskSameShape(s: State, t: State, io: Bio, io': Bio)
    requires SameState(s, t) && SameBio(io, io') && !io.NoData?
    ensures SameState(DoAsk(s, io), DoAsk(t, io'))
  {
    if s.eng.corrupted {
      TestSameShape(s, t, true);
    }
  }

  lemma ElsewhereSameShape(s: State, t: State, act: Outside)
    requires SameState(s, t)
    ensures SameState(s.(eng := OneOutside(s.eng, act)), t.(eng := OneOutside(t.eng, act)))
  {
    OneOutsideSame(s.eng, t.eng, act);
    EngineSameShape(s, t, OneOutside(s.eng, act), OneOutside(t.eng, act));
  }

  lemma EngineSameShape(s: State, t: State, e: Engine, g: Engine)
    requires SameState(s, t) && SameEngine(e, g)
    ensures SameState(s.(eng := e), t.(eng := g))
  {
  }

  lemma PhaseSameShape(s: State, t: State, ev: Event)
    requires SameState(s, t) && Enabled(s, ev)
    requires ev in {Begin, EndPrepare, EndBatch, Release, Stop, Exit, Deactivate, Finish, ImageGet}
    ensures Enabled(t, ev) && SameState(Step(s, ev), Step(t, ev))
  {
  }

  lemma {:induction false} RunSame(s: State, t: State, evs: seq<Event>, evs': seq<Event>)
    requires SameState(s, t) && SameEvents(evs, evs') && Legal(s, evs) && Inv(s)
    ensures Legal(t, evs') && SameState(Run(s, evs), Run(t, evs'))
    decreases |evs|
  {
    if evs != [] {
      assert SameEvent(evs[0], evs'[0]);
      StepSame(s, t, evs[0], evs'[0]);
      StepKeepsInv(s, evs[0]);
      assert SameEvents(evs[1..], evs'[1..]) by {
        forall k | 0 <= k < |evs[1..]|
          ensures SameEvent(evs[1..][k], evs'[1..][k])
        {
          assert SameEvent(evs[k + 1], evs'[k + 1]);
        }
      }
      RunSame(Step(s, evs[0]), Step(t, evs'[0]), evs[1..], evs'[1..]);
    }
  }

  /** Two runs of one family, both from a capture. */
  ghost predicate Twins(s0: State, evs: seq<Event>, t0: State, evs': seq<Event>) {
    && Captured(s0) && Captured(t0) && SameState(s0, t0) && SameEvents(evs, evs')
  }
}
