/** The promises of the snapshot engine, for every run from a capture. */
module SnapshotTheorems {
  import opened Basics
  import opened CowEngine
  import opened SnapshotMachine
  import opened SnapshotProofs

  // ---- the log of copied blocks ----

  ghost predicate LogDistinct(s: State) {
    && (forall k | 0 <= k < |s.copies| :: s.copies[k].block in s.eng.blocks && s.copies[k].block !in PendingNow(s))
    && (forall k, k' | 0 <= k < k' < |s.copies| :: s.copies[k].block != s.copies[k'].block)
  }

  ghost predicate Logged(s: State, b: nat) {
    exists k :: 0 <= k < |s.copies| && s.copies[k].block == b
  }

  ghost predicate LogExact(s: State) {
    Clean(s) ==>
      && (forall k | 0 <= k < |s.copies| :: s.copies[k].data == BlockData(s.orig0, s.eng.blk, s.copies[k].block))
      && (forall b | b in s.eng.blocks && b !in PendingNow(s) :: Logged(s, b))
  }

  ghost predicate Inv(s: State) {
    Core(s) && LogDistinct(s) && LogExact(s)
  }

  lemma PopLog(s: State, gaps: Gaps)
    requires RoomLeft(s) && EngineOk(s) && LogDistinct(s) && LogExact(s)
    ensures LogDistinct(DoPop(s, gaps)) && LogExact(DoPop(s, gaps))
  {
    var s' := DoPop(s, gaps);
    var bio := s.waiting[0];
    if bio.Write? && |bio.data| > 0 && !s.stopping && !s.eng.corrupted {
      var first, last := FirstBlock(s.eng.blk, bio.ofs), LastBlock(s.eng.blk, bio.ofs, |bio.data|);
      PrepareKeeps(s.eng, s.req, first, last, gaps);
      PrepareAdds(s.eng, s.req, first, last, gaps);
      forall k | 0 <= k < |s.copies|
        ensures s.copies[k].block !in PendingNow(s')
      {
        StaysStored(s.eng, s.req, first, last, gaps, s.copies[k].block);
      }
      if Clean(s') {
        forall b | b in s'.eng.blocks && b !in PendingNow(s')
          ensures Logged(s', b)
        {
          assert b in s.eng.blocks;
          assert Logged(s, b);
        }
      }
    } else {
      SameLog(s, s');
    }
  }

  lemma BlockUnchanged(orig: seq<Sector>, orig0: seq<Sector>, blk: BlockSize, b: nat)
    requires |orig| == |orig0|
    requires forall i: nat | i < |orig| && i / blk == b :: orig[i] == orig0[i]
    ensures BlockData(orig, blk, b) == BlockData(orig0, blk, b)
  {
    forall j | 0 <= j < blk
      ensures BlockData(orig, blk, b)[j] == BlockData(orig0, blk, b)[j]
    {
      DivModUnique(b, j, blk);
    }
  }

  /** Blocks of a request join the log with their capture-time contents. */
  lemma CopyLogExact(s: State, e: Engine, req: seq<Dio>, more: seq<Copied>)
    requires |s.orig0| == |e.orig| && more == CopyLog(e, req)
    requires forall i: nat | i < |e.orig| && i / e.blk in Pending(req) :: e.orig[i] == s.orig0[i]
    ensures forall k | 0 <= k < |more| :: more[k].data == BlockData(s.orig0, e.blk, more[k].block)
  {
    forall k | 0 <= k < |more|
      ensures more[k].data == BlockData(s.orig0, e.blk, more[k].block)
    {
      assert req[k].block in Pending(req);
      BlockUnchanged(e.orig, s.orig0, e.blk, req[k].block);
    }
  }

  lemma JoinLog(s: State, s': State, req: seq<Dio>, more: seq<Copied>)
    requires LogDistinct(s) && |more| == |req| && s'.copies == s.copies + more && PendingNow(s') == {}
    requires forall k | 0 <= k < |req| :: more[k].block == req[k].block && req[k].block in s'.eng.blocks
    requires forall k, k' | 0 <= k < k' < |req| :: req[k].block != req[k'].block
    requires forall k, k' | 0 <= k < |s.copies| && 0 <= k' < |req| :: s.copies[k].block != req[k'].block
    requires forall b | b in s.eng.blocks :: b in s'.eng.blocks
    ensures LogDistinct(s')
    ensures forall b :: Logged(s, b) || b in Pending(req) ==> Logged(s', b)
  {
    forall k, k' | 0 <= k < k' < |s'.copies|
      ensures s'.copies[k].block != s'.copies[k'].block
    {
    }
    forall b | Logged(s, b) || b in Pending(req)
      ensures Logged(s', b)
    {
      if Logged(s, b) {
        var k :| 0 <= k < |s.copies| && s.copies[k].block == b;
        assert s'.copies[k].block == b;
      } else {
        var k :| 0 <= k < |req| && req[k].block == b;
        assert s'.copies[|s.copies| + k].block == b;
      }
    }
  }

  lemma StepCopyLog(s: State, f: Faults)
    requires Enabled(s, Copy(f)) && Inv(s)
    ensures LogDistinct(Step(s, Copy(f))) && LogExact(Step(s, Copy(f)))
  {
    var s' := Step(s, Copy(f));
    var more := CopyLog(s.eng, s.req);
    CopyOutKeeps(s.eng, s.req, f);
    forall k, k' | 0 <= k < |s.copies| && 0 <= k' < |s.req|
      ensures s.copies[k].block != s.req[k'].block
    {
      assert s.req[k'].block in PendingNow(s);
    }
    JoinLog(s, s', s.req, more);
    if Clean(s') {
      assert forall i: nat | i < |s.eng.orig| && s.eng.orig[i] != s.orig0[i] :: Stored(s, i);
      CopyLogExact(s, s.eng, s.req, more);
    }
  }

  lemma CowMaps(e: Engine, ofs: nat, cnt: nat, gaps: Gaps)
    requires WellFormed(e) && cnt > 0
    ensures var (e0, req, st0) := Prepare(e, [], ofs, cnt, gaps);
            && (forall k | 0 <= k < |req| :: req[k].block !in e.blocks)
            && (forall b | b in e0.blocks :: b in e.blocks || exists k :: 0 <= k < |req| && req[k].block == b)
  {
    PrepareAdds(e, [], FirstBlock(e.blk, ofs), LastBlock(e.blk, ofs, cnt), gaps);
  }

  lemma StepCowLog(s: State, f: Faults, gaps: Gaps)
    requires Unlocked(s) && s.img.Writing? && |s.img.data| > 0 && Shape(s) && Refines(s) && LogDistinct(s)
    requires LogExact(s)
    ensures LogDistinct(DoImageCow(s, f, gaps)) && LogExact(DoImageCow(s, f, gaps))
  {
    var s' := DoImageCow(s, f, gaps);
    var ofs, cnt := s.img.ofs, |s.img.data|;
    CowKeeps(s.eng, ofs, cnt, f, gaps);
    CowMaps(s.eng, ofs, cnt, gaps);
    var (e0, req, st0) := Prepare(s.eng, [], ofs, cnt, gaps);
    CowLog(s, s', e0, req, st0 == Success);
  }

  lemma CowLog(s: State, s': State, e: Engine, req: seq<Dio>, prepared: bool)
    requires LogDistinct(s) && LogExact(s) && Refines(s) && PendingNow(s) == {} == PendingNow(s')
    requires e.orig == s.eng.orig && e.blk == s.eng.blk && ReqOk(e, req)
    requires forall k | 0 <= k < |req| :: req[k].block !in s.eng.blocks
    requires forall b | b in e.blocks :: b in s.eng.blocks || exists k :: 0 <= k < |req| && req[k].block == b
    requires forall b | b in s.eng.blocks :: b in e.blocks
    requires s'.copies == (if prepared && req != [] then s.copies + CopyLog(s.eng, req) else s.copies)
    requires s'.eng.blocks == e.blocks && s'.eng.blk == e.blk
    requires s'.orig0 == s.orig0 && (Clean(s') ==> Clean(s)) && (!prepared ==> !Clean(s'))
    ensures LogDistinct(s') && LogExact(s')
  {
    if prepared && req != [] {
      CowJoinsLog(s, s', e, req);
    } else if Clean(s') {
      forall b | b in s'.eng.blocks
        ensures Logged(s', b)
      {
        assert Logged(s, b);
      }
    }
  }

  lemma CowJoinsLog(s: State, s': State, e: Engine, req: seq<Dio>)
    requires LogDistinct(s) && LogExact(s) && Refines(s) && PendingNow(s) == {} == PendingNow(s')
    requires e.orig == s.eng.orig && e.blk == s.eng.blk && ReqOk(e, req)
    requires forall k | 0 <= k < |req| :: req[k].block !in s.eng.blocks
    requires forall b | b in e.blocks :: b in s.eng.blocks || exists k :: 0 <= k < |req| && req[k].block == b
    requires forall b | b in s.eng.blocks :: b in e.blocks
    requires s'.copies == s.copies + CopyLog(s.eng, req) && s'.eng.blocks == e.blocks && s'.eng.blk == e.blk
    requires s'.orig0 == s.orig0 && (Clean(s') ==> Clean(s))
    ensures LogDistinct(s') && LogExact(s')
  {
    var more := CopyLog(s.eng, req);
    JoinLog(s, s', req, more);
    if Clean(s') {
      assert forall i: nat | i < |s.eng.orig| && s.eng.orig[i] != s.orig0[i] :: Stored(s, i);
      CopyLogExact(s, s.eng, req, more);
      forall b | b in s'.eng.blocks
        ensures Logged(s', b)
      {
        assert b in s.eng.blocks ==> Logged(s, b);
        assert b !in s.eng.blocks ==> b in Pending(req);
      }
    }
  }

  lemma SameLog(s: State, s': State)
    requires LogDistinct(s) && LogExact(s)
    requires s'.copies == s.copies && s'.eng.blocks == s.eng.blocks && s'.eng.blk == s.eng.blk && s'.orig0 == s.orig0
    requires PendingNow(s') <= PendingNow(s) && (Clean(s') ==> Clean(s) && PendingNow(s') == PendingNow(s))
    ensures LogDistinct(s') && LogExact(s')
  {
  }

  lemma OtherLog(s: State, ev: Event)
    requires Enabled(s, ev) && Flags(s) && LogDistinct(s) && LogExact(s) && !ev.Pop? && !ev.Copy? && !ev.ImageCow?
    ensures LogDistinct(Step(s, ev)) && LogExact(Step(s, ev))
  {
    OtherSame(s, ev);
    SameLog(s, Step(s, ev));
  }

  lemma OtherSame(s: State, ev: Event)
    requires Enabled(s, ev) && Flags(s) && !ev.Pop? && !ev.Copy? && !ev.ImageCow?
    ensures var s' := Step(s, ev);
            && s'.copies == s.copies && s'.eng.blocks == s.eng.blocks && s'.eng.blk == s.eng.blk && s'.orig0 == s.orig0
            && PendingNow(s') <= PendingNow(s) && (Clean(s') ==> Clean(s) && PendingNow(s') == PendingNow(s))
  {
    match ev
    case Submit(bio, late) => SubmitSame(s, bio, late);
    case ImagePut(sent) => PutSame(s, sent);
    case ImageAsk(io) => AskSame(s, io);
    case Elsewhere(act) => ElsewhereSame(s, act);
    case Issue => IssueSame(s);
    case Drain => DrainSame(s);
    case _ => PhaseSame(s, ev);
  }

  lemma IssueSame(s: State)
    requires Enabled(s, Issue)
    ensures var s' := Step(s, Issue);
            && s'.copies == s.copies && s'.eng.blocks == s.eng.blocks && s'.eng.blk == s.eng.blk && s'.orig0 == s.orig0
            && PendingNow(s') == PendingNow(s) && (Clean(s') ==> Clean(s)) && Later(s, s')
  {
  }

  lemma DrainSame(s: State)
    requires Enabled(s, Drain)
    ensures var s' := Step(s, Drain);
            && s'.copies == s.copies && s'.eng.blocks == s.eng.blocks && s'.eng.blk == s.eng.blk && s'.orig0 == s.orig0
            && PendingNow(s') == PendingNow(s) && (Clean(s') ==> Clean(s)) && Later(s, s')
  {
  }

  lemma AskSame(s: State, io: Bio)
    requires !io.NoData?
    ensures var s' := DoAsk(s, io);
            && s'.copies == s.copies && s'.eng.blocks == s.eng.blocks && s'.eng.blk == s.eng.blk && s'.orig0 == s.orig0
            && PendingNow(s') == PendingNow(s) && (Clean(s') ==> Clean(s))
  {
  }

  lemma ElsewhereSame(s: State, act: Outside)
    ensures var s' := s.(eng := OneOutside(s.eng, act));
            && s'.eng.blocks == s.eng.blocks && s'.eng.blk == s.eng.blk
            && PendingNow(s') == PendingNow(s) && (Clean(s') ==> Clean(s))
  {
  }

  lemma PhaseSame(s: State, ev: Event)
    requires Enabled(s, ev) && Flags(s) && !ev.Pop? && !ev.Copy? && !ev.ImageCow?
    requires !ev.Submit? && !ev.ImagePut? && !ev.ImageAsk? && !ev.Elsewhere? && !ev.Issue? && !ev.Drain?
    ensures var s' := Step(s, ev);
            && s'.copies == s.copies && s'.eng.blocks == s.eng.blocks && s'.eng.blk == s.eng.blk && s'.orig0 == s.orig0
            && PendingNow(s') <= PendingNow(s) && (Clean(s') ==> Clean(s) && PendingNow(s') == PendingNow(s))
  {
    assert Pending([]) == {};
  }

  lemma PutSame(s: State, sent: bool)
    requires s.img.Cowed?
    ensures var s' := DoImagePut(s, sent);
            && s'.copies == s.copies && s'.eng.blocks == s.eng.blocks && s'.eng.blk == s.eng.blk && s'.orig0 == s.orig0
            && PendingNow(s') == PendingNow(s) && (Clean(s') ==> Clean(s))
  {
  }

  lemma SubmitSame(s: State, bio: Bio, late: bool)
    ensures var s' := DoSubmit(s, bio, late);
            && s'.copies == s.copies && s'.eng.blocks == s.eng.blocks && s'.eng.blk == s.eng.blk && s'.orig0 == s.orig0
            && PendingNow(s') == PendingNow(s) && (Clean(s') ==> Clean(s))
  {
  }

  lemma StepKeepsInv(s: State, ev: Event)
    requires Enabled(s, ev) && Inv(s)
    ensures Inv(Step(s, ev))
  {
    StepKeepsCore(s, ev);
    match ev
    case Pop(gaps) => PopLog(s, gaps);
    case Copy(f) => StepCopyLog(s, f);
    case ImageCow(f, gaps) => StepCowLog(s, f, gaps);
    case _ => OtherLog(s, ev);
  }

  lemma {:induction false} RunKeepsInv(s: State, evs: seq<Event>)
    requires Inv(s) && Legal(s, evs)
    ensures Inv(Run(s, evs))
    decreases |evs|
  {
    if evs != [] {
      StepKeepsInv(s, evs[0]);
      RunKeepsInv(Step(s, evs[0]), evs[1..]);
    }
  }

  lemma CaptureInv(s: State)
    requires Captured(s)
    ensures Inv(s)
  {
  }

  // ---- reaching states ----

  /** Some run from `s0` ends in `s`. */
  ghost predicate Reached(s0: State, s: State) {
    exists evs: seq<Event> :: Legal(s0, evs) && Run(s0, evs) == s
  }

  lemma ReachedAtOnce(s0: State)
    ensures Reached(s0, s0)
  {
    assert Legal(s0, []) && Run(s0, []) == s0;
  }

  lemma ReachedStep(s0: State, s: State, ev: Event)
    requires Reached(s0, s) && Enabled(s, ev)
    ensures Reached(s0, Step(s, ev))
  {
    var evs: seq<Event> :| Legal(s0, evs) && Run(s0, evs) == s;
    RunSnoc(s0, evs, ev);
  }

  lemma {:induction false} RunSnoc(s: State, evs: seq<Event>, ev: Event)
    requires Legal(s, evs) && Enabled(Run(s, evs), ev)
    ensures Legal(s, evs + [ev]) && Run(s, evs + [ev]) == Step(Run(s, evs), ev)
    decreases |evs|
  {
    if evs == [] {
      assert [] + [ev] == [ev] && [ev][1..] == [];
    } else {
      RunSnoc(Step(s, evs[0]), evs[1..], ev);
      assert (evs + [ev])[0] == evs[0] && (evs + [ev])[1..] == evs[1..] + [ev];
    }
  }

  /** What holds of every state reached from a capture. */
  lemma ReachedInv(s0: State, s: State)
    requires Captured(s0) && Reached(s0, s)
    ensures Inv(s) && s.orig0 == s0.eng.orig && s.eng.blk == s0.eng.blk
  {
    var evs: seq<Event> :| Legal(s0, evs) && Run(s0, evs) == s;
    CaptureInv(s0);
    RunKeepsInv(s0, evs);
    RunIsLater(s0, evs);
  }

  // ---- what no step takes back ----

  ghost predicate Later(s: State, s': State) {
    && s'.orig0 == s.orig0 && s'.eng.blk == s.eng.blk
    && (s.eng.corrupted ==> s'.eng.corrupted && s'.eng.err == s.eng.err) && s.eng.overflowed <= s'.eng.overflowed
    && (s.stopping ==> s'.stopping) && (s'.captured ==> s.captured)
    && (s.bypassed ==> s'.bypassed) && s.missed <= s'.missed
    && s.accepted <= s'.accepted && s.issued <= s'.issued && s.copies <= s'.copies && s.written <= s'.written
    && (forall b | b in s.eng.blocks :: b in s'.eng.blocks && s'.eng.blocks[b] == s.eng.blocks[b])
  }

  lemma PopLater(s: State, gaps: Gaps)
    requires RoomLeft(s) && EngineOk(s)
    ensures Later(s, DoPop(s, gaps))
  {
    var bio := s.waiting[0];
    if bio.Write? && |bio.data| > 0 {
      PrepareKeeps(s.eng, s.req, FirstBlock(s.eng.blk, bio.ofs), LastBlock(s.eng.blk, bio.ofs, |bio.data|), gaps);
    }
  }

  lemma CowLater(s: State, f: Faults, gaps: Gaps)
    requires EngineOk(s) && s.img.Writing? && |s.img.data| > 0
    ensures Later(s, DoImageCow(s, f, gaps))
  {
    CowKeeps(s.eng, s.img.ofs, |s.img.data|, f, gaps);
  }

  lemma CopyLater(s: State, f: Faults)
    requires EngineOk(s)
    ensures Later(s, DoCopy(s, f))
  {
    CopyOutKeeps(s.eng, s.req, f);
  }

  lemma StepIsLater(s: State, ev: Event)
    requires Enabled(s, ev) && Shape(s)
    ensures Later(s, Step(s, ev))
  {
    match ev
    case Pop(gaps) => PopLater(s, gaps);
    case Copy(f) => CopyLater(s, f);
    case ImageCow(f, gaps) => CowLater(s, f, gaps);
    case Submit(bio, late) => SubmitLater(s, bio, late);
    case ImagePut(sent) => PutLater(s, sent);
    case Elsewhere(act) => OneOutsideKeeps(s.eng, act);
    case ImageAsk(io) => AskLater(s, io);
    case Issue => IssueSame(s);
    case Drain => DrainSame(s);
    case ImageGet => SameLater(s, Step(s, ev));
    case OtherStores(id, data) => OtherStoresLater(s, id, data);
    case _ => PhaseLater(s, ev);
  }

  lemma AskLater(s: State, io: Bio)
    requires !io.NoData?
    ensures Later(s, DoAsk(s, io))
  {
  }

  lemma OtherStoresLater(s: State, id: nat, data: seq<Sector>)
    requires Enabled(s, OtherStores(id, data))
    ensures Later(s, Step(s, OtherStores(id, data)))
  {
    SameLater(s, Step(s, OtherStores(id, data)));
  }

  lemma PhaseLater(s: State, ev: Event)
    requires Enabled(s, ev) && ev in {Begin, EndPrepare, EndBatch, Release, Stop, Exit, Deactivate, Finish}
    ensures Later(s, Step(s, ev))
  {
    SameLater(s, Step(s, ev));
  }

  /** Steps that change contents, phase, queues and flags alone. */
  lemma SameLater(s: State, s': State)
    requires s'.eng == s.eng.(store := s'.eng.store) && s'.orig0 == s.orig0
    requires (s.stopping ==> s'.stopping) && (s'.captured ==> s.captured)
    requires s'.bypassed == s.bypassed && s'.missed == s.missed && s'.accepted == s.accepted
    requires s'.issued == s.issued && s'.copies == s.copies && s'.written == s.written
    ensures Later(s, s')
  {
  }

  lemma SubmitLater(s: State, bio: Bio, late: bool)
    ensures Later(s, DoSubmit(s, bio, late))
  {
  }

  lemma PutLater(s: State, sent: bool)
    requires s.img.Cowed?
    ensures Later(s, DoImagePut(s, sent))
  {
  }

  lemma LaterTransitive(s: State, s1: State, s2: State)
    requires Later(s, s1) && Later(s1, s2)
    ensures Later(s, s2)
  {
  }

  lemma {:induction false} RunIsLater(s: State, evs: seq<Event>)
    requires Inv(s) && Legal(s, evs)
    ensures Later(s, Run(s, evs))
    decreases |evs|
  {
    if evs != [] {
      var s1 := Step(s, evs[0]);
      StepIsLater(s, evs[0]);
      StepKeepsInv(s, evs[0]);
      RunIsLater(s1, evs[1..]);
      LaterTransitive(s, s1, Run(s, evs));
    }
  }

  /** The flag is permanent, the map only grows and the copy log is never rewritten. */
  lemma NothingIsUndone(s0: State, evs: seq<Event>, more: seq<Event>)
    requires Captured(s0) && Legal(s0, evs) && Legal(Run(s0, evs), more)
    ensures Later(Run(s0, evs), Run(Run(s0, evs), more))
  {
    CaptureInv(s0);
    RunKeepsInv(s0, evs);
    RunIsLater(Run(s0, evs), more);
  }

  // ---- the image ----

  /** The snapshot is in use: not released, worker not told to stop. */
  predicate InService(s: State) {
    s.captured && !s.stopping
  }

  /**
   * An image read that got past the test of the flag and then got the lock, after any run and
   * whatever happened in between, returns the contents at capture overlaid with the image writes in
   * every sector that was not lost.  While the flag is still clear and the snapshot in service, sectors
   * are lost only in blocks that could not be read.
   */
  lemma CorrectOrCorrupted(s0: State, evs: seq<Event>)
    requires Captured(s0) && Legal(s0, evs) && Unlocked(Run(s0, evs)) && Run(s0, evs).img.Reading?
    ensures var s := Run(s0, evs);
            var ofs, cnt := s.img.ofs, s.img.cnt;
            && ofs + cnt <= |s0.eng.orig|
            && (forall k | 0 <= k < cnt && ofs + k !in s.lost ::
                  Served(s)[k] == ApplyAll(s0.eng.orig, s.written)[ofs + k])
            && (InService(s) && !s.eng.corrupted ==> forall i | i in s.lost :: i / s.eng.blk in s.missed)
  {
    RunFacts(s0, evs);
    ServesImage(Run(s0, evs));
    if InService(Run(s0, evs)) && !Run(s0, evs).eng.corrupted {
      LostWhere(Run(s0, evs));
    }
  }

  lemma RunFacts(s0: State, evs: seq<Event>)
    requires Captured(s0) && Legal(s0, evs)
    ensures var s := Run(s0, evs);
            Right(s) && Refines(s) && Flags(s) && ImageOnDevice(|s.eng.orig|, s.img) && s.orig0 == s0.eng.orig
  {
    CaptureInv(s0);
    RunKeepsInv(s0, evs);
    RunIsLater(s0, evs);
  }

  lemma LostWhere(s: State)
    requires Refines(s) && Flags(s) && InService(s) && !s.eng.corrupted
    ensures LostByReads(s)
  {
  }

  lemma ServesImage(s: State)
    requires Right(s) && ImageOnDevice(|s.eng.orig|, s.img) && Unlocked(s) && s.img.Reading?
    ensures s.img.ofs + s.img.cnt <= |s.orig0|
    ensures forall k | 0 <= k < s.img.cnt && s.img.ofs + k !in s.lost :: Served(s)[k] == Image(s)[s.img.ofs + k]
  {
    forall k | 0 <= k < s.img.cnt && s.img.ofs + k !in s.lost
      ensures Served(s)[k] == Image(s)[s.img.ofs + k]
    {
      assert Shown(s.eng, PendingNow(s), s.img.ofs + k) == Image(s)[s.img.ofs + k];
    }
  }

  /** Running out of descriptors is reported at most once for all devices, and exactly when it happened. */
  lemma OverflowReportedOnce(s0: State, evs: seq<Event>)
    requires Captured(s0) && Legal(s0, evs)
    ensures var e := Run(s0, evs).eng;
            e.notified <= 1 && (e.notified == 1 <==> e.pipe && e.overflowed > 0)
  {
    CaptureInv(s0);
    RunKeepsInv(s0, evs);
  }

  /** No snapstore sector of a block of this device belongs to a descriptor another device got. */
  lemma NothingShared(s0: State, evs: seq<Event>, i: nat, id: nat)
    requires Captured(s0) && Legal(s0, evs)
    requires var s := Run(s0, evs); Mapped(s.eng, i) && id in s.eng.others
    ensures var s := Run(s0, evs); id < |s.eng.pool| && Target(s.eng, i) !in Place(s.eng.pool[id])
  {
    CaptureInv(s0);
    RunKeepsInv(s0, evs);
    OtherMisses(Run(s0, evs), id, i);
  }

  // ---- once corrupted ----

  predicate WriteUnderWay(img: ImageThread) {
    img.Writing? || img.Cowed?
  }

  lemma CorruptedStep(s: State, ev: Event)
    requires Enabled(s, ev) && s.eng.corrupted
    ensures var s' := Step(s, ev);
            && (s.img.Quiet? ==> s'.img.Quiet?) && (WriteUnderWay(s'.img) ==> WriteUnderWay(s.img))
            && |s.written| <= |s'.written|
            && |s'.written| + (if WriteUnderWay(s'.img) then 1 else 0)
               <= |s.written| + if WriteUnderWay(s.img) then 1 else 0
  {
  }

  /**
   * Once the device is corrupted, no image request gets past the test any more, however the run
   * goes on: with none under way no write is done, and otherwise at most that one.
   */
  lemma CorruptedRefusesWrites(s: State, more: seq<Event>)
    requires Inv(s) && s.eng.corrupted && Legal(s, more)
    ensures var s' := Run(s, more);
            && (s.img.Quiet? ==> s'.img.Quiet?) && (!WriteUnderWay(s.img) ==> s'.written == s.written)
            && |s'.written| <= |s.written| + 1 && s.written <= s'.written
  {
    CorruptedWrites(s, more);
    RunIsLater(s, more);
    assert s.written <= Run(s, more).written;
  }

  lemma {:induction false} CorruptedWrites(s: State, more: seq<Event>)
    requires Inv(s) && s.eng.corrupted && Legal(s, more)
    ensures var s' := Run(s, more);
            && (s.img.Quiet? ==> s'.img.Quiet?)
            && |s'.written| <= |s.written| + if WriteUnderWay(s.img) then 1 else 0
    decreases |more|
  {
    if more != [] {
      CorruptedStep(s, more[0]);
      StepIsLater(s, more[0]);
      StepKeepsInv(s, more[0]);
      CorruptedWrites(Step(s, more[0]), more[1..]);
    }
  }

  // ---- copy before write ----

  /**
   * A sector that changed since capture has its place in the snapstore, and its block was taken for
   * copying with the contents at capture; unless that block could not be read, the image has the sector.
   */
  lemma CopiedBeforeChanged(s0: State, evs: seq<Event>, i: nat)
    requires Captured(s0) && Legal(s0, evs)
    requires var s := Run(s0, evs);
             InService(s) && !s.eng.corrupted && i < |s.eng.orig| == |s0.eng.orig| && s.eng.orig[i] != s0.eng.orig[i]
    ensures var s := Run(s0, evs);
            && Stored(s, i)
            && (exists k :: 0 <= k < |s.copies| &&
                  s.copies[k] == Copied(i / s.eng.blk, BlockData(s0.eng.orig, s.eng.blk, i / s.eng.blk)))
            && (i / s.eng.blk !in s.missed ==>
                  At(s.eng.store, Target(s.eng, i)) == ApplyAll(s0.eng.orig, s.written)[i])
  {
    CaptureInv(s0);
    RunKeepsInv(s0, evs);
    RunIsLater(s0, evs);
    var s := Run(s0, evs);
    assert Stored(s, i);
    assert Logged(s, i / s.eng.blk);
    var k :| 0 <= k < |s.copies| && s.copies[k].block == i / s.eng.blk;
    if i / s.eng.blk !in s.missed {
      assert Shown(s.eng, PendingNow(s), i) == Image(s)[i];
    }
  }

  /** No block is taken for copying twice, whatever fails on the way. */
  lemma CopiedOnce(s0: State, evs: seq<Event>, k: nat, k': nat)
    requires Captured(s0) && Legal(s0, evs)
    requires k < |Run(s0, evs).copies| && k' < |Run(s0, evs).copies|
    requires Run(s0, evs).copies[k].block == Run(s0, evs).copies[k'].block
    ensures k == k'
  {
    CaptureInv(s0);
    RunKeepsInv(s0, evs);
  }

  // ---- deferral ----

  /**
   * At every point of a run the original device, with the batch and then the queue applied,
   * is what applying all accepted bios in order gives; each is issued once, in order.
   */
  lemma DeferralIsTransparent(s0: State, evs: seq<Event>)
    requires Captured(s0) && Legal(s0, evs)
    ensures var s := Run(s0, evs);
            && s.accepted == s.issued + s.inProcess + s.waiting
            && (NoWrites(s.direct) ==>
                  ApplyAll(s.eng.orig, s.inProcess + s.waiting) == ApplyAll(s0.eng.orig, s.accepted))
            && (s.phase.Done? ==> s.issued == s.accepted)
  {
    CaptureInv(s0);
    RunKeepsInv(s0, evs);
    RunIsLater(s0, evs);
    QueueApplies(Run(s0, evs));
  }

  /** The bio the worker, or what drains the queue after it, issues next. */
  function NextIssued(s: State): Option<Bio> {
    if s.phase.Finishing? && s.inProcess != [] then Some(s.inProcess[0])
    else if s.phase.Draining? && s.waiting != [] then Some(s.waiting[0])
    else None
  }

  /**
   * A deferred read returns what the accepted bios before it, applied to the capture, left in its sectors,
   * as long as no write was refused.
   */
  lemma DeferredReadIsInOrder(s0: State, evs: seq<Event>, ofs: nat, cnt: nat)
    requires Captured(s0) && Legal(s0, evs) && NextIssued(Run(s0, evs)) == Some(Read(ofs, cnt))
    ensures var s := Run(s0, evs);
            && |s.issued| < |s.accepted| && s.accepted[|s.issued|] == Read(ofs, cnt)
            && ofs + cnt <= |s.eng.orig| == |s0.eng.orig|
            && (NoWrites(s.direct) ==>
                  s.eng.orig[ofs..ofs + cnt] == ApplyAll(s0.eng.orig, s.accepted[..|s.issued|])[ofs..ofs + cnt])
  {
    CaptureInv(s0);
    RunKeepsInv(s0, evs);
    RunIsLater(s0, evs);
    NextIsInOrder(Run(s0, evs), Read(ofs, cnt));
  }

  lemma NextIsInOrder(s: State, bio: Bio)
    requires Queues(s) && Flags(s) && Deferral(s) && NextIssued(s) == Some(bio)
    ensures |s.issued| < |s.accepted| && s.accepted[|s.issued|] == bio && s.accepted[..|s.issued|] == s.issued
    ensures OnDevice(|s.eng.orig|, bio)
  {
    var queue := s.inProcess + s.waiting;
    assert s.accepted == s.issued + queue;
    assert s.phase.Draining? ==> s.inProcess == [];
    assert queue[0] == bio && (bio in s.inProcess || bio in s.waiting);
  }

  lemma QueueApplies(s: State)
    requires Shape(s) && Deferral(s)
    ensures NoWrites(s.direct) ==> ApplyAll(s.eng.orig, s.inProcess + s.waiting) == ApplyAll(s.orig0, s.accepted)
    ensures s.phase.Done? ==> s.issued == s.accepted
  {
    assert s.accepted == s.issued + (s.inProcess + s.waiting);
    ApplyAllAppend(s.orig0, s.issued, s.inProcess + s.waiting);
  }

  ghost predicate Rewritten(bios: seq<Bio>, i: nat) {
    exists k :: 0 <= k < |bios| && Writes(bios[k], i)
  }

  lemma {:induction false} ApplyAllUntouched(dev: seq<Sector>, dev': seq<Sector>, bios: seq<Bio>, i: nat)
    requires |dev| == |dev'| && i < |dev|
    requires Rewritten(bios, i) || dev[i] == dev'[i]
    ensures ApplyAll(dev, bios)[i] == ApplyAll(dev', bios)[i]
    ensures !Rewritten(bios, i) ==> ApplyAll(dev, bios)[i] == dev[i]
    decreases |bios|
  {
    if bios != [] {
      var n := |bios| - 1;
      if Writes(bios[n], i) {
        assert Rewritten(bios, i);
      } else {
        if Rewritten(bios, i) {
          var k :| 0 <= k < |bios| && Writes(bios[k], i);
          assert Writes(bios[..n][k], i);
        } else {
          forall k | 0 <= k < n
            ensures !Writes(bios[..n][k], i)
          {
            assert !Writes(bios[k], i);
          }
        }
        ApplyAllUntouched(dev, dev', bios[..n], i);
      }
    }
  }

  /**
   * A write the queue refuses is issued ahead of the bios still queued.  That order is harmless
   * exactly when no queued bio leaves another value in a sector it writes.
   */
  lemma OvertakingHarmlessIff(dev: seq<Sector>, queued: seq<Bio>, bio: Bio)
    requires bio.Write? && bio.ofs + |bio.data| <= |dev|
    ensures ApplyAll(Apply(dev, bio), queued) == Apply(ApplyAll(dev, queued), bio)
       <==> forall i | bio.ofs <= i < bio.ofs + |bio.data| && Rewritten(queued, i) ::
              ApplyAll(dev, queued)[i] == bio.data[i - bio.ofs]
  {
    var early, late := ApplyAll(Apply(dev, bio), queued), Apply(ApplyAll(dev, queued), bio);
    forall i: nat | i < |dev|
      ensures early[i] == late[i]
         <==> (Writes(bio, i) && Rewritten(queued, i) ==> ApplyAll(dev, queued)[i] == bio.data[i - bio.ofs])
    {
      if !Writes(bio, i) || Rewritten(queued, i) {
        ApplyAllUntouched(Apply(dev, bio), dev, queued, i);
      } else {
        ApplyAllUntouched(Apply(dev, bio), Apply(dev, bio), queued, i);
      }
    }
    if forall i | bio.ofs <= i < bio.ofs + |bio.data| && Rewritten(queued, i) ::
         ApplyAll(dev, queued)[i] == bio.data[i - bio.ofs] {
      assert forall i: nat | i < |dev| :: early[i] == late[i];
      assert early == late;
    }
  }

  ghost predicate AnyDataMayOvertake(dev: seq<Sector>, queued: seq<Bio>, ofs: nat, cnt: nat) {
    forall data: seq<Sector> | |data| == cnt ::
      ApplyAll(Apply(dev, Write(ofs, data)), queued) == Apply(ApplyAll(dev, queued), Write(ofs, data))
  }

  /** Whatever it writes, a write may go first exactly when no queued write meets its sectors. */
  lemma {:induction false} OvertakesSafelyIff(dev: seq<Sector>, queued: seq<Bio>, ofs: nat, cnt: nat)
    requires ofs + cnt <= |dev|
    ensures AnyDataMayOvertake(dev, queued, ofs, cnt) <==> forall i | ofs <= i < ofs + cnt :: !Rewritten(queued, i)
  {
    if forall i | ofs <= i < ofs + cnt :: !Rewritten(queued, i) {
      forall data: seq<Sector> | |data| == cnt
        ensures ApplyAll(Apply(dev, Write(ofs, data)), queued) == Apply(ApplyAll(dev, queued), Write(ofs, data))
      {
        OvertakingHarmlessIff(dev, queued, Write(ofs, data));
      }
    } else {
      var i :| ofs <= i < ofs + cnt && Rewritten(queued, i);
      var other := ApplyAll(dev, queued)[i] + 1;
      var data := seq(cnt, _ => other);
      OvertakingHarmlessIff(dev, queued, Write(ofs, data));
      assert data[i - ofs] == other;
    }
  }

  /** What has arrived, in the order of arrival: on the device, in the batch, or in the queue. */
  function Arrived(s: State): seq<Sector> {
    ApplyAll(s.eng.orig, s.inProcess + s.waiting)
  }

  /**
   * A write the queue refuses, the device being corrupted, the snapshot released or the queue inactive,
   * goes ahead of all that is queued.
   */
  lemma RefusedGoesFirst(s0: State, s: State, ofs: nat, data: seq<Sector>, late: bool)
    requires Captured(s0) && Reached(s0, s) && Refused(s, late) && |data| > 0 && ofs + |data| <= |s.eng.orig|
    ensures Arrived(Step(s, Submit(Write(ofs, data), late))) == Apply(Arrived(s), Write(ofs, data))
       <==> forall i | ofs <= i < ofs + |data| && Rewritten(s.inProcess + s.waiting, i) ::
              Arrived(s)[i] == data[i - ofs]
  {
    RefusedArrives(s, Write(ofs, data), late);
    OvertakingHarmlessIff(s.eng.orig, s.inProcess + s.waiting, Write(ofs, data));
  }

  lemma RefusedArrives(s: State, bio: Bio, late: bool)
    requires Enabled(s, Submit(bio, late)) && Refused(s, late)
    ensures Arrived(Step(s, Submit(bio, late))) == ApplyAll(Apply(s.eng.orig, bio), s.inProcess + s.waiting)
  {
  }

  ghost predicate AnyRefusedWriteIsHarmless(s: State, ofs: nat, cnt: nat, late: bool)
    requires cnt > 0 && ofs + cnt <= |s.eng.orig|
  {
    forall data: seq<Sector> | |data| == cnt ::
      Arrived(Step(s, Submit(Write(ofs, data), late))) == Apply(Arrived(s), Write(ofs, data))
  }

  /** Whatever it writes, it does no harm exactly when no queued write meets its sectors. */
  lemma {:induction false} RefusedIsHarmlessIff(s0: State, s: State, ofs: nat, cnt: nat, late: bool)
    requires Captured(s0) && Reached(s0, s) && Refused(s, late) && cnt > 0 && ofs + cnt <= |s.eng.orig|
    ensures AnyRefusedWriteIsHarmless(s, ofs, cnt, late)
       <==> forall i | ofs <= i < ofs + cnt :: !Rewritten(s.inProcess + s.waiting, i)
  {
    OvertakesSafelyIff(s.eng.orig, s.inProcess + s.waiting, ofs, cnt);
    forall data: seq<Sector> | |data| == cnt
      ensures Arrived(Step(s, Submit(Write(ofs, data), late))) ==
              ApplyAll(Apply(s.eng.orig, Write(ofs, data)), s.inProcess + s.waiting)
    {
      RefusedArrives(s, Write(ofs, data), late);
    }
  }

  /** An accepted write never overtakes: what has arrived is what in-order issue gives. */
  lemma AcceptedStaysInOrder(s: State, bio: Bio, late: bool)
    requires Enabled(s, Submit(bio, late)) && !Refused(s, late)
    ensures Arrived(Step(s, Submit(bio, late))) == Apply(Arrived(s), bio)
  {
    assert s.inProcess + (s.waiting + [bio]) == s.inProcess + s.waiting + [bio];
    ApplyAllSnoc(s.eng.orig, s.inProcess + s.waiting, bio);
  }

  // ---- whole blocks ----

  /**
   * Reading the original can work for every block a bio touches exactly when the capacity is a
   * whole number of blocks: the last block is always read in full.
   */
  lemma {:induction false} WholeBlocksIffAligned(blk: BlockSize, capacity: nat)
    requires capacity > 0
    ensures (forall i: nat | i < capacity :: BlockEnd(blk, i) <= capacity) <==> capacity % blk == 0
  {
    var q := capacity / blk;
    DivBounds(capacity, blk);
    if capacity % blk == 0 {
      forall i: nat | i < capacity
        ensures BlockEnd(blk, i) <= capacity
      {
        EndsWithin(blk, i, q);
      }
    } else {
      DivUnique(capacity - 1, q, blk);
      assert BlockEnd(blk, capacity - 1) > capacity;
    }
  }

  lemma EndsWithin(blk: BlockSize, i: nat, q: nat)
    requires i < q * blk
    ensures BlockEnd(blk, i) <= q * blk
  {
    var b := i / blk;
    assert b * blk <= i by { DivBounds(i, blk); }
    MulCancelLess(b, q, blk);
    MulMonotone(b + 1, q, blk);
  }

  function BlockEnd(blk: BlockSize, i: nat): nat {
    (i / blk + 1) * blk
  }
}
