/** Nothing is copied that no write has asked for, and no batch is larger than it may be. */
module SnapshotThrift {
  import opened Basics
  import opened CowEngine
  import opened SnapshotMachine
  import opened SnapshotProofs
  import opened SnapshotTheorems

  /** The bio writes to block `b`. */
  predicate WritesBlock(blk: BlockSize, bio: Bio, b: nat) {
    bio.Write? && Touches(blk, bio.ofs, |bio.data|, b)
  }

  /** The event brings a write to block `b`: a bio that arrives, or an image write. */
  predicate Brings(blk: BlockSize, ev: Event, b: nat) {
    match ev
    case Submit(bio, late) => WritesBlock(blk, bio, b)
    case ImageAsk(io) => WritesBlock(blk, io, b)
    case _ => false
  }

  function Imaging(img: ImageThread): Bio {
    if img.Writing? then Write(img.ofs, img.data) else NoData
  }

  /** Block `b` is not mapped, and no write to it is on its way. */
  ghost predicate Unasked(s: State, b: nat) {
    && b !in s.eng.blocks && !WritesBlock(s.eng.blk, Imaging(s.img), b)
    && forall k | 0 <= k < |s.waiting| :: !WritesBlock(s.eng.blk, s.waiting[k], b)
  }

  /** Preparing maps only blocks of the range. */
  lemma PrepareMapsRange(e: Engine, req: seq<Dio>, ofs: nat, cnt: nat, gaps: Gaps, b: nat)
    requires WellFormed(e) && ReqOk(e, req) && cnt > 0 && b !in e.blocks && !Touches(e.blk, ofs, cnt, b)
    ensures var e1 := Prepare(e, req, ofs, cnt, gaps).0; b !in e1.blocks && e1.blk == e.blk
  {
    PrepareKeeps(e, req, FirstBlock(e.blk, ofs), LastBlock(e.blk, ofs, cnt), gaps);
    PrepareAdds(e, req, FirstBlock(e.blk, ofs), LastBlock(e.blk, ofs, cnt), gaps);
  }

  lemma PopUnasked(s: State, gaps: Gaps, b: nat)
    requires RoomLeft(s) && EngineOk(s) && Unasked(s, b)
    ensures Unasked(DoPop(s, gaps), b)
  {
    var bio := s.waiting[0];
    if bio.Write? && |bio.data| > 0 && !s.stopping && !s.eng.corrupted {
      PrepareMapsRange(s.eng, s.req, bio.ofs, |bio.data|, gaps, b);
    }
    var s1 := DoPop(s, gaps);
    forall k | 0 <= k < |s1.waiting|
      ensures !WritesBlock(s1.eng.blk, s1.waiting[k], b)
    {
      assert s1.waiting[k] == s.waiting[k + 1];
    }
  }

  lemma CowUnasked(s: State, f: Faults, gaps: Gaps, b: nat)
    requires s.img.Writing? && |s.img.data| > 0 && EngineOk(s) && Unasked(s, b)
    ensures Unasked(DoImageCow(s, f, gaps), b)
  {
    CowKeeps(s.eng, s.img.ofs, |s.img.data|, f, gaps);
    PrepareMapsRange(s.eng, [], s.img.ofs, |s.img.data|, gaps, b);
  }

  lemma StepUnasked(s: State, ev: Event, b: nat)
    requires Enabled(s, ev) && EngineOk(s) && Unasked(s, b) && !Brings(s.eng.blk, ev, b)
    ensures Unasked(Step(s, ev), b) && Step(s, ev).eng.blk == s.eng.blk
  {
    match ev
    case Pop(gaps) =>
      PopUnasked(s, gaps, b);
      PopEngineKeepsSize(s, gaps);
    case ImageCow(f, gaps) =>
      CowUnasked(s, f, gaps, b);
      CowKeeps(s.eng, s.img.ofs, |s.img.data|, f, gaps);
    case Copy(f) => CopyOutKeeps(s.eng, s.req, f);
    case Submit(bio, late) => SubmitUnasked(s, bio, late, b);
    case _ => RestUnasked(s, ev, b);
  }

  lemma PopEngineKeepsSize(s: State, gaps: Gaps)
    requires RoomLeft(s) && EngineOk(s)
    ensures DoPop(s, gaps).eng.blk == s.eng.blk
  {
    PopLater(s, gaps);
  }

  lemma SubmitUnasked(s: State, bio: Bio, late: bool, b: nat)
    requires Unasked(s, b) && !WritesBlock(s.eng.blk, bio, b)
    ensures Unasked(DoSubmit(s, bio, late), b) && DoSubmit(s, bio, late).eng.blk == s.eng.blk
  {
  }

  lemma RestUnasked(s: State, ev: Event, b: nat)
    requires Enabled(s, ev) && Unasked(s, b) && !Brings(s.eng.blk, ev, b)
    requires !ev.Pop? && !ev.ImageCow? && !ev.Copy? && !ev.Submit?
    ensures Unasked(Step(s, ev), b) && Step(s, ev).eng.blk == s.eng.blk
  {
    var s1 := Step(s, ev);
    if ev.Drain? {
      forall k | 0 <= k < |s1.waiting|
        ensures !WritesBlock(s1.eng.blk, s1.waiting[k], b)
      {
        assert s1.waiting[k] == s.waiting[k + 1];
      }
    }
  }

  lemma {:induction false} RunUnasked(s: State, evs: seq<Event>, b: nat)
    requires Inv(s) && Legal(s, evs) && Unasked(s, b)
    requires forall k | 0 <= k < |evs| :: !Brings(s.eng.blk, evs[k], b)
    ensures Unasked(Run(s, evs), b)
    decreases |evs|
  {
    if evs != [] {
      assert !Brings(s.eng.blk, evs[0], b);
      StepUnasked(s, evs[0], b);
      StepKeepsInv(s, evs[0]);
      forall k | 0 <= k < |evs[1..]|
        ensures !Brings(s.eng.blk, evs[1..][k], b)
      {
        assert !Brings(s.eng.blk, evs[k + 1], b);
      }
      RunUnasked(Step(s, evs[0]), evs[1..], b);
    }
  }

  /** Each block that is mapped or was taken for copying is one that some write brought by the run meets. */
  lemma CopiedOnlyIfWritten(s0: State, evs: seq<Event>, b: nat)
    requires Captured(s0) && Legal(s0, evs)
    requires var s := Run(s0, evs); b in s.eng.blocks || Logged(s, b)
    ensures exists k :: 0 <= k < |evs| && Brings(s0.eng.blk, evs[k], b)
  {
    CaptureInv(s0);
    RunKeepsInv(s0, evs);
    if forall k | 0 <= k < |evs| :: !Brings(s0.eng.blk, evs[k], b) {
      RunUnasked(s0, evs, b);
    }
  }

  // ---- the size of a batch ----

  /** Sectors that the writes among the bios write. */
  function WriteSectors(bios: seq<Bio>): nat {
    if bios == [] then 0
    else
      var n := |bios| - 1;
      WriteSectors(bios[..n]) + if bios[n].Write? then |bios[n].data| else 0
  }

  /** The counters of a batch in the making, and its bounds: 250 bios, and 20480 sectors before the last bio. */
  ghost predicate Bounded(s: State) {
    && |s.inProcess| <= 250
    && (s.phase.Preparing? ==>
          && s.phase.bios == |s.inProcess|
          && (!s.stopping && !s.eng.corrupted ==>
                && s.phase.sectors == WriteSectors(s.inProcess)
                && (s.inProcess != [] ==> WriteSectors(s.inProcess[..|s.inProcess| - 1]) < 20480)))
  }

  lemma PopBounded(s: State, gaps: Gaps)
    requires RoomLeft(s) && EngineOk(s) && Queues(s) && Bounded(s)
    ensures Bounded(DoPop(s, gaps))
  {
    var s1, bio := DoPop(s, gaps), s.waiting[0];
    assert OnDevice(|s.eng.orig|, bio);
    PopEngine(s, gaps);
    assert s1.inProcess[..|s1.inProcess| - 1] == s.inProcess;
  }

  lemma SameBounded(s: State, s1: State)
    requires Bounded(s) && |s1.inProcess| <= |s.inProcess|
    requires s1.phase.Preparing? ==> s1.phase == s.phase && s1.inProcess == s.inProcess
    requires (s.stopping ==> s1.stopping) && (s.eng.corrupted ==> s1.eng.corrupted)
    ensures Bounded(s1)
  {
  }

  lemma StepBounded(s: State, ev: Event)
    requires Enabled(s, ev) && Inv(s) && Bounded(s)
    ensures Bounded(Step(s, ev))
  {
    if ev.Pop? {
      PopBounded(s, ev.gaps);
    } else if ev.Begin? {
      assert s.inProcess == [];
    } else {
      StepIsLater(s, ev);
      SameBounded(s, Step(s, ev));
    }
  }

  lemma {:induction false} RunBounded(s: State, evs: seq<Event>)
    requires Inv(s) && Legal(s, evs) && Bounded(s)
    ensures Bounded(Run(s, evs))
    decreases |evs|
  {
    if evs != [] {
      StepBounded(s, evs[0]);
      StepKeepsInv(s, evs[0]);
      RunBounded(Step(s, evs[0]), evs[1..]);
    }
  }

  /** At each point of a run the batch keeps its bounds. */
  lemma BatchIsBounded(s0: State, evs: seq<Event>)
    requires Captured(s0) && Legal(s0, evs)
    ensures Bounded(Run(s0, evs))
  {
    CaptureInv(s0);
    RunBounded(s0, evs);
  }
}
