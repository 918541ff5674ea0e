/**
 * The steps of `SnapshotMachine` that the worker and the tracker of a captured device take themselves,
 * inside a set of states that these steps do not leave, and what they keep whatever that set is.
 */
module WorkerSteps {
  import opened Basics
  import opened CowEngine
  import opened SnapshotMachine
  import P = SnapshotProofs
  import R = SnapshotTheorems
  import H = SnapshotHealth

  /** Wherever it may happen inside the set, the step stays inside. */
  ghost predicate Stays(reach: State -> bool, ev: Event) {
    forall s: State | reach(s) && Enabled(s, ev) :: reach(Step(s, ev))
  }

  /** So does copying with the faults `f`; where bios may find no room, also when the read fails for that. */
  ghost predicate CopyStays(reach: State -> bool, f: Faults, roomy: bool) {
    Stays(reach, Copy(f)) && (roomy || Stays(reach, Copy(f.(readOk := false))))
  }

  /** So do the steps of a batch. */
  ghost predicate BatchStays(reach: State -> bool, f: Faults, roomy: bool) {
    && Stays(reach, Begin) && Stays(reach, Pop(map[])) && Stays(reach, EndPrepare) && CopyStays(reach, f, roomy)
    && Stays(reach, Issue) && Stays(reach, EndBatch)
  }

  /** So do the worker's last steps. */
  ghost predicate EndStays(reach: State -> bool) {
    Stays(reach, Exit) && Stays(reach, Deactivate) && Stays(reach, Drain) && Stays(reach, Finish)
  }

  /** Where a batch is about to be copied, engine and copy request fit together. */
  ghost predicate CopiesSafely(reach: State -> bool) {
    forall t: State | reach(t) && t.phase.Copying? :: P.EngineOk(t)
  }

  lemma SafeToCopy(s: State, reach: State -> bool)
    requires CopiesSafely(reach) && reach(s) && s.phase.Copying?
    ensures WellFormed(s.eng) && ReqOk(s.eng, s.req)
  {
  }

  /** The machine as a capture leaves it. */
  function Start(e: Engine): State {
    State(e, [], [], [], Idle, true, false, Quiet, e.orig, [], [], [], [], [], false, {}, {})
  }

  /** What taking a bio into the batch does to the engine and the copy request. */
  function PreparedBio(e: Engine, stopping: bool, req: seq<Dio>, bio: Bio): (Engine, seq<Dio>, Status, nat)
    requires bio.Write? ==> |bio.data| > 0
  {
    if stopping then (e, req, Success, 0)
    else if e.corrupted then (Tested(e), req, Success, 0)
    else if bio.Write? then
      var (e1, req1, st1) := Prepare(e, req, bio.ofs, |bio.data|, map[]);
      (e1, req1, st1, if st1 == Success then |bio.data| else 0)
    else (e, req, Success, 0)
  }

  /** The machine's state after a `Pop`, for any set of states that `Pop` does not leave. */
  lemma AfterPop(s: State, bio: Bio, e: Engine, req: seq<Dio>, st: Status, more: nat, reach: State -> bool)
    returns (s1: State)
    requires RoomLeft(s) && bio == s.waiting[0] && (bio.Write? ==> |bio.data| > 0)
    requires Stays(reach, Pop(map[])) && reach(s)
    requires (e, req, st, more) == PreparedBio(s.eng, s.stopping, s.req, bio)
    ensures reach(s1) && s1.eng == e && s1.req == req && s1.waiting == s.waiting[1..]
    ensures s1.inProcess == s.inProcess + [bio]
    ensures s1.stopping == s.stopping
    ensures s1.phase == if st == Success then Preparing(s.phase.bios + 1, s.phase.sectors + more) else Finishing
  {
    assert Enabled(s, Pop(map[]));
    s1 := Step(s, Pop(map[]));
  }

  lemma AfterEndPrepare(s: State, reach: State -> bool) returns (s1: State)
    requires s.phase.Preparing? && !RoomLeft(s) && Stays(reach, EndPrepare) && reach(s)
    ensures reach(s1) && s1 == s.(phase := if s.req == [] then Finishing else Copying)
  {
    assert Enabled(s, EndPrepare);
    s1 := Step(s, EndPrepare);
  }

  lemma AfterCopy(s: State, f: Faults, e: Engine, st: Status, reach: State -> bool) returns (s1: State)
    requires s.phase.Copying? && Stays(reach, Copy(f)) && reach(s) && (e, st) == CopyOut(s.eng, s.req, f)
    ensures reach(s1) && s1.eng == e && s1.waiting == s.waiting && s1.inProcess == s.inProcess
    ensures s1.stopping == s.stopping
    ensures s1.phase == Finishing
  {
    assert Enabled(s, Copy(f));
    s1 := Step(s, Copy(f));
  }

  lemma AfterIssue(s: State, reach: State -> bool) returns (s1: State)
    requires s.phase.Finishing? && s.inProcess != [] && Stays(reach, Issue) && reach(s)
    ensures reach(s1) && s1.eng == s.eng.(orig := Apply(s.eng.orig, s.inProcess[0])) && s1.phase == Finishing
    ensures s1.waiting == s.waiting && s1.inProcess == s.inProcess[1..] && s1.stopping == s.stopping
  {
    assert Enabled(s, Issue);
    s1 := Step(s, Issue);
  }

  lemma AfterDrain(s: State, reach: State -> bool) returns (s1: State)
    requires s.phase.Draining? && s.waiting != [] && Stays(reach, Drain) && reach(s)
    ensures reach(s1) && s1.eng == s.eng.(orig := Apply(s.eng.orig, s.waiting[0])) && s1.phase == Draining
    ensures s1.waiting == s.waiting[1..] && s1.inProcess == s.inProcess && s1.stopping == s.stopping
  {
    assert Enabled(s, Drain);
    s1 := Step(s, Drain);
  }

  /** The steps that only move the worker on. */
  lemma AfterMove(s: State, ev: Event, reach: State -> bool) returns (s1: State)
    requires ev.Begin? || ev.EndBatch? || ev.Exit? || ev.Deactivate? || ev.Finish?
    requires Enabled(s, ev) && Stays(reach, ev) && reach(s)
    ensures reach(s1) && s1.eng == s.eng && s1.waiting == s.waiting && s1.inProcess == s.inProcess
    ensures s1.stopping == s.stopping
    ensures ev.Begin? ==> s1.phase == Preparing(0, 0) && s1.req == []
    ensures ev.EndBatch? ==> s1.phase == Idle
    ensures ev.Exit? ==> s1.phase == Exited
    ensures ev.Deactivate? ==> s1.phase == Draining
    ensures ev.Finish? ==> s1.phase == Done
  {
    s1 := Step(s, ev);
  }

  lemma AfterSubmit(s: State, bio: Bio, reach: State -> bool) returns (s1: State)
    requires OnDevice(|s.eng.orig|, bio) && Stays(reach, Submit(bio, false)) && reach(s)
    ensures reach(s1) && s1 == DoSubmit(s, bio, false)
  {
    assert Enabled(s, Submit(bio, false));
    s1 := Step(s, Submit(bio, false));
  }

  /** What a bio that arrives under a snapshot does to the parts of the state that objects hold. */
  lemma SubmitOutcome(s: State, bio: Bio)
    requires s.captured
    ensures var s1 := DoSubmit(s, bio, false);
            && s1.inProcess == s.inProcess && s1.stopping == s.stopping && s1.phase == s.phase
            && s1.eng == (var e := Tested(s.eng); if Refused(s, false) then e.(orig := Apply(e.orig, bio)) else e)
            && s1.waiting == if Refused(s, false) then s.waiting else s.waiting + [bio]
  {
  }

  lemma AfterFlag(s: State, ev: Event, reach: State -> bool) returns (s1: State)
    requires (ev.Release? || ev.Stop?) && Stays(reach, ev) && reach(s)
    ensures reach(s1) && s1 == if ev.Release? then s.(captured := false) else s.(stopping := true)
  {
    assert Enabled(s, ev);
    s1 := Step(s, ev);
  }

  // ---- what the worker's steps keep ----

  /** From `s` on, the worker has passed on the first `n` bios of batch and queue, and the rest still waits. */
  ghost predicate PassedOn(s: State, t: State, n: nat) {
    var all := s.inProcess + s.waiting;
    n <= |all| && t.inProcess + t.waiting == all[n..] && t.eng.orig == ApplyAll(s.eng.orig, all[..n])
  }

  ghost predicate Progress(s: State, t: State) {
    exists n: nat :: PassedOn(s, t, n)
  }

  lemma ProgressStarts(s: State)
    ensures Progress(s, s)
  {
    var all := s.inProcess + s.waiting;
    assert all[0..] == all && all[..0] == [];
    assert PassedOn(s, s, 0);
  }

  /** Steps that neither issue a bio nor lose one. */
  lemma ProgressStays(s: State, t: State, t1: State)
    requires Progress(s, t) && t1.inProcess + t1.waiting == t.inProcess + t.waiting && t1.eng.orig == t.eng.orig
    ensures Progress(s, t1)
  {
    var n: nat :| PassedOn(s, t, n);
    assert PassedOn(s, t1, n);
  }

  lemma ProgressMoves(s: State, t: State, t1: State, bio: Bio)
    requires Progress(s, t) && t.inProcess + t.waiting == [bio] + (t1.inProcess + t1.waiting)
    requires t1.eng.orig == Apply(t.eng.orig, bio)
    ensures Progress(s, t1)
  {
    var n: nat :| PassedOn(s, t, n);
    var all := s.inProcess + s.waiting;
    assert all[n..][0] == bio && all[n..][1..] == all[n + 1..];
    assert all[..n + 1] == all[..n] + [bio];
    P.ApplyAllSnoc(s.eng.orig, all[..n], bio);
    assert ([bio] + (t1.inProcess + t1.waiting))[1..] == t1.inProcess + t1.waiting;
    assert PassedOn(s, t1, n + 1);
  }

  /** Preparing leaves the original device alone. */
  lemma {:induction false} PrepareSpares(e: Engine, req: seq<Dio>, inx: nat, last: int)
    ensures PrepareRequests(e, req, inx, last, map[]).0.orig == e.orig
    decreases last + 1 - inx
  {
    if inx > last {
    } else if inx in e.blocks {
      PrepareSpares(e, req, inx + 1, last);
    } else {
      var (e1, req1, st) := AddRequest(e, req, inx, false);
      if st == Success {
        PrepareSpares(e1, req1, inx + 1, last);
      }
    }
  }

  predicate WorkersOwn(ev: Event) {
    match ev
    case Begin => true
    case Pop(gaps) => gaps == map[]
    case EndPrepare => true
    case Copy(f) => true
    case Issue => true
    case EndBatch => true
    case Exit => true
    case Deactivate => true
    case Drain => true
    case Finish => true
    case _ => false
  }

  lemma PopProgress(s: State, t: State)
    requires Progress(s, t) && RoomLeft(t)
    ensures Progress(s, DoPop(t, map[]))
  {
    var t1 := DoPop(t, map[]);
    var bio := t.waiting[0];
    P.MoveOne([], t.inProcess, t.waiting);
    if bio.Write? && |bio.data| > 0 && !t.stopping && !t.eng.corrupted {
      PrepareSpares(t.eng, t.req, FirstBlock(t.eng.blk, bio.ofs), LastBlock(t.eng.blk, bio.ofs, |bio.data|));
    }
    ProgressStays(s, t, t1);
  }

  lemma IssueProgress(s: State, t: State)
    requires Progress(s, t) && Enabled(t, Issue)
    ensures Progress(s, Step(t, Issue))
  {
    var t1 := Step(t, Issue);
    assert t.inProcess == [t.inProcess[0]] + t1.inProcess;
    ProgressMoves(s, t, t1, t.inProcess[0]);
  }

  lemma FirstOff(queue: seq<Bio>)
    requires queue != []
    ensures [] + queue == [queue[0]] + ([] + queue[1..])
  {
  }

  lemma DrainProgress(s: State, t: State)
    requires Progress(s, t) && Enabled(t, Drain) && t.inProcess == []
    ensures Progress(s, Step(t, Drain))
  {
    var t1 := Step(t, Drain);
    FirstOff(t.waiting);
    assert t1.inProcess == [] && t1.waiting == t.waiting[1..];
    ProgressMoves(s, t, t1, t.waiting[0]);
  }

  /** Between batches the batch is empty. */
  predicate Emptied(s: State) {
    Unlocked(s) ==> s.inProcess == []
  }

  lemma StepProgress(s: State, t: State, ev: Event)
    requires Progress(s, t) && Emptied(t) && Enabled(t, ev) && WorkersOwn(ev)
    ensures Progress(s, Step(t, ev)) && Emptied(Step(t, ev))
  {
    var t1 := Step(t, ev);
    if ev.Pop? {
      PopProgress(s, t);
    } else if ev.Issue? {
      IssueProgress(s, t);
    } else if ev.Drain? {
      DrainProgress(s, t);
    } else {
      StoreAllKeeps(t.eng, t.req);
      ProgressStays(s, t, t1);
    }
  }

  /** Nothing has gone wrong, and nothing is about to for want of descriptors or whole blocks. */
  ghost predicate Well(s: State) {
    R.Inv(s) && H.Sound(s) && H.Enough(s.eng) && P.Clean(s) && !s.stopping
  }

  lemma StepSame(t: State, ev: Event)
    requires Enabled(t, ev) && WorkersOwn(ev) && !t.stopping && R.Inv(t)
    ensures var t1 := Step(t, ev); t1.orig0 == t.orig0 && t1.written == t.written && !t1.stopping
    ensures Step(t, ev).bypassed == t.bypassed
  {
    match ev
    case Pop(_) =>
    case Copy(f) =>
    case _ =>
  }

  lemma StepWell(t: State, ev: Event)
    requires Well(t) && Enabled(t, ev) && WorkersOwn(ev) && H.Healthy(ev)
    ensures var t1 := Step(t, ev); Well(t1) && t1.orig0 == t.orig0 && t1.written == t.written
  {
    R.StepKeepsInv(t, ev);
    H.StepSound(t, ev);
    H.StepIsEnough(t, ev);
    StepSame(t, ev);
  }

  /** A state the worker comes to from `s`; if all is well and its I/O is healthy, all is well there. */
  ghost predicate Kept(s: State, t: State, healthy: bool) {
    && Emptied(t) && Progress(s, t)
    && (Well(s) && healthy ==> Well(t) && t.orig0 == s.orig0 && t.written == s.written)
  }

  lemma KeptStep(s: State, t: State, ev: Event, healthy: bool)
    requires Kept(s, t, healthy) && Enabled(t, ev) && WorkersOwn(ev) && (healthy ==> H.Healthy(ev))
    ensures Kept(s, Step(t, ev), healthy)
  {
    StepProgress(s, t, ev);
    if Well(s) && healthy {
      StepWell(t, ev);
    }
  }

  /** The states of the set that the worker comes to from `s`. */
  ghost function Within(s: State, reach: State -> bool, healthy: bool): State -> bool {
    (t: State) => reach(t) && Kept(s, t, healthy)
  }

  lemma WithinStarts(s: State, reach: State -> bool, healthy: bool)
    requires reach(s) && Emptied(s)
    ensures Within(s, reach, healthy)(s)
  {
    ProgressStarts(s);
  }

  lemma WithinStays(s: State, reach: State -> bool, healthy: bool, ev: Event)
    requires Stays(reach, ev) && WorkersOwn(ev) && (healthy ==> H.Healthy(ev))
    ensures Stays(Within(s, reach, healthy), ev)
  {
    forall t: State | Within(s, reach, healthy)(t) && Enabled(t, ev)
      ensures Within(s, reach, healthy)(Step(t, ev))
    {
      KeptStep(s, t, ev, healthy);
    }
  }

  lemma WithinBatch(s: State, reach: State -> bool, healthy: bool, f: Faults, roomy: bool)
    requires BatchStays(reach, f, roomy) && (healthy ==> H.HealthyIo(f) && roomy)
    ensures BatchStays(Within(s, reach, healthy), f, roomy)
    ensures CopiesSafely(reach) ==> CopiesSafely(Within(s, reach, healthy))
  {
    WithinStays(s, reach, healthy, Begin);
    WithinStays(s, reach, healthy, Pop(map[]));
    WithinStays(s, reach, healthy, EndPrepare);
    WithinStays(s, reach, healthy, Copy(f));
    WithinStays(s, reach, healthy, Issue);
    WithinStays(s, reach, healthy, EndBatch);
    if !roomy {
      WithinStays(s, reach, healthy, Copy(f.(readOk := false)));
    }
  }

  /** A set no larger, in which a batch leads only to states the worker comes to from `s`. */
  lemma BatchWithin(s: State, reach: State -> bool, healthy: bool, f: Faults, roomy: bool)
    returns (within: State -> bool)
    requires BatchStays(reach, f, roomy) && CopiesSafely(reach) && reach(s) && Emptied(s)
    requires healthy ==> H.HealthyIo(f) && roomy
    ensures BatchStays(within, f, roomy) && CopiesSafely(within) && within(s)
    ensures forall t: State | within(t) :: reach(t) && Kept(s, t, healthy)
  {
    within := Within(s, reach, healthy);
    WithinStarts(s, reach, healthy);
    WithinBatch(s, reach, healthy, f, roomy);
  }

  lemma WithinEnd(s: State, reach: State -> bool)
    requires EndStays(reach)
    ensures EndStays(Within(s, reach, false))
  {
    WithinStays(s, reach, false, Exit);
    WithinStays(s, reach, false, Deactivate);
    WithinStays(s, reach, false, Drain);
    WithinStays(s, reach, false, Finish);
  }

  /** The image is shown the same. */
  ghost predicate SameImage(e: Engine, e1: Engine) {
    |e1.orig| == |e.orig| && forall i: nat | i < |e.orig| :: Shown(e1, {}, i) == Shown(e, {}, i)
  }

  /** With all well, the image of a device that is not being prepared or copied is shown in full. */
  lemma WellShows(s: State, i: nat)
    requires Well(s) && PendingNow(s) == {} && i < |s.eng.orig|
    ensures |s.eng.orig| == |s.orig0| && Shown(s.eng, {}, i) == P.Image(s)[i]
  {
    if i in s.lost {
      assert false;
    }
  }

  lemma WellSameImage(s: State, t: State)
    requires Well(s) && Kept(s, t, true) && PendingNow(s) == {} == PendingNow(t)
    ensures !t.eng.corrupted && SameImage(s.eng, t.eng)
  {
    forall i: nat | i < |s.eng.orig|
      ensures Shown(t.eng, {}, i) == Shown(s.eng, {}, i)
    {
      WellShows(s, i);
      WellShows(t, i);
    }
  }

  /** Writes about to be issued have all their blocks in the snapstore. */
  ghost predicate AllCovered(e: Engine, bios: seq<Bio>) {
    forall k | 0 <= k < |bios| && bios[k].Write? :: AllMapped(e, bios[k].ofs, |bios[k].data|)
  }

  /** Of the bios that waited, all but those that still wait have been issued in order. */
  ghost predicate IssuedFirst(orig: seq<Sector>, queue: seq<Bio>, orig1: seq<Sector>, queue1: seq<Bio>) {
    var n := |queue| - |queue1|;
    n >= 0 && queue1 == queue[n..] && orig1 == ApplyAll(orig, queue[..n])
  }

  /** After a batch the bios taken have been issued in order, and with all well the image is the same. */
  lemma BatchDone(s: State, t: State, healthy: bool)
    requires Kept(s, t, healthy) && s.phase.Idle? && t.phase.Idle? && Emptied(s)
    ensures IssuedFirst(s.eng.orig, s.waiting, t.eng.orig, t.waiting)
    ensures Well(s) && healthy ==> Well(t) && !t.eng.corrupted && SameImage(s.eng, t.eng)
  {
    assert s.inProcess + s.waiting == s.waiting && t.inProcess + t.waiting == t.waiting;
    var n: nat :| PassedOn(s, t, n);
    if Well(s) && healthy {
      WellSameImage(s, t);
    }
  }

  /** With all well before a batch is prepared, so it is behind its copying, and its writes are covered. */
  lemma CopyingDone(s: State, t: State, healthy: bool)
    requires Kept(s, t, healthy) && s.phase.Preparing? && s.req == [] && t.phase.Finishing?
    ensures Well(s) && healthy ==>
              Well(t) && !t.eng.corrupted && SameImage(s.eng, t.eng) && AllCovered(t.eng, t.inProcess)
  {
    assert Pending([]) == {};
    if Well(s) && healthy {
      WellSameImage(s, t);
      assert P.Covered(t);
    }
  }

  /** At the end everything that waited has been issued in order. */
  lemma EndDone(s: State, t: State)
    requires Kept(s, t, false) && s.phase.Idle? && Emptied(s) && t.phase.Done? && t.waiting == []
    ensures t.eng.orig == ApplyAll(s.eng.orig, s.waiting)
  {
    var all := s.inProcess + s.waiting;
    assert all == s.waiting && |t.inProcess + t.waiting| == 0;
    var n: nat :| PassedOn(s, t, n);
    assert n == |all| && all[..n] == all;
  }

  /** All is well after each healthy run in service, on a device of whole blocks with a stocked pool. */
  lemma HealthyIsWell(s0: State, evs: seq<Event>)
    requires Captured(s0) && Legal(s0, evs) && H.AllHealthy(evs) && H.AllAlone(evs) && H.Stocked(s0)
    requires |s0.eng.orig| % s0.eng.blk == 0 && R.InService(Run(s0, evs))
    ensures Well(Run(s0, evs))
  {
    R.CaptureInv(s0);
    H.RunSound(s0, evs);
    H.RunIsEnough(s0, evs);
  }

  // ---- the runs of the machine ----

  /** The states that runs from `s0` pass through. */
  ghost function RunsFrom(s0: State): State -> bool {
    (s: State) => R.Reached(s0, s)
  }

  /**
   * No step leaves the states runs from a capture pass through, and they keep the invariant: the methods
   * of `DeferIo` may be taken with exactly these states, so what they do is always part of a run.
   */
  lemma RunsAreClosed(s0: State)
    requires Captured(s0)
    ensures RunsFrom(s0)(s0) && forall ev: Event :: Stays(RunsFrom(s0), ev)
    ensures CopiesSafely(RunsFrom(s0)) && forall t: State | RunsFrom(s0)(t) :: P.Core(t)
  {
    R.ReachedAtOnce(s0);
    forall s: State, ev: Event | RunsFrom(s0)(s) && Enabled(s, ev)
      ensures RunsFrom(s0)(Step(s, ev))
    {
      R.ReachedStep(s0, s, ev);
    }
    forall t: State | RunsFrom(s0)(t)
      ensures P.Core(t)
    {
      R.ReachedInv(s0, t);
    }
  }
}
