/**
 * A tracked device (`tracker.c`) and the routing of its bios (`tracking.c`): while a snapshot is held
 * they go to deferred I/O, otherwise, or when refused there, they are marked and issued at once.
 */
module Trackers {
  import opened Basics
  import opened CowEngine
  import opened SnapshotMachine
  import opened DeferredPages
  import opened SnapstoreDevices
  import opened CbtTrackers
  import opened DeferIos
  import opened WorkerSteps
  import C = CbtMap
  import T = CbtTracking

  class Tracker {
    const cbt: CbtTracker
    var isCaptured: bool
    var deferIo: DeferIo?

    ghost predicate Apart()
      reads this
    {
      && (isCaptured <==> deferIo != null)
      && (deferIo != null ==> deferIo.tracker == cbt)
    }

    constructor (cbt: CbtTracker)
      ensures this.cbt == cbt && deferIo == null && !isCaptured
    {
      this.cbt, isCaptured, deferIo := cbt, false, null;
    }

    /** Mark a write and issue the bio, with no snapshot to care for. */
    method IssueAtOnce(bio: Bio)
      requires cbt.Valid() && (bio.Write? ==> bio.ofs < |cbt.targetDev.data| && |bio.data| > 0)
      modifies cbt, cbt.targetDev, cbt.cbtMap, cbt.cbtMap.writeMap.pages
      ensures cbt.Valid() && cbt.targetDev.data == Apply(old(cbt.targetDev.data), bio)
      ensures cbt.Track() == Noted(old(cbt.Track()), bio)
    {
      var sectStart, sectCount := 0, 0;
      if bio.Write? {
        sectStart, sectCount := bio.ofs, |bio.data|;
        if sectStart + sectCount > |cbt.targetDev.data| {
          sectCount := sectCount - ((sectStart + sectCount) - |cbt.targetDev.data|);
        }
      }
      cbt.Issue(bio, sectStart, sectCount);
    }

    /** A refused bio is marked and issued past the queue. */
    method PassBy(dio: DeferIo, bio: Bio)
      requires dio.tracker == cbt && dio.Sane() && OnDevice(|dio.device.origBlkDev.data|, bio)
      modifies cbt, cbt.targetDev, cbt.cbtMap, cbt.cbtMap.writeMap.pages
      ensures dio.Sane() && dio.device.State() == var e := old(dio.device.State()); e.(orig := Apply(e.orig, bio))
      ensures cbt.Track() == Noted(old(cbt.Track()), bio)
    {
      dio.PassOn(bio);
    }

    /** `defer_io_redirect_bio`; it leaves the map alone. */
    method Offer(dio: DeferIo, bio: Bio) returns (queued: bool)
      requires dio.tracker == cbt && dio.Sane() && OnDevice(|dio.device.origBlkDev.data|, bio)
      modifies dio`biosReceived, dio.device`reqFailedCnt, dio.dioQueue
      ensures dio.Sane() && dio.dioQueue.activeState == old(dio.dioQueue.activeState)
      ensures queued <==> dio.dioQueue.activeState && !old(dio.device.corrupted)
      ensures dio.dioQueue.items == if queued then old(dio.dioQueue.items) + [bio] else old(dio.dioQueue.items)
      ensures dio.device.State() == Tested(old(dio.device.State())) && cbt.Track() == old(cbt.Track())
    {
      ghost var track := cbt.Track();
      var res := dio.RedirectBio(bio);
      assert cbt.Track() == track;
      queued := res == Success;
    }

    /** `defer_io_redirect_bio`, and marking and issuing at once what it refuses. */
    method RedirectOrPass(dio: DeferIo, bio: Bio) returns (queued: bool)
      requires dio.tracker == cbt && dio.Sane() && OnDevice(|dio.device.origBlkDev.data|, bio)
      modifies dio`biosReceived, dio.device`reqFailedCnt, dio.dioQueue
      modifies cbt, cbt.targetDev, cbt.cbtMap, cbt.cbtMap.writeMap.pages
      ensures dio.Sane() && dio.dioQueue.activeState == old(dio.dioQueue.activeState)
      ensures queued <==> dio.dioQueue.activeState && !old(dio.device.corrupted)
      ensures dio.dioQueue.items == if queued then old(dio.dioQueue.items) + [bio] else old(dio.dioQueue.items)
      ensures dio.device.State() == var e := Tested(old(dio.device.State()));
              if queued then e else e.(orig := Apply(e.orig, bio))
      ensures cbt.Track() == if queued then old(cbt.Track()) else Noted(old(cbt.Track()), bio)
    {
      queued := Offer(dio, bio);
      if !queued {
        PassBy(dio, bio);
      }
    }

    /** `tracking_make_request` while a snapshot is held: one `Submit` of the machine. */
    method Redirect(dio: DeferIo, bio: Bio, ghost s: State, ghost reach: State -> bool) returns (ghost s1: State)
      requires dio.tracker == cbt && dio.Sane() && dio.Linked(s) && s.captured && reach(s)
      requires Stays(reach, Submit(bio, false)) && OnDevice(|dio.device.origBlkDev.data|, bio)
      modifies dio`biosReceived, dio.device`reqFailedCnt, dio.dioQueue
      modifies cbt, cbt.targetDev, cbt.cbtMap, cbt.cbtMap.writeMap.pages
      ensures dio.Sane() && dio.Linked(s1) && reach(s1) && s1 == DoSubmit(s, bio, false)
      ensures cbt.Track() == if Refused(s, false) then Noted(old(cbt.Track()), bio) else old(cbt.Track())
    {
      s1 := AfterSubmit(s, bio, reach);
      SubmitOutcome(s, bio);
      var queued := RedirectOrPass(dio, bio);
    }

    /** `tracking_make_request`: `dio` is the deferred I/O the tracker holds, if any. */
    method MakeRequest(dio: DeferIo?, bio: Bio, ghost s: State, ghost reach: State -> bool) returns (ghost s1: State)
      requires Apart() && dio == deferIo && cbt.Valid()
      requires bio.Write? ==> bio.ofs < |cbt.targetDev.data| && |bio.data| > 0
      requires dio != null ==> dio.Sane() && dio.Linked(s) && s.captured && reach(s)
      requires dio != null ==> Stays(reach, Submit(bio, false)) && OnDevice(|dio.device.origBlkDev.data|, bio)
      modifies if dio != null then {dio, dio.device, dio.dioQueue} else {}
      modifies cbt, cbt.targetDev, cbt.cbtMap, cbt.cbtMap.writeMap.pages
      ensures cbt.Valid()
      ensures dio != null ==> dio.Sane() && dio.Linked(s1) && reach(s1) && s1 == DoSubmit(s, bio, false)
      ensures dio == null ==> cbt.targetDev.data == Apply(old(cbt.targetDev.data), bio)
      ensures cbt.Track() == if dio == null || Refused(s, false) then Noted(old(cbt.Track()), bio) else old(cbt.Track())
    {
      if isCaptured {
        s1 := Redirect(dio, bio, s, reach);
      } else {
        s1 := s;
        IssueAtOnce(bio);
      }
    }

    /** The tracker's own fields are apart from the device's tables. */
    ghost predicate Outside(device: SnapstoreDevice)
      reads device.snapstore, device.snapstore.pool, device.storeBlockMap
    {
      this !in device.snapstore.pool.Repr && this !in device.storeBlockMap.Repr
    }

    /** Put deferred I/O in place. */
    method Attach(dio: DeferIo, ghost s: State)
      requires dio.tracker == cbt && dio.Sane() && dio.Linked(s) && Outside(dio.device) && cbt.frozen.None?
      modifies this, cbt`frozen
      ensures deferIo == dio && isCaptured && dio.Sane() && dio.Linked(s)
      ensures cbt.Track() == T.Step(old(cbt.Track()), T.Freeze)
    {
      ghost var e := dio.device.State();
      deferIo := dio;
      isCaptured := true;
      cbt.Freeze();
      assert dio.device.State() == e;
    }

    /** Closing the epoch changes nothing the snapshot device looks at. */
    method SwitchMap(dio: DeferIo, newGen: C.Uuid)
      requires dio.tracker == cbt && dio.Apart() && dio.device.Valid() && cbt.Valid()
      requires newGen !in cbt.drawn && cbt.frozen.Some?
      modifies cbt, cbt.cbtMap, cbt.cbtMap.readMap.pages, cbt.cbtMap.writeMap.pages
      ensures dio.device.Valid() && dio.device.State() == old(dio.device.State())
      ensures cbt.Valid() && cbt.Track() == T.Step(old(cbt.Track()), T.Close(newGen))
    {
      ghost var e := dio.device.State();
      cbt.Close(newGen);
      assert dio.device.State() == e;
    }

    /** Close the map's epoch with deferred I/O in place. */
    method CloseEpoch(dio: DeferIo, newGen: C.Uuid, ghost s: State)
      requires dio.tracker == cbt && dio.Sane() && dio.Linked(s) && newGen !in cbt.drawn && cbt.frozen.Some?
      modifies cbt, cbt.cbtMap, cbt.cbtMap.readMap.pages, cbt.cbtMap.writeMap.pages
      ensures dio.Sane() && dio.Linked(s) && cbt.Track() == T.Step(old(cbt.Track()), T.Close(newGen))
    {
      SwitchMap(dio, newGen);
    }

    /**
     * `_tracker_capture_snapshot`: deferred I/O is made first, and given up if there is one already; it is
     * put in place, and then the map's epoch is closed.
     */
    method CaptureSnapshot(device: SnapstoreDevice, newGen: C.Uuid) returns (res: Status)
      requires Apart() && cbt.Valid() && newGen !in cbt.drawn && cbt.frozen.None? && Outside(device)
      requires device.Valid() && cbt.targetDev == device.origBlkDev
      requires {cbt, cbt.cbtMap} !! device.snapstore.pool.Repr && {cbt, cbt.cbtMap} !! device.storeBlockMap.Repr
      requires forall p | p in cbt.cbtMap.readMap.pages ::
                 p !in device.snapstore.pool.Repr && p !in device.storeBlockMap.Repr
      requires forall p | p in cbt.cbtMap.writeMap.pages ::
                 p !in device.snapstore.pool.Repr && p !in device.storeBlockMap.Repr
      modifies this, cbt, cbt.cbtMap, cbt.cbtMap.readMap.pages, cbt.cbtMap.writeMap.pages
      ensures Apart() && cbt.Valid() && res == if old(deferIo) != null then EAlready else Success
      ensures res != Success ==> deferIo == old(deferIo) && cbt.Track() == old(cbt.Track())
      ensures res == Success ==> isCaptured && deferIo.device == device && deferIo.Sane()
      ensures res == Success ==> deferIo.Linked(Start(old(device.State())))
      ensures res == Success ==> cbt.Track() == T.Step(T.Step(old(cbt.Track()), T.Freeze), T.Close(newGen))
    {
      ghost var s, track := Start(device.State()), cbt.Track();
      var dio := new DeferIo(device, cbt);
      assert cbt.Track() == track;
      if deferIo != null { return EAlready; }
      Attach(dio, s);
      CloseEpoch(dio, newGen, s);
      res := Success;
    }

    /** From here on bios pass at once. */
    method Detach(dio: DeferIo, ghost s: State, ghost reach: State -> bool) returns (ghost s1: State)
      requires dio.tracker == cbt && dio.Sane() && dio.Linked(s) && Outside(dio.device) && reach(s)
      requires Stays(reach, Event.Release)
      modifies this
      ensures deferIo == null && !isCaptured && dio.Sane() && dio.Linked(s1) && reach(s1) && s1 == s.(captured := false)
      ensures cbt.Track() == old(cbt.Track())
    {
      ghost var e, track := dio.device.State(), cbt.Track();
      isCaptured := false;
      deferIo := null;
      assert dio.device.State() == e && cbt.Track() == track;
      s1 := AfterFlag(s, Event.Release, reach);
    }

    /** A held snapshot: pass bios at once, stop the worker and wait until everything it had taken is issued. */
    method Release(dio: DeferIo, readRooms: nat -> BioRoom, storeRooms: nat -> BioRoom, faults: nat -> Faults,
        ghost s: State, ghost reach: State -> bool, ghost tracks: T.Track -> bool)
      returns (ghost s1: State)
      requires dio.tracker == cbt && dio.Sane() && dio.Linked(s) && Outside(dio.device) && s.phase.Idle?
      requires SnapstoreDevice.Roomy(storeRooms) && reach(s) && CopiesSafely(reach)
      requires forall turn: nat :: BatchStays(reach, faults(turn), SnapstoreDevice.Roomy(readRooms))
      requires Stays(reach, Event.Release) && Stays(reach, Event.Stop) && EndStays(reach)
      requires ClosedTracks(tracks) && tracks(cbt.Track())
      modifies this, dio, dio.dioQueue, dio.inProcess
      modifies dio.device, dio.device.snapstore, dio.device.snapstore.blkDev, dio.device.snapstore.pool`takeCnt
      modifies dio.device.storeBlockMap, dio.device.storeBlockMap.Repr
      modifies cbt, dio.device.origBlkDev, cbt.cbtMap, cbt.cbtMap.writeMap.pages
      ensures deferIo == null && !isCaptured
      ensures dio.Sane() && dio.Linked(s1) && reach(s1) && s1.phase.Done? && s1.waiting == [] && tracks(cbt.Track())
      ensures cbt.targetDev.data == ApplyAll(s.eng.orig, s.waiting)
    {
      s1 := Detach(dio, s, reach);
      s1 := dio.StopAndWait(readRooms, storeRooms, faults, s1, reach, tracks);
    }

    /** What `Release` may change. */
    ghost function Held(dio: DeferIo?): set<object>
      reads if dio != null then {dio.device.snapstore.pool, dio.device.storeBlockMap} else {}
    {
      if dio == null then {}
      else {dio, dio.dioQueue, dio.inProcess, dio.device, dio.device.snapstore, dio.device.snapstore.blkDev,
            dio.device.snapstore.pool, dio.device.storeBlockMap, dio.device.origBlkDev} + dio.device.storeBlockMap.Repr
    }

    /** `_tracker_release_snapshot`: without a snapshot there is nothing to release. */
    method ReleaseSnapshot(dio: DeferIo?, readRooms: nat -> BioRoom, storeRooms: nat -> BioRoom, faults: nat -> Faults,
        ghost s: State, ghost reach: State -> bool, ghost tracks: T.Track -> bool)
      returns (ghost s1: State)
      requires Apart() && dio == deferIo && cbt.Valid()
      requires dio != null ==> dio.Sane() && dio.Linked(s) && Outside(dio.device) && s.phase.Idle?
      requires SnapstoreDevice.Roomy(storeRooms) && reach(s) && CopiesSafely(reach)
      requires forall turn: nat :: BatchStays(reach, faults(turn), SnapstoreDevice.Roomy(readRooms))
      requires Stays(reach, Event.Release) && Stays(reach, Event.Stop) && EndStays(reach)
      requires ClosedTracks(tracks) && tracks(cbt.Track())
      modifies this, Held(dio), cbt, cbt.cbtMap, cbt.cbtMap.writeMap.pages
      ensures Apart() && deferIo == null && !isCaptured && cbt.Valid() && tracks(cbt.Track())
      ensures if dio == null then s1 == s
              else dio.Sane() && dio.Linked(s1) && reach(s1) && s1.phase.Done? && s1.waiting == []
      ensures dio != null ==> cbt.targetDev.data == ApplyAll(s.eng.orig, s.waiting)
    {
      s1 := s;
      if dio != null {
        s1 := Release(dio, readRooms, storeRooms, faults, s, reach, tracks);
      }
    }
  }
}
