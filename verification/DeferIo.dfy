/**
 * Deferred I/O of a captured device (`defer_io.c`).  The worker's methods change queues, block map
 * and devices in place.  Each is proved to take the machine state linked to the objects, `s`, to
 * another one, `s1`, inside every set of states that the worker's own steps, with the I/O the method
 * is given, do not leave: whatever these steps keep is kept here.
 */
module DeferIos {
  import opened Basics
  import opened CowEngine
  import opened SnapshotMachine
  import opened DeferredPages
  import opened SnapstoreDevices
  import opened Queues
  import opened CbtTrackers
  import P = SnapshotProofs
  import T = CbtTracking
  import C = CowHealth
  import H = SnapshotHealth
  import opened WorkerSteps

  class DeferIo {
    const device: SnapstoreDevice
    const tracker: CbtTracker
    const dioQueue: Queue<Bio>
    const inProcess: Queue<Bio> // queue_in_process
    var stopping: bool          // kthread_should_stop()
    var biosReceived: nat
    var biosProcessed: nat

    ghost predicate Apart()
      reads device.snapstore.pool, device.storeBlockMap
    {
      && dioQueue != inProcess && tracker.targetDev == device.origBlkDev
      && {this, dioQueue, inProcess, tracker, tracker.cbtMap} !! device.snapstore.pool.Repr
      && {this, dioQueue, inProcess, tracker, tracker.cbtMap} !! device.storeBlockMap.Repr
      && (forall p | p in tracker.cbtMap.readMap.pages ::
            p !in device.snapstore.pool.Repr && p !in device.storeBlockMap.Repr)
      && (forall p | p in tracker.cbtMap.writeMap.pages ::
            p !in device.snapstore.pool.Repr && p !in device.storeBlockMap.Repr)
    }

    /** The objects themselves. */
    ghost predicate Sane()
      reads device.snapstore, device.snapstore.pool, device.snapstore.pool.Repr
      reads device.storeBlockMap, device.storeBlockMap.Repr
      reads dioQueue, inProcess, tracker.cbtMap, device.origBlkDev
    {
      && Apart() && device.Valid() && tracker.Valid() && dioQueue.Valid() && inProcess.Valid() && inProcess.activeState
      && P.AllOnDevice(|device.origBlkDev.data|, dioQueue.items)
      && P.AllOnDevice(|device.origBlkDev.data|, inProcess.items)
    }

    /** `s` is the machine state of the objects. */
    ghost predicate Linked(s: State)
      requires Sane()
      reads `stopping, device, device.snapstore, device.snapstore.pool, device.snapstore.pool.Repr
      reads device.storeBlockMap, device.storeBlockMap.Repr
      reads dioQueue, inProcess, tracker.cbtMap, device.origBlkDev, device.snapstore.blkDev
    {
      && s.eng == device.State() && s.waiting == dioQueue.items && s.inProcess == inProcess.items
      && s.stopping == stopping
      && (dioQueue.activeState <==> !s.phase.Draining? && !s.phase.Done?) && Emptied(s)
    }

    /** `defer_io_create`, for the snapstore device found. */
    constructor (device: SnapstoreDevice, tracker: CbtTracker)
      requires device.Valid() && tracker.Valid() && tracker.targetDev == device.origBlkDev
      requires {tracker, tracker.cbtMap} !! device.snapstore.pool.Repr
      requires {tracker, tracker.cbtMap} !! device.storeBlockMap.Repr
      requires forall p | p in tracker.cbtMap.readMap.pages ::
                 p !in device.snapstore.pool.Repr && p !in device.storeBlockMap.Repr
      requires forall p | p in tracker.cbtMap.writeMap.pages ::
                 p !in device.snapstore.pool.Repr && p !in device.storeBlockMap.Repr
      ensures Sane() && Linked(Start(device.State()))
      ensures this.device == device && this.tracker == tracker
      ensures fresh(dioQueue) && fresh(inProcess)
    {
      ghost var e := device.State();
      this.device, this.tracker := device, tracker;
      dioQueue := new Queue<Bio>();
      inProcess := new Queue<Bio>();
      stopping, biosReceived, biosProcessed := false, 0, 0;
      new;
      assert device.State() == e;
    }

    /** `defer_io_redirect_bio`: queue a bio unless the snapshot is corrupted or the queue inactive. */
    method RedirectBio(bio: Bio) returns (res: Status)
      requires Sane() && OnDevice(|device.origBlkDev.data|, bio)
      modifies `biosReceived, device`reqFailedCnt, dioQueue
      ensures Sane() && dioQueue.activeState == old(dioQueue.activeState)
      ensures res == if device.corrupted then ENoData else if !dioQueue.activeState then EFault else Success
      ensures device.State() == Tested(old(device.State()))
      ensures dioQueue.items == if res == Success then old(dioQueue.items) + [bio] else old(dioQueue.items)
    {
      var bad := device.IsCorrupted();
      if bad { return ENoData; }
      ghost var e := device.State();
      var st := dioQueue.PushBack(bio);
      assert device.State() == e;
      if st != Success { return EFault; }
      biosReceived := biosReceived + 1;
      res := Success;
    }

    /** Move the first waiting bio into the batch. */
    method TakeBio() returns (bio: Bio)
      requires Sane() && dioQueue.items != []
      modifies dioQueue, inProcess
      ensures Sane() && device.State() == old(device.State()) && dioQueue.activeState == old(dioQueue.activeState)
      ensures bio == old(dioQueue.items)[0] && OnDevice(|device.origBlkDev.data|, bio)
      ensures dioQueue.items == old(dioQueue.items)[1..] && inProcess.items == old(inProcess.items) + [bio]
    {
      ghost var e := device.State();
      var first := dioQueue.GetFirst();
      bio := first.value;
      var res := inProcess.PushBack(bio);
      assert device.State() == e;
    }

    /** The blocks of a write join the request. */
    method PrepareWrite(req0: seq<Dio>, ofs: nat, cnt: nat) returns (req: seq<Dio>, st: Status)
      requires Sane() && cnt > 0
      modifies device, device.snapstore, device.snapstore.pool`takeCnt, device.storeBlockMap, device.storeBlockMap.Repr
      ensures Sane() && fresh(device.storeBlockMap.Repr - old(device.storeBlockMap.Repr))
      ensures (device.State(), req, st) == Prepare(old(device.State()), req0, ofs, cnt, map[])
    {
      req, st := device.PrepareRequests(req0, ofs, cnt);
      assert Apart();
    }

    /** The copying part of one turn: unless stopping or corrupted, the blocks of a write join the request. */
    method PrepareBio(bio: Bio, req0: seq<Dio>) returns (req: seq<Dio>, st: Status, sectors: nat)
      requires Sane() && OnDevice(|device.origBlkDev.data|, bio)
      modifies device, device.snapstore, device.snapstore.pool`takeCnt, device.storeBlockMap, device.storeBlockMap.Repr
      ensures Sane() && fresh(device.storeBlockMap.Repr - old(device.storeBlockMap.Repr))
      ensures var e := old(device.State());
              (device.State(), req, st, sectors) == PreparedBio(e, stopping, req0, bio)
    {
      req, st, sectors := req0, Success, 0;
      if stopping { return; }
      var bad := device.IsCorrupted();
      if bad { return; }
      if bio.Write? {
        req, st := PrepareWrite(req0, bio.ofs, |bio.data|);
        if st == Success {
          sectors := |bio.data|;
        }
      }
    }

    /** The same, with the machine state `s1` that a `Pop` leads to from `s`. */
    method PrepareStep(bio: Bio, req0: seq<Dio>, ghost s: State, ghost reach: State -> bool)
      returns (req: seq<Dio>, st: Status, sectors: nat, ghost s1: State)
      requires Sane() && OnDevice(|device.origBlkDev.data|, bio)
      requires RoomLeft(s) && bio == s.waiting[0] && s.eng == device.State() && s.req == req0 && s.stopping == stopping
      requires Stays(reach, Pop(map[])) && reach(s)
      modifies device, device.snapstore, device.snapstore.pool`takeCnt, device.storeBlockMap, device.storeBlockMap.Repr
      ensures Sane() && fresh(device.storeBlockMap.Repr - old(device.storeBlockMap.Repr))
      ensures reach(s1) && s1.eng == device.State() && s1.req == req && s1.stopping == s.stopping
      ensures s1.waiting == s.waiting[1..] && s1.inProcess == s.inProcess + [bio]
      ensures s1.phase == if st == Success then Preparing(s.phase.bios + 1, s.phase.sectors + sectors) else Finishing
    {
      req, st, sectors := PrepareBio(bio, req0);
      s1 := AfterPop(s, bio, device.State(), req, st, sectors, reach);
    }

    /** One turn of `_defer_io_copy_prepare`: one `Pop` of the machine. */
    method PopBio(req0: seq<Dio>, ghost s: State, ghost reach: State -> bool)
      returns (req: seq<Dio>, st: Status, sectors: nat, ghost s1: State)
      requires Sane() && Linked(s) && RoomLeft(s) && s.req == req0 && Stays(reach, Pop(map[])) && reach(s)
      modifies dioQueue, inProcess
      modifies device, device.snapstore, device.snapstore.pool`takeCnt, device.storeBlockMap, device.storeBlockMap.Repr
      ensures Sane() && Linked(s1) && reach(s1) && s1.req == req
      ensures fresh(device.storeBlockMap.Repr - old(device.storeBlockMap.Repr))
      ensures s1.phase == if st == Success then Preparing(s.phase.bios + 1, s.phase.sectors + sectors) else Finishing
      ensures |s1.waiting| == |s.waiting| - 1
    {
      var bio := TakeBio();
      req, st, sectors, s1 := PrepareStep(bio, req0, s, reach);
    }

    /** `_defer_io_copy_prepare`: take bios until the batch is full or the queue empty. */
    method CopyPrepare(ghost s: State, ghost reach: State -> bool) returns (req: seq<Dio>, res: Status, ghost s1: State)
      requires Sane() && Linked(s) && s.phase == Preparing(0, 0) && s.req == [] && Stays(reach, Pop(map[])) && reach(s)
      modifies dioQueue, inProcess
      modifies device, device.snapstore, device.snapstore.pool`takeCnt, device.storeBlockMap, device.storeBlockMap.Repr
      ensures Sane() && Linked(s1) && reach(s1) && s1.req == req
      ensures fresh(device.storeBlockMap.Repr - old(device.storeBlockMap.Repr))
      ensures if res == Success then s1.phase.Preparing? && !RoomLeft(s1) else s1.phase.Finishing?
      ensures s.waiting != [] ==> |s1.waiting| < |s.waiting|
      ensures |s.waiting| - |s1.waiting| <= 250
      ensures res == Success ==>
                s1.waiting == [] || |s.waiting| - |s1.waiting| == 250 || s1.phase.sectors >= 20480
    {
      ghost var diosCount, diosSectors;
      req, res, diosCount, diosSectors, s1 := FillBatch(s, reach);
    }

    /** The loop; `diosCount` and `diosSectors` are what it counted before it stopped. */
    method FillBatch(ghost s: State, ghost reach: State -> bool)
      returns (req: seq<Dio>, res: Status, diosCount: nat, diosSectors: nat, ghost s1: State)
      requires Sane() && Linked(s) && s.phase == Preparing(0, 0) && s.req == [] && Stays(reach, Pop(map[])) && reach(s)
      modifies dioQueue, inProcess
      modifies device, device.snapstore, device.snapstore.pool`takeCnt, device.storeBlockMap, device.storeBlockMap.Repr
      ensures Sane() && Linked(s1) && reach(s1) && s1.req == req
      ensures fresh(device.storeBlockMap.Repr - old(device.storeBlockMap.Repr))
      ensures res != Success ==> s1.phase.Finishing? && |s1.waiting| + diosCount + 1 == |s.waiting| && diosCount < 250
      ensures res == Success ==>
                && s1.phase == Preparing(diosCount, diosSectors) && |s1.waiting| + diosCount == |s.waiting|
                && !RoomLeft(s1) && diosCount <= 250 && (diosSectors > 0 ==> diosCount > 0)
    {
      req, res, diosCount, diosSectors, s1 := [], Success, 0, 0, s;
      while dioQueue.items != [] && diosCount < BATCH_BIOS && diosSectors < BATCH_SECTORS
        invariant Sane() && Linked(s1) && reach(s1) && s1.req == req && res == Success && diosCount <= 250
        invariant s1.phase == Preparing(diosCount, diosSectors) && |s1.waiting| + diosCount == |s.waiting|
        invariant diosSectors > 0 ==> diosCount > 0
        invariant fresh(device.storeBlockMap.Repr - old(device.storeBlockMap.Repr))
        decreases |s1.waiting|
      {
        var more;
        req, res, more, s1 := PopBio(req, s1, reach);
        if res != Success { return; }
        diosCount, diosSectors := diosCount + 1, diosSectors + more;
      }
    }

    /** The copying of a batch. */
    method CopyBatch(req: seq<Dio>, readRooms: nat -> BioRoom, storeRooms: nat -> BioRoom, f: Faults,
        ghost s: State, ghost reach: State -> bool)
      returns (res: Status, ghost s1: State)
      requires Sane() && Linked(s) && s.phase.Copying? && s.req == req && reach(s)
      requires CopyStays(reach, f, SnapstoreDevice.Roomy(readRooms)) && SnapstoreDevice.Roomy(storeRooms)
      requires WellFormed(device.State()) && ReqOk(device.State(), req)
      modifies device, device.snapstore.blkDev
      ensures Sane() && Linked(s1) && reach(s1) && s1.phase == Finishing && s1.waiting == s.waiting
      ensures f.readOk && f.storeOk && SnapstoreDevice.Roomy(readRooms) && C.AllWhole(device.State(), req) ==>
                res == Success
      ensures res == Success ==>
                device.corrupted == old(device.corrupted) && C.KeepsAll(old(device.State()), device.State(), req)
    {
      ghost var g;
      res, g := device.CopyOut(req, readRooms, storeRooms, f);
      s1 := AfterCopy(s, g, device.State(), res, reach);
    }

    /** Mark a bio's sectors if it writes, and pass it on to the device. */
    method PassOn(bio: Bio)
      requires Apart() && device.Valid() && tracker.Valid() && OnDevice(|device.origBlkDev.data|, bio)
      modifies tracker, device.origBlkDev, tracker.cbtMap, tracker.cbtMap.writeMap.pages
      ensures device.Valid() && tracker.Valid()
      ensures device.State() == var e := old(device.State()); e.(orig := Apply(e.orig, bio))
      ensures tracker.Track() == Noted(old(tracker.Track()), bio)
    {
      ghost var chunks, blocks := device.snapstore.pool.Chunks(), device.storeBlockMap.Map();
      tracker.Issue(bio, if bio.Write? then bio.ofs else 0, if bio.Write? then |bio.data| else 0);
      assert device.snapstore.pool.Valid() && device.storeBlockMap.Valid();
      assert device.snapstore.pool.Chunks() == chunks && device.storeBlockMap.Map() == blocks;
    }

    /** Pass a bio on, and count it. */
    method IssueBio(bio: Bio)
      requires Sane() && OnDevice(|device.origBlkDev.data|, bio)
      modifies `biosProcessed, tracker, device.origBlkDev, tracker.cbtMap, tracker.cbtMap.writeMap.pages
      ensures Sane() && device.State() == var e := old(device.State()); e.(orig := Apply(e.orig, bio))
      ensures tracker.Track() == Noted(old(tracker.Track()), bio)
    {
      PassOn(bio);
      ghost var track := tracker.Track();
      biosProcessed := biosProcessed + 1;
      assert tracker.Track() == track;
    }

    /** One turn of `_defer_io_finish` over a queue. */
    method IssueFirst(queue: Queue<Bio>) returns (bio: Bio)
      requires Sane() && (queue == dioQueue || queue == inProcess) && queue.items != []
      modifies `biosProcessed, queue, tracker, device.origBlkDev, tracker.cbtMap, tracker.cbtMap.writeMap.pages
      ensures Sane() && bio == old(queue.items)[0] && queue.items == old(queue.items)[1..]
      ensures queue.activeState == old(queue.activeState) && OnDevice(|old(device.origBlkDev.data)|, bio)
      ensures device.State() == var e := old(device.State()); e.(orig := Apply(e.orig, bio))
      ensures tracker.Track() == Noted(old(tracker.Track()), bio)
    {
      bio := Unqueue(queue);
      IssueBio(bio);
    }

    /** Take the first bio off a queue. */
    method Unqueue(queue: Queue<Bio>) returns (bio: Bio)
      requires Sane() && (queue == dioQueue || queue == inProcess) && queue.items != []
      modifies queue
      ensures Sane() && bio == old(queue.items)[0] && queue.items == old(queue.items)[1..]
      ensures queue.activeState == old(queue.activeState) && OnDevice(|device.origBlkDev.data|, bio)
      ensures device.State() == old(device.State()) && tracker.Track() == old(tracker.Track())
    {
      ghost var e, track := device.State(), tracker.Track();
      var first := queue.GetFirst();
      assert device.State() == e && tracker.Track() == track;
      bio := first.value;
    }

    /** One turn of `_defer_io_finish` over the batch. */
    method FinishOne(ghost s: State, ghost reach: State -> bool, ghost tracks: T.Track -> bool)
      returns (ghost s1: State)
      requires Sane() && Linked(s) && s.phase.Finishing? && inProcess.items != [] && Stays(reach, Issue) && reach(s)
      requires ClosedTracks(tracks) && tracks(tracker.Track())
      modifies `biosProcessed, inProcess, tracker, device.origBlkDev, tracker.cbtMap, tracker.cbtMap.writeMap.pages
      ensures Sane() && Linked(s1) && reach(s1) && s1.phase.Finishing? && s1.waiting == s.waiting
      ensures |inProcess.items| < |old(inProcess.items)| && tracks(tracker.Track())
    {
      ghost var track := tracker.Track();
      var bio := IssueFirst(inProcess);
      NotedStays(tracks, track, bio);
      s1 := AfterIssue(s, reach);
    }

    /** `_defer_io_finish` for the batch. */
    method FinishBatch(ghost s: State, ghost reach: State -> bool, ghost tracks: T.Track -> bool)
      returns (ghost s1: State)
      requires Sane() && Linked(s) && s.phase.Finishing? && Stays(reach, Issue) && Stays(reach, EndBatch) && reach(s)
      requires ClosedTracks(tracks) && tracks(tracker.Track())
      modifies `biosProcessed, inProcess, tracker, device.origBlkDev, tracker.cbtMap, tracker.cbtMap.writeMap.pages
      ensures Sane() && Linked(s1) && reach(s1) && s1.phase.Idle? && s1.inProcess == [] && s1.waiting == s.waiting
      ensures tracks(tracker.Track()) && device.storeBlockMap.Repr == old(device.storeBlockMap.Repr)
    {
      s1 := s;
      while inProcess.items != []
        invariant Sane() && Linked(s1) && reach(s1) && s1.phase.Finishing? && s1.waiting == s.waiting
        invariant tracks(tracker.Track())
        decreases |inProcess.items|
      {
        s1 := FinishOne(s1, reach, tracks);
      }
      s1 := AfterMove(s1, EndBatch, reach);
    }

    /** One turn of `_defer_io_finish` over the inactive queue. */
    method DrainOne(ghost s: State, ghost reach: State -> bool, ghost tracks: T.Track -> bool) returns (ghost s1: State)
      requires Sane() && Linked(s) && s.phase.Draining? && dioQueue.items != [] && Stays(reach, Event.Drain) && reach(s)
      requires ClosedTracks(tracks) && tracks(tracker.Track())
      modifies `biosProcessed, dioQueue, tracker, device.origBlkDev, tracker.cbtMap, tracker.cbtMap.writeMap.pages
      ensures Sane() && Linked(s1) && reach(s1) && s1.phase.Draining?
      ensures |dioQueue.items| < |old(dioQueue.items)| && tracks(tracker.Track())
    {
      ghost var track := tracker.Track();
      var bio := IssueFirst(dioQueue);
      NotedStays(tracks, track, bio);
      s1 := AfterDrain(s, reach);
    }

    /** `_defer_io_finish` for what is left in the queue once it is inactive. */
    method Drain(ghost s: State, ghost reach: State -> bool, ghost tracks: T.Track -> bool) returns (ghost s1: State)
      requires Sane() && Linked(s) && s.phase.Draining? && Stays(reach, Event.Drain) && Stays(reach, Finish) && reach(s)
      requires ClosedTracks(tracks) && tracks(tracker.Track())
      modifies `biosProcessed, dioQueue, tracker, device.origBlkDev, tracker.cbtMap, tracker.cbtMap.writeMap.pages
      ensures Sane() && Linked(s1) && reach(s1) && s1.phase.Done? && dioQueue.items == [] && tracks(tracker.Track())
    {
      s1 := s;
      while dioQueue.items != []
        invariant Sane() && Linked(s1) && reach(s1) && s1.phase.Draining? && tracks(tracker.Track())
        decreases |dioQueue.items|
      {
        s1 := DrainOne(s1, reach, tracks);
      }
      s1 := AfterMove(s1, Finish, reach);
    }

    /** A prepared batch is copied if it needs any block. */
    method CopyPrepared(req: seq<Dio>, readRooms: nat -> BioRoom, storeRooms: nat -> BioRoom, f: Faults,
        ghost s: State, ghost reach: State -> bool)
      returns (ghost s1: State)
      requires Sane() && Linked(s) && s.phase.Preparing? && !RoomLeft(s) && s.req == req
      requires SnapstoreDevice.Roomy(storeRooms) && Stays(reach, EndPrepare) && reach(s) && CopiesSafely(reach)
      requires CopyStays(reach, f, SnapstoreDevice.Roomy(readRooms))
      modifies device, device.snapstore.blkDev
      ensures Sane() && Linked(s1) && reach(s1) && s1.phase.Finishing? && s1.waiting == s.waiting
    {
      s1 := AfterEndPrepare(s, reach);
      if req != [] {
        SafeToCopy(s1, reach);
        var res;
        res, s1 := CopyBatch(req, readRooms, storeRooms, f, s1, reach);
      }
    }

    /** The first half of a batch: prepare and copy.  Nothing but the copying can go wrong. */
    method PrepareAndCopy(readRooms: nat -> BioRoom, storeRooms: nat -> BioRoom, f: Faults,
        ghost s: State, ghost reach: State -> bool)
      returns (ghost s1: State)
      requires Sane() && Linked(s) && s.phase == Preparing(0, 0) && s.req == [] && SnapstoreDevice.Roomy(storeRooms)
      requires BatchStays(reach, f, SnapstoreDevice.Roomy(readRooms)) && reach(s) && CopiesSafely(reach)
      modifies dioQueue, inProcess
      modifies device, device.snapstore, device.snapstore.blkDev, device.snapstore.pool`takeCnt
      modifies device.storeBlockMap, device.storeBlockMap.Repr
      ensures Sane() && Linked(s1) && reach(s1) && s1.phase.Finishing?
      ensures s.waiting != [] ==> |s1.waiting| < |s.waiting|
      ensures fresh(device.storeBlockMap.Repr - old(device.storeBlockMap.Repr))
      ensures Well(s) && H.HealthyIo(f) && SnapstoreDevice.Roomy(readRooms) ==>
                && Well(s1) && !device.corrupted && SameImage(s.eng, device.State())
                && AllCovered(device.State(), inProcess.items)
    {
      ghost var roomy := SnapstoreDevice.Roomy(readRooms);
      ghost var within := BatchWithin(s, reach, H.HealthyIo(f) && roomy, f, roomy);
      s1 := PrepareThenCopy(readRooms, storeRooms, f, s, within);
      CopyingDone(s, s1, H.HealthyIo(f) && roomy);
    }

    /** The same, taken as steps alone. */
    method PrepareThenCopy(readRooms: nat -> BioRoom, storeRooms: nat -> BioRoom, f: Faults,
        ghost s: State, ghost reach: State -> bool)
      returns (ghost s1: State)
      requires Sane() && Linked(s) && s.phase == Preparing(0, 0) && s.req == [] && SnapstoreDevice.Roomy(storeRooms)
      requires BatchStays(reach, f, SnapstoreDevice.Roomy(readRooms)) && reach(s) && CopiesSafely(reach)
      modifies dioQueue, inProcess
      modifies device, device.snapstore, device.snapstore.blkDev, device.snapstore.pool`takeCnt
      modifies device.storeBlockMap, device.storeBlockMap.Repr
      ensures Sane() && Linked(s1) && reach(s1) && s1.phase.Finishing?
      ensures s.waiting != [] ==> |s1.waiting| < |s.waiting|
      ensures fresh(device.storeBlockMap.Repr - old(device.storeBlockMap.Repr))
    {
      var req, res;
      req, res, s1 := CopyPrepare(s, reach);
      if res == Success {
        s1 := CopyPrepared(req, readRooms, storeRooms, f, s1, reach);
      }
    }

    /** The same; it leaves the tracker alone. */
    method FillAndCopy(readRooms: nat -> BioRoom, storeRooms: nat -> BioRoom, f: Faults,
        ghost s: State, ghost reach: State -> bool)
      returns (ghost s1: State)
      requires Sane() && Linked(s) && s.phase.Idle? && dioQueue.items != [] && SnapstoreDevice.Roomy(storeRooms)
      requires BatchStays(reach, f, SnapstoreDevice.Roomy(readRooms)) && reach(s) && CopiesSafely(reach)
      modifies dioQueue, inProcess
      modifies device, device.snapstore, device.snapstore.blkDev, device.snapstore.pool`takeCnt
      modifies device.storeBlockMap, device.storeBlockMap.Repr
      ensures Sane() && Linked(s1) && reach(s1) && s1.phase.Finishing? && |s1.waiting| < |s.waiting|
      ensures fresh(device.storeBlockMap.Repr - old(device.storeBlockMap.Repr))
      ensures tracker.Track() == old(tracker.Track())
    {
      ghost var track := tracker.Track();
      s1 := AfterMove(s, Begin, reach);
      s1 := PrepareAndCopy(readRooms, storeRooms, f, s1, reach);
      assert tracker.Track() == track;
    }

    /** One turn of `defer_io_work_thread` with bios waiting: prepare, copy, issue; it ends with an empty batch. */
    method WorkBatch(readRooms: nat -> BioRoom, storeRooms: nat -> BioRoom, f: Faults,
        ghost s: State, ghost reach: State -> bool, ghost tracks: T.Track -> bool)
      returns (ghost s1: State)
      requires Sane() && Linked(s) && s.phase.Idle? && dioQueue.items != [] && SnapstoreDevice.Roomy(storeRooms)
      requires BatchStays(reach, f, SnapstoreDevice.Roomy(readRooms)) && reach(s) && CopiesSafely(reach)
      requires ClosedTracks(tracks) && tracks(tracker.Track())
      modifies `biosProcessed, dioQueue, inProcess
      modifies device, device.snapstore, device.snapstore.blkDev, device.snapstore.pool`takeCnt
      modifies device.storeBlockMap, device.storeBlockMap.Repr
      modifies tracker, device.origBlkDev, tracker.cbtMap, tracker.cbtMap.writeMap.pages
      ensures Sane() && Linked(s1) && reach(s1) && s1.phase.Idle? && s1.inProcess == [] && |s1.waiting| < |s.waiting|
      ensures fresh(device.storeBlockMap.Repr - old(device.storeBlockMap.Repr)) && tracks(tracker.Track())
      ensures IssuedFirst(s.eng.orig, s.waiting, device.origBlkDev.data, dioQueue.items)
      ensures Well(s) && H.HealthyIo(f) && SnapstoreDevice.Roomy(readRooms) ==>
                Well(s1) && !device.corrupted && SameImage(s.eng, device.State())
    {
      ghost var roomy := SnapstoreDevice.Roomy(readRooms);
      ghost var within := BatchWithin(s, reach, H.HealthyIo(f) && roomy, f, roomy);
      s1 := Batch(readRooms, storeRooms, f, s, within, tracks);
      BatchDone(s, s1, H.HealthyIo(f) && roomy);
      assert dioQueue.items == s1.waiting && device.State() == s1.eng;
    }

    /** The same, taken as steps alone. */
    method Batch(readRooms: nat -> BioRoom, storeRooms: nat -> BioRoom, f: Faults,
        ghost s: State, ghost reach: State -> bool, ghost tracks: T.Track -> bool)
      returns (ghost s1: State)
      requires Sane() && Linked(s) && s.phase.Idle? && dioQueue.items != [] && SnapstoreDevice.Roomy(storeRooms)
      requires BatchStays(reach, f, SnapstoreDevice.Roomy(readRooms)) && reach(s) && CopiesSafely(reach)
      requires ClosedTracks(tracks) && tracks(tracker.Track())
      modifies `biosProcessed, dioQueue, inProcess
      modifies device, device.snapstore, device.snapstore.blkDev, device.snapstore.pool`takeCnt
      modifies device.storeBlockMap, device.storeBlockMap.Repr
      modifies tracker, device.origBlkDev, tracker.cbtMap, tracker.cbtMap.writeMap.pages
      ensures Sane() && Linked(s1) && reach(s1) && s1.phase.Idle? && s1.inProcess == [] && |s1.waiting| < |s.waiting|
      ensures fresh(device.storeBlockMap.Repr - old(device.storeBlockMap.Repr)) && tracks(tracker.Track())
    {
      s1 := FillAndCopy(readRooms, storeRooms, f, s, reach);
      s1 := FinishBatch(s1, reach, tracks);
    }

    /** The end of `defer_io_work_thread`: the loop is left, the queue closed and drained. */
    method StopWork(ghost s: State, ghost reach: State -> bool, ghost tracks: T.Track -> bool) returns (ghost s1: State)
      requires Sane() && Linked(s) && s.phase.Idle? && stopping && dioQueue.items == [] && EndStays(reach) && reach(s)
      requires ClosedTracks(tracks) && tracks(tracker.Track())
      modifies `biosProcessed, dioQueue, tracker, device.origBlkDev, tracker.cbtMap, tracker.cbtMap.writeMap.pages
      ensures Sane() && Linked(s1) && reach(s1) && s1.phase.Done? && dioQueue.items == [] && !dioQueue.activeState
      ensures tracks(tracker.Track())
    {
      s1 := AfterMove(s, Exit, reach);
      s1 := AfterMove(s1, Deactivate, reach);
      CloseQueue();
      s1 := Drain(s1, reach, tracks);
    }

    /** Bios are refused from here on. */
    method CloseQueue()
      requires Sane()
      modifies dioQueue
      ensures Sane() && !dioQueue.activeState && dioQueue.items == old(dioQueue.items)
      ensures device.State() == old(device.State()) && tracker.Track() == old(tracker.Track())
    {
      ghost var e, track := device.State(), tracker.Track();
      var was := dioQueue.SetActive(false);
      assert device.State() == e && tracker.Track() == track;
    }

    /** Tell the worker to stop. */
    method Stop(ghost s: State, ghost reach: State -> bool) returns (ghost s1: State)
      requires Sane() && Linked(s) && Stays(reach, Event.Stop) && reach(s)
      modifies `stopping
      ensures Sane() && Linked(s1) && reach(s1) && s1 == s.(stopping := true)
      ensures tracker.Track() == old(tracker.Track())
    {
      ghost var track := tracker.Track();
      stopping := true;
      s1 := AfterFlag(s, Event.Stop, reach);
      assert tracker.Track() == track;
    }

    /** The worker's last turns: batches while bios wait, then the end. */
    method WorkToTheEnd(readRooms: nat -> BioRoom, storeRooms: nat -> BioRoom, faults: nat -> Faults,
        ghost s: State, ghost reach: State -> bool, ghost tracks: T.Track -> bool)
      returns (ghost s1: State)
      requires Sane() && Linked(s) && s.phase.Idle? && stopping && SnapstoreDevice.Roomy(storeRooms)
      requires forall turn: nat :: BatchStays(reach, faults(turn), SnapstoreDevice.Roomy(readRooms))
      requires EndStays(reach) && reach(s) && CopiesSafely(reach)
      requires ClosedTracks(tracks) && tracks(tracker.Track())
      modifies `biosProcessed, dioQueue, inProcess
      modifies device, device.snapstore, device.snapstore.blkDev, device.snapstore.pool`takeCnt
      modifies device.storeBlockMap, device.storeBlockMap.Repr
      modifies tracker, device.origBlkDev, tracker.cbtMap, tracker.cbtMap.writeMap.pages
      ensures Sane() && Linked(s1) && reach(s1) && s1.phase.Done? && dioQueue.items == [] && !dioQueue.activeState
      ensures device.origBlkDev.data == ApplyAll(s.eng.orig, s.waiting)
      ensures tracks(tracker.Track())
    {
      ghost var within := Within(s, reach, false);
      WithinStarts(s, reach, false);
      WithinBatch(s, reach, false, faults(0), SnapstoreDevice.Roomy(readRooms));
      forall turn: nat
        ensures BatchStays(within, faults(turn), SnapstoreDevice.Roomy(readRooms))
      {
        WithinBatch(s, reach, false, faults(turn), SnapstoreDevice.Roomy(readRooms));
      }
      s1 := Batches(readRooms, storeRooms, faults, s, within, tracks);
      WithinEnd(s, reach);
      s1 := StopWork(s1, within, tracks);
      EndDone(s, s1);
    }

    /** Batches while bios wait. */
    method Batches(readRooms: nat -> BioRoom, storeRooms: nat -> BioRoom, faults: nat -> Faults,
        ghost s: State, ghost reach: State -> bool, ghost tracks: T.Track -> bool)
      returns (ghost s1: State)
      requires Sane() && Linked(s) && s.phase.Idle? && SnapstoreDevice.Roomy(storeRooms)
      requires forall turn: nat :: BatchStays(reach, faults(turn), SnapstoreDevice.Roomy(readRooms))
      requires reach(s) && CopiesSafely(reach) && ClosedTracks(tracks) && tracks(tracker.Track())
      modifies `biosProcessed, dioQueue, inProcess
      modifies device, device.snapstore, device.snapstore.blkDev, device.snapstore.pool`takeCnt
      modifies device.storeBlockMap, device.storeBlockMap.Repr
      modifies tracker, device.origBlkDev, tracker.cbtMap, tracker.cbtMap.writeMap.pages
      ensures Sane() && Linked(s1) && reach(s1) && s1.phase.Idle? && dioQueue.items == [] && tracks(tracker.Track())
    {
      s1 := s;
      var turn: nat := 0;
      while dioQueue.items != []
        invariant Sane() && Linked(s1) && reach(s1) && s1.phase.Idle? && tracks(tracker.Track())
        invariant fresh(device.storeBlockMap.Repr - old(device.storeBlockMap.Repr))
        decreases |s1.waiting|
      {
        s1 := Batch(readRooms, storeRooms, faults(turn), s1, reach, tracks);
        turn := turn + 1;
      }
    }

    /** `defer_io_stop`: the worker is told to stop and waited for. */
    method StopAndWait(readRooms: nat -> BioRoom, storeRooms: nat -> BioRoom, faults: nat -> Faults,
        ghost s: State, ghost reach: State -> bool, ghost tracks: T.Track -> bool)
      returns (ghost s1: State)
      requires Sane() && Linked(s) && s.phase.Idle? && SnapstoreDevice.Roomy(storeRooms)
      requires forall turn: nat :: BatchStays(reach, faults(turn), SnapstoreDevice.Roomy(readRooms))
      requires EndStays(reach) && reach(s) && Stays(reach, Event.Stop) && CopiesSafely(reach)
      requires ClosedTracks(tracks) && tracks(tracker.Track())
      modifies this, dioQueue, inProcess
      modifies device, device.snapstore, device.snapstore.blkDev, device.snapstore.pool`takeCnt
      modifies device.storeBlockMap, device.storeBlockMap.Repr
      modifies tracker, device.origBlkDev, tracker.cbtMap, tracker.cbtMap.writeMap.pages
      ensures Sane() && Linked(s1) && reach(s1) && s1.phase.Done? && s1.waiting == [] && tracks(tracker.Track())
      ensures device.origBlkDev.data == ApplyAll(s.eng.orig, s.waiting)
    {
      s1 := Stop(s, reach);
      s1 := WorkToTheEnd(readRooms, storeRooms, faults, s1, reach, tracks);
    }
  }
}
