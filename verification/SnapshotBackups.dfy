/**
 * Snapshots and changed-block tracking of one device together: the two machines see the same bios, so
 * backups put together from image reads are the images.
 */
module SnapshotBackups {
  import opened Basics
  import opened CowEngine
  import opened SnapshotMachine
  import opened SnapshotProofs
  import opened SnapshotTheorems
  import C = CbtMap
  import T = CbtTracking

  /** The tracker of a device, and the snapshot it holds, if any. */
  datatype Pair = Pair(t: T.Track, snap: Option<State>)

  datatype Act =
    | Free(free: T.Event)        // no snapshot is held
    | Defer(start: State)        // a capture begins to defer bios
    | CloseEpoch(newGen: C.Uuid) // and closes the epoch
    | Ran(ev: Event)             // a step of the snapshot
    | Marked(ofs: nat, cnt: nat) // blocks marked by request
    | Forget                     // the worker is done

  function Tracked(bio: Bio): Option<T.Event> {
    if bio.Write? then Some(T.Write(bio.ofs, bio.data)) else None
  }

  /**
   * What the tracker sees of a step: writes on their way to the device, the marking of an image write
   * that passed the test of the flag, and the image write once it is done.
   */
  function SeenOf(s: State, ev: Event): Option<T.Event> {
    match ev
    case Submit(bio, late) => if Refused(s, late) then Tracked(bio) else None
    case Issue => if s.inProcess != [] then Tracked(s.inProcess[0]) else None
    case Drain => if s.waiting != [] then Tracked(s.waiting[0]) else None
    case ImageAsk(io) => if io.Write? && !s.eng.corrupted then Some(T.Dirty(io.ofs, |io.data|)) else None
    case ImagePut(sent) =>
      if s.img.Cowed? && sent && AllMapped(s.eng, s.img.ofs, |s.img.data|)
      then Some(T.ImageWrite(s.img.ofs, s.img.data)) else None
    case _ => None
  }

  function Seen(p: Pair, act: Act): Option<T.Event> {
    match act
    case Free(ev) => Some(ev)
    case Defer(start) => Some(T.Freeze)
    case CloseEpoch(newGen) => Some(T.Close(newGen))
    case Ran(ev) => if p.snap.Some? then SeenOf(p.snap.value, ev) else None
    case Marked(ofs, cnt) => Some(T.Dirty(ofs, cnt))
    case Forget => None
  }

  /**
   * The device does not change its size while a snapshot is held, and the image is there once the
   * capture is complete.
   */
  ghost predicate May(p: Pair, act: Act) {
    && (Seen(p, act).Some? ==> T.Possible(p.t, Seen(p, act).value))
    && match act
       case Free(ev) => p.snap.None? && (ev.Write? || ev.Dirty? || ev.Check? || ev.Extend?)
       case Defer(start) => p.snap.None? && Captured(start) && start.eng.orig == p.t.dev
       case CloseEpoch(newGen) => p.snap.Some?
       case Ran(ev) => p.snap.Some? && Enabled(p.snap.value, ev) && (ev.ImageAsk? ==> p.t.frozen.None?)
       case Marked(ofs, cnt) => true
       case Forget =>
         p.snap.Some? && p.snap.value.phase.Done? && !p.snap.value.captured && p.snap.value.img.Quiet?
         && p.t.frozen.None?
  }

  ghost function Do(p: Pair, act: Act): Pair
    requires May(p, act)
  {
    var t1 := if Seen(p, act).Some? then T.Step(p.t, Seen(p, act).value) else p.t;
    match act
    case Defer(start) => Pair(t1, Some(start))
    case Ran(ev) => Pair(t1, Some(Step(p.snap.value, ev)))
    case Forget => Pair(t1, None)
    case _ => Pair(t1, p.snap)
  }

  ghost predicate MayAll(p: Pair, acts: seq<Act>)
    decreases |acts|
  {
    acts == [] || (May(p, acts[0]) && MayAll(Do(p, acts[0]), acts[1..]))
  }

  ghost function DoAll(p: Pair, acts: seq<Act>): Pair
    requires MayAll(p, acts)
    decreases |acts|
  {
    if acts == [] then p else DoAll(Do(p, acts[0]), acts[1..])
  }

  // ---- what every run keeps ----

  /** The tracker's device is the snapshot's, and the image it knows is the snapshot's image. */
  ghost predicate Agree(p: Pair) {
    && (p.snap.None? ==> p.t.frozen.None?)
    && (p.snap.Some? ==>
          var s := p.snap.value;
          && Inv(s) && s.eng.orig == p.t.dev
          && Image(s) == (if p.t.frozen.Some? then p.t.frozen.value else p.t.view)
          && (p.t.frozen.Some? ==> s.img.Quiet?))
  }

  /** What the tracker has to see is always something it can see. */
  lemma SeenIsPossible(p: Pair, ev: Event)
    requires Agree(p) && p.snap.Some? && Enabled(p.snap.value, ev) && SeenOf(p.snap.value, ev).Some?
    ensures T.Possible(p.t, SeenOf(p.snap.value, ev).value)
  {
    var s := p.snap.value;
    assert Shape(s);
    match ev
    case Issue => assert s.inProcess[0] in s.inProcess;
    case Drain => assert s.waiting[0] in s.waiting;
    case _ =>
  }

  /** The tracker sees just the writes that reach the device. */
  lemma SeenReachesDevice(s: State, ev: Event)
    requires Enabled(s, ev) && EngineOk(s)
    ensures var seen := SeenOf(s, ev);
            Step(s, ev).eng.orig == if seen.Some? && seen.value.Write?
                                    then Overwrite(s.eng.orig, seen.value.ofs, seen.value.data) else s.eng.orig
  {
    match ev
    case Pop(gaps) => PopEngine(s, gaps);
    case Copy(f) => CopyOutKeeps(s.eng, s.req, f);
    case ImageCow(f, gaps) => CowKeeps(s.eng, s.img.ofs, |s.img.data|, f, gaps);
    case Submit(bio, late) => SubmitReachesDevice(s, bio, late);
    case _ =>
  }

  lemma SubmitReachesDevice(s: State, bio: Bio, late: bool)
    requires Enabled(s, Submit(bio, late))
    ensures var seen := SeenOf(s, Submit(bio, late));
            DoSubmit(s, bio, late).eng.orig == if seen.Some? && seen.value.Write?
                                               then Overwrite(s.eng.orig, seen.value.ofs, seen.value.data)
                                               else s.eng.orig
  {
  }

  /** It sees just the image writes that are done. */
  lemma SeenReachesImage(s: State, ev: Event)
    requires Enabled(s, ev) && Shape(s)
    ensures var seen := SeenOf(s, ev);
            Image(Step(s, ev)) == if seen.Some? && seen.value.ImageWrite?
                                  then Overwrite(Image(s), seen.value.ofs, seen.value.data) else Image(s)
  {
    match ev
    case ImagePut(sent) => ApplyAllSnoc(s.orig0, s.written, Write(s.img.ofs, s.img.data));
    case _ =>
  }

  lemma RanAgrees(p: Pair, ev: Event)
    requires Agree(p) && May(p, Ran(ev))
    ensures Agree(Do(p, Ran(ev)))
  {
    var s := p.snap.value;
    StepKeepsInv(s, ev);
    SeenReachesDevice(s, ev);
    SeenReachesImage(s, ev);
    if p.t.frozen.Some? {
      StaysQuiet(s, ev);
    }
    TrackerFollows(p.t, SeenOf(s, ev));
  }

  lemma TrackerFollows(t: T.Track, seen: Option<T.Event>)
    requires seen.Some? ==> T.Possible(t, seen.value)
    requires seen.Some? ==> seen.value.Write? || seen.value.Dirty? || seen.value.ImageWrite?
    ensures seen.Some? ==>
              var t1 := T.Step(t, seen.value);
              && t1.frozen == t.frozen
              && t1.dev == (if seen.value.Write? then Overwrite(t.dev, seen.value.ofs, seen.value.data) else t.dev)
              && t1.view == (if seen.value.ImageWrite?
                             then Overwrite(t.view, seen.value.ofs, seen.value.data) else t.view)
  {
  }

  lemma StaysQuiet(s: State, ev: Event)
    requires Enabled(s, ev) && s.img.Quiet? && !ev.ImageAsk?
    ensures Step(s, ev).img.Quiet? && (SeenOf(s, ev).Some? ==> SeenOf(s, ev).value.Write?)
  {
  }

  lemma DoAgrees(p: Pair, act: Act)
    requires Agree(p) && May(p, act)
    ensures Agree(Do(p, act))
  {
    match act
    case Ran(ev) => RanAgrees(p, ev);
    case Defer(start) => CaptureInv(start);
    case _ =>
  }

  lemma {:induction false} RunAgrees(p: Pair, acts: seq<Act>)
    requires Agree(p) && MayAll(p, acts)
    ensures Agree(DoAll(p, acts))
    decreases |acts|
  {
    if acts != [] {
      DoAgrees(p, acts[0]);
      RunAgrees(Do(p, acts[0]), acts[1..]);
    }
  }

  /** Everything the tracker sees in a run. */
  ghost function Trace(p: Pair, acts: seq<Act>): seq<T.Event>
    requires MayAll(p, acts)
    decreases |acts|
  {
    if acts == [] then []
    else (if Seen(p, acts[0]).Some? then [Seen(p, acts[0]).value] else []) + Trace(Do(p, acts[0]), acts[1..])
  }

  lemma {:induction false} TraceIsRun(p: Pair, acts: seq<Act>)
    requires MayAll(p, acts)
    ensures T.Legal(p.t, Trace(p, acts)) && T.Run(p.t, Trace(p, acts)) == DoAll(p, acts).t
    decreases |acts|
  {
    if acts != [] {
      var p1, rest := Do(p, acts[0]), Trace(Do(p, acts[0]), acts[1..]);
      TraceIsRun(p1, acts[1..]);
      if Seen(p, acts[0]).Some? {
        T.OneMore(p.t, Seen(p, acts[0]).value, rest);
      } else {
        assert [] + rest == rest;
      }
    }
  }

  /** Some capture was completed in the run. */
  predicate Captures(acts: seq<Act>) {
    exists k :: 0 <= k < |acts| && acts[k].CloseEpoch?
  }

  lemma {:induction false} CapturesSeen(p: Pair, acts: seq<Act>)
    requires MayAll(p, acts) && Captures(acts)
    ensures T.Recaptured(Trace(p, acts))
    decreases |acts|
  {
    var k :| 0 <= k < |acts| && acts[k].CloseEpoch?;
    var trace := Trace(p, acts);
    if k == 0 {
      assert trace[0].Close?;
    } else {
      assert acts[1..][k - 1].CloseEpoch?;
      CapturesSeen(Do(p, acts[0]), acts[1..]);
      var rest := Trace(Do(p, acts[0]), acts[1..]);
      var j :| 0 <= j < |rest| && rest[j].Close?;
      assert trace[|trace| - |rest| + j] == rest[j];
    }
  }

  // ---- backups ----

  /** Tracking has just begun, and no snapshot is held. */
  ghost predicate Begun(p: Pair) {
    T.Started(p.t) && p.snap.None?
  }

  /** A snapshot is held whose capture is complete. */
  predicate Held(p: Pair) {
    p.snap.Some? && p.t.frozen.None?
  }

  /** While a snapshot is held, the image the tracker knows is the image of the snapshot. */
  lemma ViewIsImage(p0: Pair, acts: seq<Act>)
    requires Begun(p0) && MayAll(p0, acts) && Held(DoAll(p0, acts))
    ensures var p := DoAll(p0, acts); p.t.view == Image(p.snap.value) && p.t.dev == p.snap.value.eng.orig
  {
    RunAgrees(p0, acts);
  }

  /**
   * An admitted read that gets the lock returns `v` for sector `i`, which is not lost, of the image of
   * `s`: the snapshot is the same, and no image write was done in between.
   */
  predicate Gives(p: Pair, s: State, i: nat, v: Sector) {
    && p.snap.Some?
    && var q := p.snap.value;
       && q.orig0 == s.orig0 && q.written == s.written && i !in q.lost
       && Unlocked(q) && q.img.Reading? && q.img.ofs <= i < q.img.ofs + q.img.cnt && Served(q)[i - q.img.ofs] == v
  }

  /** So it is at some point of the run. */
  ghost predicate GivesOnTheWay(p: Pair, acts: seq<Act>, s: State, i: nat, v: Sector) {
    exists n: nat :: n <= |acts| && MayAll(p, acts[..n]) && Gives(DoAll(p, acts[..n]), s, i, v)
  }

  lemma GivenIsImage(p: Pair, acts: seq<Act>, s: State, i: nat, v: Sector)
    requires Agree(p) && GivesOnTheWay(p, acts, s, i, v) && i < |Image(s)|
    ensures v == Image(s)[i]
  {
    var n: nat :| n <= |acts| && MayAll(p, acts[..n]) && Gives(DoAll(p, acts[..n]), s, i, v);
    RunAgrees(p, acts[..n]);
    GivesImage(DoAll(p, acts[..n]), s, i, v);
  }

  lemma GivesImage(p: Pair, s: State, i: nat, v: Sector)
    requires Agree(p) && Gives(p, s, i, v) && i < |Image(s)|
    ensures v == Image(s)[i]
  {
    var q := p.snap.value;
    ServesImage(q);
    assert Served(q)[i - q.img.ofs] == Image(q)[q.img.ofs + (i - q.img.ofs)];
  }

  /** A full backup put together from reads of the image is the image. */
  lemma FullBackupIsImage(p0: Pair, before: seq<Act>, reading: seq<Act>, backup: seq<Sector>)
    requires Begun(p0) && MayAll(p0, before) && Held(DoAll(p0, before))
    requires var p := DoAll(p0, before);
             && |backup| == |Image(p.snap.value)|
             && forall i: nat | i < |backup| :: GivesOnTheWay(p, reading, p.snap.value, i, backup[i])
    ensures backup == Image(DoAll(p0, before).snap.value)
  {
    RunAgrees(p0, before);
    var p := DoAll(p0, before);
    forall i: nat | i < |backup|
      ensures backup[i] == Image(p.snap.value)[i]
    {
      GivenIsImage(p, reading, p.snap.value, i, backup[i]);
    }
  }

  /** The block of the sector is not numbered above `k`: an incremental backup leaves it out. */
  predicate LeftOut(c: C.Cbt, k: nat, i: nat) {
    C.BlockOf(c.degree, i) < |c.read| && c.read[C.BlockOf(c.degree, i)] <= k
  }

  /**
   * An incremental backup takes the blocks not numbered above an earlier snapshot from the backup of
   * that one, and the others from reads of the later image, at whatever moments.  It is the later image.
   */
  lemma IncrementalBackupIsImage(p0: Pair, before: seq<Act>, since: seq<Act>, reading: seq<Act>,
          full: seq<Sector>, backup: seq<Sector>)
    requires Begun(p0) && MayAll(p0, before) && MayAll(DoAll(p0, before), since)
    requires var p1 := DoAll(p0, before);
             Held(p1) && full == Image(p1.snap.value) && T.Whole(p1.t, true)
    requires var p1 := DoAll(p0, before);
             var p2 := DoAll(p1, since);
             && Held(p2) && Captures(since) && p2.t.active && !p2.t.unmarked
             && p2.t.cbt.genPrevious == p1.t.cbt.genPrevious && |backup| == |Image(p2.snap.value)|
             && forall i: nat | i < |backup| ::
                  if i < |full| && LeftOut(p2.t.cbt, p1.t.cbt.previous, i) then backup[i] == full[i]
                  else GivesOnTheWay(p2, reading, p2.snap.value, i, backup[i])
    ensures backup == Image(DoAll(DoAll(p0, before), since).snap.value)
  {
    var p1 := DoAll(p0, before);
    var p2 := DoAll(p1, since);
    RunAgrees(p0, before);
    RunAgrees(p1, since);
    TraceIsRun(p0, before);
    TraceIsRun(p1, since);
    CapturesSeen(p1, since);
    forall i: nat | i < |backup|
      ensures backup[i] == Image(p2.snap.value)[i]
    {
      if i < |full| && LeftOut(p2.t.cbt, p1.t.cbt.previous, i) {
        T.SectorUnchanged(p0.t, Trace(p0, before), Trace(p1, since), i, true);
      } else {
        GivenIsImage(p2, reading, p2.snap.value, i, backup[i]);
      }
    }
  }
}
