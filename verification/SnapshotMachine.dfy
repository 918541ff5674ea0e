/**
 * The snapshot of one captured device as a state machine over the steps its threads take between
 * locks: bios arriving (`defer_io_redirect_bio`), the worker (`defer_io_work_thread`) filling a
 * batch, copying, issuing and finally draining, and the image thread reading and writing
 * (`snapstore_device_read`, `snapstore_device_write`).  Bios may arrive between any two steps.
 */
module SnapshotMachine {
  import opened Basics
  import opened CowEngine

  /** A bio with data reads or writes at least one sector; `NoData` stands for flushes and the like. */
  datatype Bio = Read(ofs: nat, cnt: nat) | Write(ofs: nat, data: seq<Sector>) | NoData

  const BATCH_BIOS: nat := 250      // DEFER_IO_DIO_REQUEST_LENGTH
  const BATCH_SECTORS: nat := 20480 // DEFER_IO_DIO_REQUEST_SECTORS_COUNT

  datatype Phase =
    | Idle
    | Preparing(bios: nat, sectors: nat)
    | Copying
    | Finishing
    | Exited    // the worker loop ended, the queue still accepts
    | Draining  // the queue is inactive
    | Done

  /**
   * The image thread tests the corrupted flag before it takes the lock, and an image write is two
   * critical sections: `Reading` and `Writing` are past the test, `Cowed` is between the sections.
   */
  datatype ImageThread =
    | Quiet
    | Reading(ofs: nat, cnt: nat)
    | Writing(ofs: nat, data: seq<Sector>)
    | Cowed(ofs: nat, data: seq<Sector>)

  datatype Copied = Copied(block: nat, data: seq<Sector>)

  datatype State = State(
    eng: Engine,
    waiting: seq<Bio>,      // dio_queue
    inProcess: seq<Bio>,    // queue_in_process
    req: seq<Dio>,          // dio_copy_req
    phase: Phase,
    captured: bool,         // tracker->is_captured
    stopping: bool,         // kthread_should_stop()
    img: ImageThread,
    // what happened so far; no step looks at these
    orig0: seq<Sector>,     // original device at capture
    accepted: seq<Bio>,     // bios the queue took
    issued: seq<Bio>,       // bios the worker passed on
    direct: seq<Bio>,       // bios the queue refused, issued at once
    written: seq<Bio>,      // image writes
    copies: seq<Copied>,    // blocks read from the original for copying
    bypassed: bool,         // some write was let through without copy-on-write
    missed: set<nat>,       // blocks whose contents could not be read when they were to be copied
    lost: set<nat>)         // device sectors whose contents at capture, or image data, were not kept

  /**
   * `late` marks a test of the corrupted flag that came before the flag was set; `gaps` is what
   * happens to the snapstore between the blocks that are prepared.
   */
  datatype Event =
    | Submit(bio: Bio, late: bool)
    | Begin | Pop(gaps: Gaps) | EndPrepare | Copy(f: Faults) | Issue | EndBatch
    | Release | Stop | Exit | Deactivate | Drain | Finish
    | ImageAsk(io: Bio) | ImageGet | ImageCow(f: Faults, gaps: Gaps) | ImagePut(sent: bool)
    | Elsewhere(act: Outside) | OtherStores(id: nat, data: seq<Sector>)

  function Apply(dev: seq<Sector>, bio: Bio): (r: seq<Sector>)
    ensures |r| == |dev|
  {
    if bio.Write? then Overwrite(dev, bio.ofs, bio.data) else dev
  }

  function ApplyAll(dev: seq<Sector>, bios: seq<Bio>): (r: seq<Sector>)
    ensures |r| == |dev|
  {
    if bios == [] then dev else Apply(ApplyAll(dev, bios[..|bios| - 1]), bios[|bios| - 1])
  }

  /** `store_block_map_locker` is free. */
  predicate Unlocked(s: State) {
    !s.phase.Preparing? && !s.phase.Copying? && !s.phase.Finishing?
  }

  /** The block layer passes on only non-empty bios that end within the capacity. */
  predicate OnDevice(capacity: nat, bio: Bio) {
    match bio
    case Read(ofs, cnt) => cnt > 0 && ofs + cnt <= capacity
    case Write(ofs, data) => |data| > 0 && ofs + |data| <= capacity
    case NoData => true
  }

  /** Blocks mapped but not yet stored. */
  function PendingNow(s: State): set<nat> {
    if s.phase.Preparing? || s.phase.Copying? then Pending(s.req) else {}
  }

  /** The device sector has its place in the snapstore, and its contents were to be copied there by now. */
  predicate Stored(s: State, i: nat) {
    Mapped(s.eng, i) && i / s.eng.blk !in PendingNow(s)
  }

  predicate RoomLeft(s: State) {
    s.phase.Preparing? && s.waiting != [] && s.phase.bios < BATCH_BIOS && s.phase.sectors < BATCH_SECTORS
  }

  ghost predicate Enabled(s: State, ev: Event) {
    match ev
    case Submit(bio, late) => OnDevice(|s.eng.orig|, bio)
    case Begin => s.phase.Idle? && s.waiting != []
    case Pop(gaps) => RoomLeft(s)
    case EndPrepare => s.phase.Preparing? && !RoomLeft(s)
    case Copy(f) => s.phase.Copying?
    case Issue => s.phase.Finishing? && s.inProcess != []
    case EndBatch => s.phase.Finishing? && s.inProcess == []
    case Release => true
    case Stop => true
    case Exit => s.phase.Idle? && s.stopping && s.waiting == []
    case Deactivate => s.phase.Exited?
    case Drain => s.phase.Draining? && s.waiting != []
    case Finish => s.phase.Draining? && s.waiting == []
    case ImageAsk(io) => s.img.Quiet? && !io.NoData? && OnDevice(|s.eng.orig|, io)
    case ImageGet => Unlocked(s) && s.img.Reading?
    case ImageCow(f, gaps) => Unlocked(s) && s.img.Writing? && |s.img.data| > 0
    case ImagePut(sent) => Unlocked(s) && s.img.Cowed?
    case Elsewhere(act) => true
    case OtherStores(id, data) => id in s.eng.others && id < |s.eng.pool|
  }

  // ---- the steps ----

  function CopyLog(e: Engine, req: seq<Dio>): (r: seq<Copied>)
    ensures |r| == |req|
  {
    seq(|req|, k requires 0 <= k < |req| => Copied(req[k].block, BlockData(e.orig, e.blk, req[k].block)))
  }

  /** Sectors a write changes on the device although their contents at capture are not stored. */
  function Exposed(s: State, bio: Bio): set<nat> {
    if bio.Write? then set i | bio.ofs <= i < bio.ofs + |bio.data| && i < |s.eng.orig| && !Stored(s, i) else {}
  }

  /** The bio reaches the original device. */
  function ToDevice(s: State, bio: Bio): State {
    s.(eng := s.eng.(orig := Apply(s.eng.orig, bio)), lost := s.lost + Exposed(s, bio))
  }

  /** The device sectors of a request. */
  function InBlocks(e: Engine, req: seq<Dio>): set<nat> {
    set i | 0 <= i < |e.orig| && i / e.blk in Pending(req)
  }

  /** The queue takes a bio unless the snapshot is released or seen corrupted or the queue inactive. */
  predicate Refused(s: State, late: bool) {
    !s.captured || (s.eng.corrupted && !late) || s.phase.Draining? || s.phase.Done?
  }

  /** `tracking_make_request`: queue the bio, or issue it at once when it is refused. */
  function DoSubmit(s: State, bio: Bio, late: bool): State {
    var s1 := if s.captured && !late then s.(eng := Tested(s.eng)) else s;
    if Refused(s, late) then ToDevice(s1, bio).(direct := s.direct + [bio], bypassed := s.bypassed || bio.Write?)
    else s1.(waiting := s.waiting + [bio], accepted := s.accepted + [bio])
  }

  /** One turn of the loop of `_defer_io_copy_prepare`. */
  function DoPop(s: State, gaps: Gaps): State
    requires RoomLeft(s)
  {
    var bio := s.waiting[0];
    var s1 := s.(waiting := s.waiting[1..], inProcess := s.inProcess + [bio]);
    var bios, sectors := s.phase.bios, s.phase.sectors;
    if s.stopping then
      s1.(phase := Preparing(bios + 1, sectors), bypassed := s.bypassed || bio.Write?)
    else if s.eng.corrupted then
      s1.(eng := Tested(s.eng), phase := Preparing(bios + 1, sectors))
    else if bio.Write? && |bio.data| > 0 then
      var (e1, req1, st) := Prepare(s.eng, s.req, bio.ofs, |bio.data|, gaps);
      s1.(eng := e1, req := req1,
          phase := if st == Success then Preparing(bios + 1, sectors + |bio.data|) else Finishing,
          lost := if st == Success then s.lost else s.lost + InBlocks(e1, req1))
    else
      s1.(phase := Preparing(bios + 1, sectors))
  }

  function DoCopy(s: State, f: Faults): State {
    var (e1, st) := CopyOut(s.eng, s.req, f);
    s.(eng := e1, phase := Finishing, req := [],
       copies := s.copies + CopyLog(s.eng, s.req),
       missed := if ReadWorks(s.eng, s.req, f) then s.missed else s.missed + Pending(s.req),
       lost := if st == Success then s.lost else s.lost + InBlocks(s.eng, s.req))
  }

  /** The test of the flag: it needs no lock, and refuses at once. */
  function DoAsk(s: State, io: Bio): State
    requires !io.NoData?
  {
    if s.eng.corrupted then s.(eng := Tested(s.eng))
    else s.(img := if io.Read? then Reading(io.ofs, io.cnt) else Writing(io.ofs, io.data))
  }

  /** What an admitted read returns. */
  function Served(s: State): (r: seq<Sector>)
    requires s.img.Reading?
    ensures |r| == s.img.cnt
  {
    ShownSlice(s.eng, s.img.ofs, s.img.cnt)
  }

  /** `_snapstore_device_copy_on_write`; a failure does not keep the write from going on. */
  function DoImageCow(s: State, f: Faults, gaps: Gaps): State
    requires s.img.Writing? && |s.img.data| > 0
  {
    var ofs, cnt := s.img.ofs, |s.img.data|;
    var (e0, req, st0) := Prepare(s.eng, [], ofs, cnt, gaps);
    var (e1, req1, st) := CopyOnWrite(s.eng, ofs, cnt, f, gaps);
    var copying := st0 == Success && req != [];
    s.(eng := e1, img := Cowed(ofs, s.img.data),
       copies := if copying then s.copies + CopyLog(s.eng, req) else s.copies,
       missed := if copying && !ReadWorks(e0, req, f) then s.missed + Pending(req) else s.missed,
       lost := if st == Success then s.lost else s.lost + InBlocks(e0, req))
  }

  /** The second section of an image write; `sent` tells whether its bios could be built. */
  function DoImagePut(s: State, sent: bool): State
    requires s.img.Cowed?
  {
    var ofs, data := s.img.ofs, s.img.data;
    var (e1, st) := if sent then ImageOverwrite(s.eng, ofs, data) else (SetCorrupted(s.eng, EIO), EIO);
    s.(eng := e1, img := Quiet,
       written := if st == Success then s.written + [Write(ofs, data)] else s.written,
       lost := if st == Success then set i | i in s.lost && !(ofs <= i < ofs + |data|) else s.lost)
  }

  ghost function Step(s: State, ev: Event): State
    requires Enabled(s, ev)
  {
    match ev
    case Submit(bio, late) => DoSubmit(s, bio, late)
    case Begin => s.(phase := Preparing(0, 0), req := [])
    case Pop(gaps) => DoPop(s, gaps)
    case EndPrepare => s.(phase := if s.req == [] then Finishing else Copying)
    case Copy(f) => DoCopy(s, f)
    case Issue =>
      ToDevice(s, s.inProcess[0]).(inProcess := s.inProcess[1..], issued := s.issued + [s.inProcess[0]])
    case EndBatch => s.(phase := Idle, req := [])
    case Release => s.(captured := false)
    case Stop => s.(stopping := true)
    case Exit => s.(phase := Exited)
    case Deactivate => s.(phase := Draining)
    case Drain =>
      ToDevice(s, s.waiting[0]).(waiting := s.waiting[1..], issued := s.issued + [s.waiting[0]],
                                 bypassed := s.bypassed || s.waiting[0].Write?)
    case Finish => s.(phase := Done)
    case ImageAsk(io) => DoAsk(s, io)
    case ImageGet => s.(img := Quiet)
    case ImageCow(f, gaps) => DoImageCow(s, f, gaps)
    case ImagePut(sent) => DoImagePut(s, sent)
    case Elsewhere(act) => s.(eng := OneOutside(s.eng, act))
    case OtherStores(id, data) => s.(eng := s.eng.(store := Scatter(s.eng.store, Place(s.eng.pool[id]), data)))
  }

  ghost predicate Legal(s: State, evs: seq<Event>)
    decreases |evs|
  {
    evs == [] || (Enabled(s, evs[0]) && Legal(Step(s, evs[0]), evs[1..]))
  }

  ghost function Run(s: State, evs: seq<Event>): State
    requires Legal(s, evs)
    decreases |evs|
  {
    if evs == [] then s else Run(Step(s, evs[0]), evs[1..])
  }

  /** A device just captured: nothing mapped, nothing queued. */
  ghost predicate Captured(s: State) {
    && WellFormed(s.eng) && s.eng.blocks == map[] && !s.eng.corrupted
    && s.waiting == [] && s.inProcess == [] && s.req == [] && s.phase.Idle? && s.captured && !s.stopping && s.img.Quiet?
    && s.orig0 == s.eng.orig
    && s.accepted == [] && s.issued == [] && s.direct == [] && s.written == [] && s.copies == []
    && !s.bypassed && s.missed == {} && s.lost == {}
  }
}
