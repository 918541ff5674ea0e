/**
 * Runs whose contents tell where they came from: what the image should show is never negative, and
 * whatever else reaches a sector is.  In such a run every lost sector is shown wrong.
 */
module SnapshotMarks {
  import opened Basics
  import opened CowEngine
  import opened SnapshotMachine
  import opened SnapshotProofs

  predicate Genuine(data: seq<Sector>) {
    forall k | 0 <= k < |data| :: data[k] >= 0
  }

  predicate Foreign(data: seq<Sector>) {
    forall k | 0 <= k < |data| :: data[k] < 0
  }

  predicate ForeignBio(bio: Bio) {
    bio.Write? ==> Foreign(bio.data)
  }

  predicate ForeignBios(bios: seq<Bio>) {
    forall bio | bio in bios :: ForeignBio(bio)
  }

  predicate MarkedEvent(ev: Event) {
    match ev
    case Submit(bio, late) => ForeignBio(bio)
    case Copy(f) => Foreign(f.junk)
    case ImageAsk(io) => io.Write? ==> Genuine(io.data)
    case ImageCow(f, gaps) => Foreign(f.junk)
    case OtherStores(id, data) => Foreign(data)
    case _ => true
  }

  predicate GenuineImg(img: ImageThread) {
    img.Writing? || img.Cowed? ==> Genuine(img.data)
  }

  /** The snapstore sector holds a block of this device that is not waiting to be copied. */
  ghost predicate Kept(e: Engine, pending: set<nat>, c: nat) {
    exists b: nat, j: nat :: b in e.blocks && b !in pending && j < e.blk && Cell(e.blocks[b], j) == c
  }

  /** Only kept snapstore sectors hold genuine data. */
  ghost predicate StoreMarked(e: Engine, pending: set<nat>) {
    forall c | 0 <= c < |e.store| && e.store[c] >= 0 :: Kept(e, pending, c)
  }

  /** Lost sectors show foreign data. */
  ghost predicate LostShow(s: State) {
    forall i: nat | i < |s.eng.orig| && i in s.lost :: Shown(s.eng, PendingNow(s), i) < 0
  }

  ghost predicate Marked(s: State) {
    && Genuine(Image(s)) && ForeignBios(s.waiting) && ForeignBios(s.inProcess) && GenuineImg(s.img)
    && StoreMarked(s.eng, PendingNow(s)) && LostShow(s)
  }

  /** A block waiting to be copied, or just mapped, has nothing genuine in its place. */
  lemma UnkeptIsForeign(e: Engine, pending: set<nat>, i: nat)
    requires WellFormed(e) && StoreMarked(e, pending) && Mapped(e, i) && i / e.blk in pending
    ensures At(e.store, Target(e, i)) < 0
  {
    PlaceDistinct(e, i / e.blk);
    var c := Target(e, i);
    if e.store[c] >= 0 {
      var b: nat, j: nat :| b in e.blocks && b !in pending && j < e.blk && Cell(e.blocks[b], j) == c;
      CellsDiffer(e, b, j, i / e.blk, i % e.blk);
    }
  }

  lemma KeptGrows(e: Engine, pending: set<nat>, e': Engine, pending': set<nat>)
    requires StoreMarked(e, pending) && e'.store == e.store && e'.blk == e.blk
    requires forall b | b in e.blocks && b !in pending ::
               b in e'.blocks && e'.blocks[b] == e.blocks[b] && b !in pending'
    ensures StoreMarked(e', pending')
  {
    forall c | 0 <= c < |e'.store| && e'.store[c] >= 0
      ensures Kept(e', pending', c)
    {
      var b: nat, j: nat :| b in e.blocks && b !in pending && j < e.blk && Cell(e.blocks[b], j) == c;
      assert b in e'.blocks;
    }
  }

  // ---- writing to the snapstore ----

  lemma {:induction false} ForeignScatter(s: seq<Sector>, places: seq<nat>, data: seq<Sector>, c: nat)
    requires Foreign(data)
    ensures At(Scatter(s, places, data), c) >= 0 ==> At(s, c) >= 0
    decreases |places|
  {
    if places != [] && data != [] {
      assert data[0] < 0;
      assert Foreign(data[1..]);
      ForeignScatter(Put(s, places[0], data[0]), places[1..], data[1..], c);
    }
  }

  lemma {:induction false} StoreAllMisses(e: Engine, req: seq<Dio>, c: nat)
    requires c !in RequestPlaces(req)
    ensures At(StoreAll(e, req).store, c) == At(e.store, c)
    decreases |req|
  {
    if req != [] {
      var data := BlockData(e.orig, e.blk, req[0].block);
      assert RequestPlaces(req) == Place(req[0].descr) + RequestPlaces(req[1..]);
      forall k | 0 <= k < |Place(req[0].descr)|
        ensures Place(req[0].descr)[k] != c
      {
        assert RequestPlaces(req)[k] == Place(req[0].descr)[k];
      }
      forall k | 0 <= k < |RequestPlaces(req[1..])|
        ensures RequestPlaces(req[1..])[k] != c
      {
        assert RequestPlaces(req)[|Place(req[0].descr)| + k] == RequestPlaces(req[1..])[k];
      }
      ScatterMiss(e.store, Place(req[0].descr), data, c);
      StoreAllMisses(e.(store := Scatter(e.store, Place(req[0].descr), data)), req[1..], c);
    }
  }

  /** What a request writes belongs to its blocks. */
  lemma {:induction false} RequestKeeps(e: Engine, req: seq<Dio>, c: nat)
    requires WellFormed(e) && ReqOk(e, req) && c in RequestPlaces(req)
    ensures Kept(e, {}, c)
    decreases |req|
  {
    var p := Place(req[0].descr);
    PlaceDistinct(e, req[0].block);
    if c in p {
      var k :| 0 <= k < |p| && p[k] == c;
      assert Cell(e.blocks[req[0].block], k) == c;
    } else {
      assert c in RequestPlaces(req[1..]);
      RequestKeeps(e, req[1..], c);
    }
  }

  // ---- copying ----

  lemma CopyOutMarked(e: Engine, req: seq<Dio>, f: Faults)
    requires WellFormed(e) && ReqOk(e, req) && Foreign(f.junk) && StoreMarked(e, Pending(req))
    ensures StoreMarked(CopyOut(e, req, f).0, {})
  {
    var e1 := CopyOut(e, req, f).0;
    StoreAllKeeps(e, req);
    forall c: nat | c < |e1.store| && e1.store[c] >= 0
      ensures Kept(e1, {}, c)
    {
      if c in RequestPlaces(req) {
        RequestKeeps(e, req, c);
        var b: nat, j: nat :| b in e.blocks && j < e.blk && Cell(e.blocks[b], j) == c;
        assert b in e1.blocks;
      } else {
        StoreAllMisses(e, req, c);
        ForeignScatter(e.store, RequestPlaces(req), f.junk, c);
        assert At(e.store, c) >= 0;
        var b: nat, j: nat :| b in e.blocks && b !in Pending(req) && j < e.blk && Cell(e.blocks[b], j) == c;
        assert b in e1.blocks;
      }
    }
  }

  /** Blocks whose copy failed show foreign data. */
  lemma CopyOutLoses(e: Engine, req: seq<Dio>, f: Faults, i: nat)
    requires WellFormed(e) && ReqOk(e, req) && Foreign(f.junk) && StoreMarked(e, Pending(req))
    requires CopyOut(e, req, f).1 != Success && i / e.blk in Pending(req)
    ensures Shown(CopyOut(e, req, f).0, {}, i) < 0
  {
    var k :| 0 <= k < |req| && req[k].block == i / e.blk;
    UnkeptIsForeign(e, Pending(req), i);
    ForeignScatter(e.store, RequestPlaces(req), f.junk, Target(e, i));
    PlaceDistinct(e, i / e.blk);
  }

  /** New blocks are pending, so preparing keeps the snapstore marked. */
  lemma PrepareMarked(e: Engine, req: seq<Dio>, inx: nat, last: int, gaps: Gaps)
    requires WellFormed(e) && ReqOk(e, req) && StoreMarked(e, Pending(req))
    ensures var (e1, req1, st) := PrepareRequests(e, req, inx, last, gaps); StoreMarked(e1, Pending(req1))
  {
    PrepareKeeps(e, req, inx, last, gaps);
    var (e1, req1, st) := PrepareRequests(e, req, inx, last, gaps);
    forall b | b in e.blocks && b !in Pending(req)
      ensures b !in Pending(req1)
    {
      StaysStored(e, req, inx, last, gaps, b);
    }
    KeptGrows(e, Pending(req), e1, Pending(req1));
  }

  // ---- the steps ----

  lemma DeviceMarked(s: State, bio: Bio)
    requires LostShow(s) && ForeignBio(bio)
    ensures LostShow(ToDevice(s, bio))
  {
    var s' := ToDevice(s, bio);
    forall i: nat | i < |s.eng.orig| && i in s'.lost
      ensures Shown(s'.eng, PendingNow(s'), i) < 0
    {
      if i in s.lost {
        assert Shown(s.eng, PendingNow(s), i) < 0;
      } else {
        assert i in Exposed(s, bio) && !Stored(s, i);
      }
    }
  }

  lemma PopMarked(s: State, gaps: Gaps)
    requires RoomLeft(s) && Shape(s) && Marked(s)
    ensures Marked(DoPop(s, gaps))
  {
    var s' := DoPop(s, gaps);
    var bio := s.waiting[0];
    assert bio in s.waiting;
    BiosMove(s);
    if bio.Write? && |bio.data| > 0 && !s.stopping && !s.eng.corrupted {
      PreparedMarked(s, gaps);
    } else {
      assert s'.eng.store == s.eng.store;
      KeptGrows(s.eng, PendingNow(s), s'.eng, PendingNow(s'));
      forall i: nat | i < |s.eng.orig| && i in s'.lost
        ensures Shown(s'.eng, PendingNow(s'), i) < 0
      {
        assert Shown(s.eng, PendingNow(s), i) < 0;
      }
    }
  }

  lemma BiosMove(s: State)
    requires ForeignBios(s.waiting) && ForeignBios(s.inProcess) && s.waiting != []
    ensures ForeignBios(s.waiting[1..]) && ForeignBios(s.inProcess + [s.waiting[0]])
  {
    assert forall bio | bio in s.waiting[1..] :: bio in s.waiting;
    assert s.waiting[0] in s.waiting;
  }

  lemma PreparedMarked(s: State, gaps: Gaps)
    requires RoomLeft(s) && Shape(s) && Marked(s) && !s.stopping && !s.eng.corrupted
    requires s.waiting[0].Write? && |s.waiting[0].data| > 0
    ensures StoreMarked(DoPop(s, gaps).eng, PendingNow(DoPop(s, gaps))) && LostShow(DoPop(s, gaps))
  {
    var s', bio := DoPop(s, gaps), s.waiting[0];
    var first, last := FirstBlock(s.eng.blk, bio.ofs), LastBlock(s.eng.blk, bio.ofs, |bio.data|);
    PrepareKeeps(s.eng, s.req, first, last, gaps);
    PrepareMarked(s.eng, s.req, first, last, gaps);
    KeptGrows(s'.eng, Pending(s'.req), s'.eng, PendingNow(s'));
    forall i: nat | i < |s.eng.orig| && i in s'.lost
      ensures Shown(s'.eng, PendingNow(s'), i) < 0
    {
      PrepareShows(s.eng, s.req, first, last, gaps, i);
      if s'.phase.Finishing? && i / s'.eng.blk in Pending(s'.req) {
        var k :| 0 <= k < |s'.req| && s'.req[k].block == i / s'.eng.blk;
        UnkeptIsForeign(s'.eng, Pending(s'.req), i);
      } else {
        assert i in s.lost;
        assert Shown(s.eng, PendingNow(s), i) < 0;
      }
    }
  }

  lemma CopyMarked(s: State, f: Faults)
    requires s.phase.Copying? && Shape(s) && Marked(s) && Foreign(f.junk)
    ensures StoreMarked(DoCopy(s, f).eng, {}) && LostShow(DoCopy(s, f))
  {
    var s' := DoCopy(s, f);
    CopyOutMarked(s.eng, s.req, f);
    CopyOutKeeps(s.eng, s.req, f);
    forall i: nat | i < |s.eng.orig| && i in s'.lost
      ensures Shown(s'.eng, {}, i) < 0
    {
      if CopyOut(s.eng, s.req, f).1 != Success && i / s.eng.blk in Pending(s.req) {
        CopyOutLoses(s.eng, s.req, f, i);
      } else {
        CopyOutShows(s.eng, s.req, f, i);
        assert Shown(s.eng, PendingNow(s), i) < 0;
      }
    }
  }

  /** Blocks whose copy ahead of an image write failed show foreign data. */
  lemma CowLoses(e: Engine, ofs: nat, cnt: nat, f: Faults, gaps: Gaps, i: nat)
    requires WellFormed(e) && cnt > 0 && Foreign(f.junk) && StoreMarked(e, {})
    requires CopyOnWrite(e, ofs, cnt, f, gaps).2 != Success && i / e.blk in Pending(CopyOnWrite(e, ofs, cnt, f, gaps).1)
    ensures Shown(CopyOnWrite(e, ofs, cnt, f, gaps).0, {}, i) < 0
  {
    assert Pending([]) == {};
    PrepareKeeps(e, [], FirstBlock(e.blk, ofs), LastBlock(e.blk, ofs, cnt), gaps);
    PrepareMarked(e, [], FirstBlock(e.blk, ofs), LastBlock(e.blk, ofs, cnt), gaps);
    var (e0, req, st0) := Prepare(e, [], ofs, cnt, gaps);
    if st0 == Success && req != [] {
      CopyOutLoses(e0, req, f, i);
    } else {
      var k :| 0 <= k < |req| && req[k].block == i / e.blk;
      UnkeptIsForeign(e0, Pending(req), i);
    }
  }

  lemma CowMarked(e: Engine, ofs: nat, cnt: nat, f: Faults, gaps: Gaps)
    requires WellFormed(e) && cnt > 0 && Foreign(f.junk) && StoreMarked(e, {})
    ensures StoreMarked(CopyOnWrite(e, ofs, cnt, f, gaps).0, {})
  {
    assert Pending([]) == {};
    PrepareKeeps(e, [], FirstBlock(e.blk, ofs), LastBlock(e.blk, ofs, cnt), gaps);
    PrepareMarked(e, [], FirstBlock(e.blk, ofs), LastBlock(e.blk, ofs, cnt), gaps);
    var (e0, req, st0) := Prepare(e, [], ofs, cnt, gaps);
    if st0 == Success && req != [] {
      CopyOutMarked(e0, req, f);
    } else {
      KeptGrows(e0, Pending(req), e0, {});
    }
  }

  lemma ImageCowMarked(s: State, f: Faults, gaps: Gaps)
    requires Unlocked(s) && s.img.Writing? && |s.img.data| > 0 && Shape(s) && Marked(s) && Foreign(f.junk)
    ensures StoreMarked(DoImageCow(s, f, gaps).eng, {}) && LostShow(DoImageCow(s, f, gaps))
  {
    var s' := DoImageCow(s, f, gaps);
    var ofs, cnt := s.img.ofs, |s.img.data|;
    CowMarked(s.eng, ofs, cnt, f, gaps);
    CowKeeps(s.eng, ofs, cnt, f, gaps);
    forall i: nat | i < |s.eng.orig| && i in s'.lost
      ensures Shown(s'.eng, {}, i) < 0
    {
      var (e1, req, st) := CopyOnWrite(s.eng, ofs, cnt, f, gaps);
      if st != Success && i / s.eng.blk in Pending(req) {
        CowLoses(s.eng, ofs, cnt, f, gaps, i);
      } else {
        CowShows(s.eng, ofs, cnt, f, gaps, i);
        assert Shown(s.eng, PendingNow(s), i) < 0;
      }
    }
  }

  lemma PutMarked(s: State, sent: bool)
    requires Unlocked(s) && s.img.Cowed? && Shape(s) && Marked(s)
    ensures Marked(DoImagePut(s, sent))
  {
    var s' := DoImagePut(s, sent);
    if sent && AllMapped(s.eng, s.img.ofs, |s.img.data|) {
      PutStoreMarked(s);
      PutLostShow(s);
      ApplyAllSnoc(s.orig0, s.written, Write(s.img.ofs, s.img.data));
    } else {
      StillMarked(s, s');
    }
  }

  lemma PutLostShow(s: State)
    requires Unlocked(s) && s.img.Cowed? && EngineOk(s) && LostShow(s) && AllMapped(s.eng, s.img.ofs, |s.img.data|)
    ensures LostShow(DoImagePut(s, true))
  {
    var s' := DoImagePut(s, true);
    forall i: nat | i < |s.eng.orig| && i in s'.lost
      ensures Shown(s'.eng, {}, i) < 0
    {
      OverwriteShows(s.eng, s.img.ofs, s.img.data, i);
      assert Shown(s.eng, PendingNow(s), i) < 0;
    }
  }

  /** An image write changes kept sectors only. */
  lemma PutStoreMarked(s: State)
    requires s.img.Cowed? && AllMapped(s.eng, s.img.ofs, |s.img.data|) && StoreMarked(s.eng, {})
    ensures StoreMarked(ImageOverwrite(s.eng, s.img.ofs, s.img.data).0, {})
  {
    var ofs, data := s.img.ofs, s.img.data;
    var e1, t := ImageOverwrite(s.eng, ofs, data).0, Targets(s.eng, ofs, |data|);
    forall c: nat | c < |e1.store| && e1.store[c] >= 0
      ensures Kept(e1, {}, c)
    {
      if c in t {
        var k :| 0 <= k < |t| && t[k] == c;
        assert Mapped(s.eng, ofs + k) && t[k] == Target(s.eng, ofs + k);
        var b, j := (ofs + k) / e1.blk, (ofs + k) % e1.blk;
        assert b in e1.blocks && j < e1.blk && Cell(e1.blocks[b], j) == c;
      } else {
        ScatterMiss(s.eng.store, t, data, c);
        assert Kept(s.eng, {}, c);
        var b: nat, j: nat :| b in s.eng.blocks && j < s.eng.blk && Cell(s.eng.blocks[b], j) == c;
        assert b in e1.blocks;
      }
    }
  }

  lemma OtherStoresMarked(s: State, id: nat, data: seq<Sector>)
    requires Enabled(s, OtherStores(id, data)) && Shape(s) && Marked(s) && Foreign(data)
    ensures Marked(Step(s, OtherStores(id, data)))
  {
    var s' := Step(s, OtherStores(id, data));
    forall c: nat | c < |s'.eng.store| && s'.eng.store[c] >= 0
      ensures Kept(s'.eng, PendingNow(s'), c)
    {
      ForeignScatter(s.eng.store, Place(s.eng.pool[id]), data, c);
      assert Kept(s.eng, PendingNow(s), c);
      var b: nat, j: nat :|
        b in s.eng.blocks && b !in PendingNow(s) && j < s.eng.blk && Cell(s.eng.blocks[b], j) == c;
      assert b in s'.eng.blocks;
    }
    forall i: nat | i < |s.eng.orig| && i in s'.lost
      ensures Shown(s'.eng, PendingNow(s'), i) < 0
    {
      assert Shown(s.eng, PendingNow(s), i) < 0;
      ForeignScatter(s.eng.store, Place(s.eng.pool[id]), data, if Mapped(s.eng, i) then Target(s.eng, i) else 0);
      if Mapped(s.eng, i) {
        OtherMisses(s, id, i);
        ScatterMiss(s.eng.store, Place(s.eng.pool[id]), data, Target(s.eng, i));
      }
    }
  }

  /** Steps that change no contents, no map and no pending block. */
  lemma StillMarked(s: State, s': State)
    requires Marked(s) && PendingNow(s') == PendingNow(s) && s'.orig0 == s.orig0 && s'.written == s.written
    requires s'.lost == s.lost
    requires s'.eng.orig == s.eng.orig && s'.eng.store == s.eng.store && s'.eng.blocks == s.eng.blocks
    requires s'.eng.blk == s.eng.blk
    requires ForeignBios(s'.waiting) && ForeignBios(s'.inProcess) && GenuineImg(s'.img)
    ensures Marked(s')
  {
    KeptGrows(s.eng, PendingNow(s), s'.eng, PendingNow(s'));
    forall i: nat | i < |s'.eng.orig| && i in s'.lost
      ensures Shown(s'.eng, PendingNow(s'), i) < 0
    {
      assert Shown(s.eng, PendingNow(s), i) < 0;
    }
  }

  lemma SubmitMarked(s: State, bio: Bio, late: bool)
    requires Marked(s) && ForeignBio(bio)
    ensures Marked(DoSubmit(s, bio, late))
  {
    var s' := DoSubmit(s, bio, late);
    if Refused(s, late) {
      DeviceMarked(s, bio);
      var s1 := ToDevice(s, bio);
      KeptGrows(s.eng, PendingNow(s), s1.eng, PendingNow(s1));
      StillMarked(s1, s');
    } else {
      assert forall b | b in s'.waiting :: b in s.waiting || b == bio;
      StillMarked(s, s');
    }
  }

  /** A bio that leaves the batch or the queue for the device. */
  lemma PassedMarked(s: State, bio: Bio, s': State)
    requires Marked(s) && ForeignBio(bio) && PendingNow(s') == PendingNow(s)
    requires s'.eng == ToDevice(s, bio).eng && s'.lost == ToDevice(s, bio).lost && s'.img == s.img
    requires s'.orig0 == s.orig0 && s'.written == s.written
    requires ForeignBios(s'.waiting) && ForeignBios(s'.inProcess)
    ensures Marked(s')
  {
    DeviceMarked(s, bio);
    var s1 := ToDevice(s, bio);
    KeptGrows(s.eng, PendingNow(s), s1.eng, PendingNow(s1));
    StillMarked(s1, s');
  }

  lemma Tail(bios: seq<Bio>)
    requires ForeignBios(bios) && bios != []
    ensures ForeignBio(bios[0]) && ForeignBios(bios[1..])
  {
    assert bios[0] in bios;
    assert forall bio | bio in bios[1..] :: bio in bios;
  }

  lemma StepMarked(s: State, ev: Event)
    requires Enabled(s, ev) && Shape(s) && Marked(s) && MarkedEvent(ev)
    ensures Marked(Step(s, ev))
  {
    match ev
    case Submit(bio, late) => SubmitMarked(s, bio, late);
    case Pop(gaps) => PopMarked(s, gaps);
    case Copy(f) => CopyMarked(s, f);
    case Issue =>
      Tail(s.inProcess);
      PassedMarked(s, s.inProcess[0], Step(s, ev));
    case Drain =>
      Tail(s.waiting);
      PassedMarked(s, s.waiting[0], Step(s, ev));
    case ImageCow(f, gaps) => ImageCowMarked(s, f, gaps);
    case ImagePut(sent) => PutMarked(s, sent);
    case OtherStores(id, data) => OtherStoresMarked(s, id, data);
    case ImageAsk(io) => AskMarked(s, io);
    case Elsewhere(act) => ElsewhereMarked(s, act);
    case _ => RestMarked(s, ev);
  }

  lemma AskMarked(s: State, io: Bio)
    requires Marked(s) && !io.NoData? && (io.Write? ==> Genuine(io.data))
    ensures Marked(DoAsk(s, io))
  {
    StillMarked(s, DoAsk(s, io));
  }

  lemma ElsewhereMarked(s: State, act: Outside)
    requires Marked(s)
    ensures Marked(s.(eng := OneOutside(s.eng, act)))
  {
    StillMarked(s, s.(eng := OneOutside(s.eng, act)));
  }

  lemma RestMarked(s: State, ev: Event)
    requires Enabled(s, ev) && Shape(s) && Marked(s) && MarkedEvent(ev)
    requires !ev.Submit? && !ev.Pop? && !ev.Copy? && !ev.Issue? && !ev.Drain? && !ev.ImageCow? && !ev.ImagePut?
    requires !ev.OtherStores? && !ev.ImageAsk? && !ev.Elsewhere?
    ensures Marked(Step(s, ev))
  {
    assert Pending([]) == {};
    StillMarked(s, Step(s, ev));
  }
}
