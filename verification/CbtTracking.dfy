/**
 * Changed-block tracking of one device across captures (`tracker.c`, `tracking.c`, `defer_io.c`):
 * every write that carries data marks the map before it is issued, both under the map's lock.  A capture
 * is two steps: from the first on bios are deferred, the second closes the epoch under the map's lock.
 */
module CbtTracking {
  import opened Basics
  import opened CowEngine
  import C = CbtMap

  datatype Track = Track(
    dev: seq<Sector>,
    cbt: C.Cbt,
    active: bool,                // cbt_map->active
    // what happened so far; no step looks at these
    snap: seq<Sector>,           // device contents when the latest epoch was closed
    frozen: Option<seq<Sector>>, // device contents when the capture under way began to defer bios
    view: seq<Sector>,           // the image of the latest capture, with the image writes since
    unmarked: bool,              // some write to that image could not be marked
    torn: bool,                  // the device changed between the two steps of that capture
    drawn: set<C.Uuid>)          // generation identifiers drawn so far

  datatype Event =
    | Write(ofs: nat, data: seq<Sector>)
    | Dirty(ofs: nat, cnt: nat)    // blocks marked by request
    | ImageWrite(ofs: nat, data: seq<Sector>)
    | Check(degree: nat, newGen: C.Uuid)
    | Freeze
    | Close(newGen: C.Uuid)
    | Extend(more: seq<Sector>)

  /** `tracking_make_request` cuts the marked range at the end of the device. */
  function Clamped(capacity: nat, ofs: nat, cnt: nat): nat
    requires ofs < capacity
  {
    if ofs + cnt > capacity then capacity - ofs else cnt
  }

  /** `tracker_cbt_bitmap_lock` and `tracker_cbt_bitmap_set`: a fault turns tracking off. */
  function MarkWrite(c: C.Cbt, active: bool, capacity: nat, ofs: nat, cnt: nat): (C.Cbt, bool) {
    if !active || c.capacity != capacity then (c, false)
    else
      var (c1, st) := C.Mark(c, ofs, cnt);
      (c1, st == Success)
  }

  /** `tracking_add` keeps a map that is active and was made for the size the device has. */
  predicate Fits(s: Track) {
    s.active && s.cbt.capacity == |s.dev|
  }

  predicate Possible(s: Track, ev: Event) {
    match ev
    case Write(ofs, data) => ofs < |s.dev| && |data| > 0
    case ImageWrite(ofs, data) => |data| > 0 && ofs + |data| <= |s.view|
    case Check(degree, newGen) => newGen !in s.drawn && s.frozen.None?
    case Freeze => s.frozen.None?
    case Close(newGen) => newGen !in s.drawn && s.frozen.Some?
    case Extend(more) => |s.dev| + |more| < C.TWO64
    case Dirty(ofs, cnt) => true
  }

  function Step(s: Track, ev: Event): Track
    requires Possible(s, ev)
  {
    match ev
    case Write(ofs, data) =>
      var (c1, active1) := MarkWrite(s.cbt, s.active, |s.dev|, ofs, Clamped(|s.dev|, ofs, |data|));
      s.(cbt := c1, active := active1, dev := Overwrite(s.dev, ofs, data))
    case Dirty(ofs, cnt) => s.(cbt := C.MarkBoth(s.cbt, ofs, cnt).0)
    case ImageWrite(ofs, data) =>
      var (c1, st) := C.MarkBoth(s.cbt, ofs, |data|);
      s.(cbt := c1, view := Overwrite(s.view, ofs, data), unmarked := s.unmarked || st != Success)
    case Check(degree, newGen) => if Fits(s) then s else Restarted(s, degree, newGen)
    case Freeze => s.(frozen := Some(s.dev))
    case Close(newGen) =>
      s.(cbt := C.SwitchEpoch(s.cbt, newGen), snap := s.dev, view := s.frozen.value, frozen := None,
         unmarked := false, torn := s.frozen.value != s.dev, drawn := s.drawn + {s.cbt.genActive, newGen})
    case Extend(more) => s.(dev := s.dev + more)
  }

  /** A device put under tracking anew. */
  function Restarted(s: Track, degree: nat, gen: C.Uuid): Track {
    Track(s.dev, C.Allocated(degree, |s.dev|, gen), true, s.dev, None, s.dev, false, false, s.drawn + {gen})
  }

  predicate Legal(s: Track, evs: seq<Event>)
    decreases |evs|
  {
    evs == [] || (Possible(s, evs[0]) && Legal(Step(s, evs[0]), evs[1..]))
  }

  function Run(s: Track, evs: seq<Event>): Track
    requires Legal(s, evs)
    decreases |evs|
  {
    if evs == [] then s else Run(Step(s, evs[0]), evs[1..])
  }

  /** A device put under tracking. */
  ghost predicate Started(s: Track) {
    && s.cbt == C.Allocated(s.cbt.degree, |s.dev|, s.cbt.genActive) && |s.dev| < C.TWO64
    && s.snap == s.dev == s.view && s.frozen.None? && !s.unmarked && !s.torn && s.cbt.genActive in s.drawn
  }

  // ---- what every run keeps ----

  /** Epochs of one generation follow each other; the last one leaves a new generation active. */
  predicate EpochsFollow(c: C.Cbt) {
    if c.genActive == c.genPrevious then c.active == c.previous + 1 else c.active == 1 && c.previous == C.EPOCHS
  }

  ghost predicate Shaped(s: Track) {
    && C.Sound(s.cbt) && s.cbt.size == C.CountByShift(s.cbt.capacity, s.cbt.degree) && s.cbt.capacity <= |s.dev|
    && EpochsFollow(s.cbt) && s.cbt.genActive in s.drawn && s.cbt.genPrevious in s.drawn
    && |s.view| <= |s.snap| <= |s.dev| < C.TWO64 && (s.frozen.Some? ==> |s.snap| <= |s.frozen.value| <= |s.dev|)
  }

  /** The sectors of block `b` both contents have are equal. */
  ghost predicate SameBlock(x: seq<Sector>, y: seq<Sector>, degree: nat, b: nat) {
    forall i: nat | i < |x| && i < |y| && C.BlockOf(degree, i) == b :: x[i] == y[i]
  }

  /** The latest capture: its image with all image writes, or the device as it was. */
  function Captured(s: Track, image: bool): seq<Sector> {
    if image then s.view else s.snap
  }

  /** The image, where it is meant, is what the epoch was closed with, but for writes that were marked. */
  predicate Whole(s: Track, image: bool) {
    image ==> !s.unmarked && !s.torn
  }

  /** A block not marked in the current epoch is still as captured, and as frozen. */
  ghost predicate Fresh(s: Track, b: nat, image: bool)
    requires Shaped(s) && b < s.cbt.size
  {
    s.active && s.cbt.write[b] < s.cbt.active ==>
      && (Whole(s, image) ==> SameBlock(Captured(s, image), s.dev, s.cbt.degree, b))
      && (s.frozen.Some? ==> SameBlock(s.frozen.value, s.dev, s.cbt.degree, b))
  }

  ghost predicate AllFresh(s: Track, image: bool)
    requires Shaped(s)
  {
    forall b: nat | b < s.cbt.size :: Fresh(s, b, image)
  }

  predicate OfGeneration(c: C.Cbt, gen: C.Uuid) {
    c.genActive == gen || c.genPrevious == gen
  }

  /** As long as the generation is that of `base`, so is the map, and tracking was never off. */
  ghost predicate Kin(base: Track, s: Track) {
    && base.cbt.genPrevious in s.drawn
    && (OfGeneration(s.cbt, base.cbt.genPrevious) ==>
          s.cbt.degree == base.cbt.degree && s.cbt.size == base.cbt.size && (s.active ==> base.active))
  }

  /**
   * Since `base`, whatever changed in block `b` left a number above that of `base`'s epoch; `later`
   * tells whether there was a capture since.
   */
  ghost predicate Tells(base: Track, s: Track, b: nat, image: bool, later: bool)
    requires Shaped(base) && Shaped(s) && Kin(base, s) && b < base.cbt.size
  {
    var gen, k, d, x := base.cbt.genPrevious, base.cbt.previous, base.cbt.degree, Captured(base, image);
    && |x| <= |s.dev| && (s.cbt.genActive == gen ==> s.cbt.active > k)
    && (later && s.cbt.genPrevious == gen ==> s.cbt.previous > k)
    && (s.active && s.cbt.genActive == gen && s.cbt.write[b] <= k ==> SameBlock(x, s.dev, d, b))
    && (s.active && s.cbt.genPrevious == gen && s.cbt.read[b] <= k && (image ==> later && !s.unmarked) ==>
          SameBlock(x, Captured(s, image), d, b))
  }

  /** A write that meets no sector of a block leaves the block alone. */
  lemma WriteElsewhere(degree: nat, x: seq<Sector>, ofs: nat, data: seq<Sector>, b: nat)
    requires ofs < |x| && |data| > 0
    requires var cnt := Clamped(|x|, ofs, |data|);
             !(C.BlockOf(degree, ofs) <= b <= C.BlockOf(degree, ofs + cnt - 1))
    ensures forall i: nat | i < |x| && C.BlockOf(degree, i) == b :: x[i] == Overwrite(x, ofs, data)[i]
  {
    var cnt, d := Clamped(|x|, ofs, |data|), C.Pow2(degree);
    forall i: nat | i < |x| && C.BlockOf(degree, i) == b
      ensures x[i] == Overwrite(x, ofs, data)[i]
    {
      if ofs <= i < ofs + |data| {
        DivMonotone(ofs, i, d);
        DivMonotone(i, ofs + cnt - 1, d);
      }
    }
  }

  /** A write that leaves tracking on raises the blocks it meets, and changes no others. */
  lemma WriteMarks(s: Track, ofs: nat, data: seq<Sector>, b: nat)
    requires Shaped(s) && b < s.cbt.size && Possible(s, Write(ofs, data)) && Step(s, Write(ofs, data)).active
    ensures var s1 := Step(s, Write(ofs, data));
            && s.active && s1.cbt.write[b] >= s.cbt.write[b]
            && (s1.cbt.write[b] >= s.cbt.active
                || forall i: nat | i < |s.dev| && C.BlockOf(s.cbt.degree, i) == b :: s.dev[i] == s1.dev[i])
  {
    var cnt := Clamped(|s.dev|, ofs, |data|);
    C.RangeMarks(s.cbt, ofs, cnt, b);
    if !(C.BlockOf(s.cbt.degree, ofs) <= b <= C.BlockOf(s.cbt.degree, ofs + cnt - 1)) {
      WriteElsewhere(s.cbt.degree, s.dev, ofs, data, b);
    }
  }

  lemma WriteShaped(s: Track, ofs: nat, data: seq<Sector>)
    requires Shaped(s) && Possible(s, Write(ofs, data))
    ensures Shaped(Step(s, Write(ofs, data)))
  {
    var s1 := Step(s, Write(ofs, data));
    if s1.active && s1.cbt.size > 0 {
      WriteMarks(s, ofs, data, 0);
    }
  }

  lemma WriteKeeps(base: Track, s: Track, ofs: nat, data: seq<Sector>, b: nat, image: bool, later: bool)
    requires Shaped(base) && Shaped(s) && Kin(base, s) && b < base.cbt.size && Possible(s, Write(ofs, data))
    requires Tells(base, s, b, image, later)
    ensures var s1 := Step(s, Write(ofs, data)); Shaped(s1) && Kin(base, s1) && Tells(base, s1, b, image, later)
  {
    WriteShaped(s, ofs, data);
    if Step(s, Write(ofs, data)).active && OfGeneration(s.cbt, base.cbt.genPrevious) {
      WriteMarks(s, ofs, data, b);
    }
  }

  lemma WriteFresh(s: Track, ofs: nat, data: seq<Sector>, b: nat, image: bool)
    requires Shaped(s) && b < s.cbt.size && Possible(s, Write(ofs, data)) && Fresh(s, b, image)
    ensures var s1 := Step(s, Write(ofs, data)); Shaped(s1) && Fresh(s1, b, image)
  {
    WriteShaped(s, ofs, data);
    if Step(s, Write(ofs, data)).active {
      WriteMarks(s, ofs, data, b);
    }
  }

  /** An image write that is marked marks all blocks it changes, for this capture and the next. */
  lemma ImageWriteMarks(s: Track, ofs: nat, data: seq<Sector>, b: nat)
    requires Shaped(s) && b < s.cbt.size && Possible(s, ImageWrite(ofs, data))
    requires !Step(s, ImageWrite(ofs, data)).unmarked
    ensures var s1, d := Step(s, ImageWrite(ofs, data)), s.cbt.degree;
            if C.BlockOf(d, ofs) <= b <= C.BlockOf(d, ofs + |data| - 1)
            then s1.cbt.write[b] >= s.cbt.active && s1.cbt.read[b] >= s.cbt.previous
            else forall i: nat | i < |s.view| && C.BlockOf(d, i) == b :: s.view[i] == s1.view[i]
  {
    assert (ofs + |data| + C.TWO64 - 1) % C.TWO64 == ofs + |data| - 1;
    if !(C.BlockOf(s.cbt.degree, ofs) <= b <= C.BlockOf(s.cbt.degree, ofs + |data| - 1)) {
      WriteElsewhere(s.cbt.degree, s.view, ofs, data, b);
    }
  }

  lemma ImageWriteKeeps(base: Track, s: Track, ofs: nat, data: seq<Sector>, b: nat, image: bool, later: bool)
    requires Shaped(base) && Shaped(s) && Kin(base, s) && b < base.cbt.size && Possible(s, ImageWrite(ofs, data))
    requires Tells(base, s, b, image, later)
    ensures var s1 := Step(s, ImageWrite(ofs, data)); Shaped(s1) && Kin(base, s1) && Tells(base, s1, b, image, later)
  {
    var s1 := Step(s, ImageWrite(ofs, data));
    if image && !s1.unmarked && OfGeneration(s.cbt, base.cbt.genPrevious) {
      ImageWriteMarks(s, ofs, data, b);
    }
  }

  lemma ImageWriteFresh(s: Track, ofs: nat, data: seq<Sector>, b: nat, image: bool)
    requires Shaped(s) && b < s.cbt.size && Possible(s, ImageWrite(ofs, data)) && Fresh(s, b, image)
    ensures var s1 := Step(s, ImageWrite(ofs, data)); Shaped(s1) && Fresh(s1, b, image)
  {
    if image && !Step(s, ImageWrite(ofs, data)).unmarked {
      ImageWriteMarks(s, ofs, data, b);
    }
  }

  lemma CloseKeeps(base: Track, s: Track, newGen: C.Uuid, b: nat, image: bool, later: bool)
    requires Shaped(base) && Shaped(s) && Kin(base, s) && b < base.cbt.size && Possible(s, Close(newGen))
    requires AllFresh(s, image) && Tells(base, s, b, image, later)
    ensures var s1 := Step(s, Close(newGen)); Shaped(s1) && Kin(base, s1) && Tells(base, s1, b, image, true)
  {
    CloseFresh(s, newGen, image);
    StepKin(base, s, Close(newGen));
    if OfGeneration(s.cbt, base.cbt.genPrevious) {
      assert Fresh(s, b, image);
    }
  }

  lemma CloseFresh(s: Track, newGen: C.Uuid, image: bool)
    requires Shaped(s) && Possible(s, Close(newGen))
    ensures var s1 := Step(s, Close(newGen)); Shaped(s1) && AllFresh(s1, image)
  {
  }

  /** A map that does not fit is replaced by one of a generation never seen. */
  lemma CheckKeeps(base: Track, s: Track, degree: nat, newGen: C.Uuid, b: nat, image: bool, later: bool)
    requires Shaped(base) && Shaped(s) && Kin(base, s) && b < base.cbt.size && Possible(s, Check(degree, newGen))
    requires Tells(base, s, b, image, later)
    ensures var s1 := Step(s, Check(degree, newGen)); Shaped(s1) && Kin(base, s1) && Tells(base, s1, b, image, later)
  {
    StepKin(base, s, Check(degree, newGen));
  }

  /** Marking only raises numbers. */
  lemma DirtyKeeps(base: Track, s: Track, ofs: nat, cnt: nat, b: nat, image: bool, later: bool)
    requires Shaped(base) && Shaped(s) && Kin(base, s) && b < base.cbt.size && Tells(base, s, b, image, later)
    ensures var s1 := Step(s, Dirty(ofs, cnt)); Shaped(s1) && Kin(base, s1) && Tells(base, s1, b, image, later)
  {
  }

  lemma ExtendKeeps(base: Track, s: Track, more: seq<Sector>, b: nat, image: bool, later: bool)
    requires Shaped(base) && Shaped(s) && Kin(base, s) && b < base.cbt.size && Tells(base, s, b, image, later)
    requires Possible(s, Extend(more))
    ensures var s1 := Step(s, Extend(more)); Shaped(s1) && Kin(base, s1) && Tells(base, s1, b, image, later)
  {
  }

  lemma FreezeKeeps(base: Track, s: Track, b: nat, image: bool, later: bool)
    requires Shaped(base) && Shaped(s) && Kin(base, s) && b < base.cbt.size && Tells(base, s, b, image, later)
    requires Possible(s, Freeze)
    ensures var s1 := Step(s, Freeze); Shaped(s1) && Kin(base, s1) && Tells(base, s1, b, image, later)
  {
  }

  lemma QuietFresh(s: Track, ev: Event, image: bool)
    requires Shaped(s) && Possible(s, ev) && AllFresh(s, image) && (ev.Dirty? || ev.Freeze? || ev.Extend?)
    ensures var s1 := Step(s, ev); Shaped(s1) && AllFresh(s1, image)
  {
    forall b: nat | b < s.cbt.size
      ensures Shaped(Step(s, ev)) && Fresh(Step(s, ev), b, image)
    {
      assert Fresh(s, b, image);
    }
  }

  predicate Recaptured(evs: seq<Event>) {
    exists k :: 0 <= k < |evs| && evs[k].Close?
  }

  lemma StepTells(base: Track, s: Track, ev: Event, b: nat, image: bool, later: bool)
    requires Shaped(base) && Shaped(s) && Kin(base, s) && b < base.cbt.size && Possible(s, ev)
    requires Tells(base, s, b, image, later) && AllFresh(s, image)
    ensures var s1 := Step(s, ev);
            Shaped(s1) && Kin(base, s1) && Tells(base, s1, b, image, later || ev.Close?)
  {
    match ev
    case Write(ofs, data) => WriteKeeps(base, s, ofs, data, b, image, later);
    case ImageWrite(ofs, data) => ImageWriteKeeps(base, s, ofs, data, b, image, later);
    case Close(newGen) => CloseKeeps(base, s, newGen, b, image, later);
    case Check(degree, newGen) => CheckKeeps(base, s, degree, newGen, b, image, later);
    case Dirty(ofs, cnt) => DirtyKeeps(base, s, ofs, cnt, b, image, later);
    case Extend(more) => ExtendKeeps(base, s, more, b, image, later);
    case Freeze => FreezeKeeps(base, s, b, image, later);
  }

  lemma StepFresh(s: Track, ev: Event, image: bool)
    requires Shaped(s) && Possible(s, ev) && AllFresh(s, image)
    ensures Shaped(Step(s, ev)) && AllFresh(Step(s, ev), image)
  {
    match ev
    case Write(ofs, data) =>
      WriteShaped(s, ofs, data);
      forall b: nat | b < s.cbt.size
        ensures Fresh(Step(s, ev), b, image)
      {
        WriteFresh(s, ofs, data, b, image);
      }
    case ImageWrite(ofs, data) =>
      forall b: nat | b < s.cbt.size
        ensures Shaped(Step(s, ev)) && Fresh(Step(s, ev), b, image)
      {
        ImageWriteFresh(s, ofs, data, b, image);
      }
    case Close(newGen) => CloseFresh(s, newGen, image);
    case Check(degree, newGen) =>
    case _ => QuietFresh(s, ev, image);
  }

  lemma {:induction false} RunFresh(s: Track, evs: seq<Event>, image: bool)
    requires Shaped(s) && AllFresh(s, image) && Legal(s, evs)
    ensures Shaped(Run(s, evs)) && AllFresh(Run(s, evs), image)
    decreases |evs|
  {
    if evs != [] {
      StepFresh(s, evs[0], image);
      RunFresh(Step(s, evs[0]), evs[1..], image);
    }
  }

  lemma StepKin(base: Track, s: Track, ev: Event)
    requires Shaped(s) && Kin(base, s) && Possible(s, ev)
    ensures Kin(base, Step(s, ev))
  {
    if !ev.Check? || Fits(s) {
      MapOrGenerationStays(s, ev);
    }
  }

  lemma MapOrGenerationStays(s: Track, ev: Event)
    requires Shaped(s) && Possible(s, ev) && (ev.Check? ==> Fits(s))
    ensures var s1 := Step(s, ev);
            && s1.cbt.degree == s.cbt.degree && s1.cbt.size == s.cbt.size && (s1.active ==> s.active)
            && s.drawn <= s1.drawn
            && forall gen | gen in s.drawn && OfGeneration(s1.cbt, gen) :: OfGeneration(s.cbt, gen)
  {
  }

  lemma {:induction false} RunKin(base: Track, s: Track, evs: seq<Event>, image: bool)
    requires Shaped(s) && AllFresh(s, image) && Kin(base, s) && Legal(s, evs)
    ensures Kin(base, Run(s, evs))
    decreases |evs|
  {
    if evs != [] {
      StepKin(base, s, evs[0]);
      StepFresh(s, evs[0], image);
      RunKin(base, Step(s, evs[0]), evs[1..], image);
    }
  }

  lemma {:induction false} RunTells(base: Track, s: Track, evs: seq<Event>, b: nat, image: bool, later: bool)
    requires Shaped(base) && Shaped(s) && Kin(base, s) && b < base.cbt.size && Legal(s, evs)
    requires Tells(base, s, b, image, later) && AllFresh(s, image)
    ensures var s1 := Run(s, evs); Shaped(s1) && Kin(base, s1) && Tells(base, s1, b, image, later || Recaptured(evs))
    decreases |evs|
  {
    if evs != [] {
      StepTells(base, s, evs[0], b, image, later);
      StepFresh(s, evs[0], image);
      RunTells(base, Step(s, evs[0]), evs[1..], b, image, later || evs[0].Close?);
      RecapturedTail(evs);
    }
  }

  /** No capture is shorter than one before. */
  lemma {:induction false} RunGrows(s: Track, evs: seq<Event>, n: nat)
    requires Shaped(s) && AllFresh(s, false) && Legal(s, evs) && n <= |s.snap|
    ensures n <= |Run(s, evs).snap| && (n <= |s.view| || Recaptured(evs) ==> n <= |Run(s, evs).view|)
    decreases |evs|
  {
    if evs != [] {
      StepFresh(s, evs[0], false);
      RunGrows(Step(s, evs[0]), evs[1..], n);
      RecapturedTail(evs);
    }
  }

  /** At any point of an epoch, its blocks not marked in it are still as captured. */
  lemma BaseTells(base: Track, b: nat, image: bool)
    requires Shaped(base) && b < base.cbt.size && AllFresh(base, image) && Whole(base, image)
    ensures Tells(base, base, b, image, false)
  {
    assert Fresh(base, b, image);
  }

  lemma RecapturedTail(evs: seq<Event>)
    requires evs != []
    ensures Recaptured(evs) <==> evs[0].Close? || Recaptured(evs[1..])
  {
    if Recaptured(evs) && !evs[0].Close? {
      var k :| 0 <= k < |evs| && evs[k].Close?;
      assert evs[1..][k - 1].Close?;
    }
    if Recaptured(evs[1..]) {
      var k :| 0 <= k < |evs[1..]| && evs[1..][k].Close?;
      assert evs[k + 1].Close?;
    }
  }

  lemma StartFresh(s0: Track, image: bool)
    requires Started(s0)
    ensures Shaped(s0) && AllFresh(s0, image)
  {
  }

  // ---- image writes that go unmarked ----

  /** An image write goes unmarked exactly when it ends in a block the map does not have. */
  lemma ImageWriteFits(s: Track, ofs: nat, data: seq<Sector>)
    requires Shaped(s) && Possible(s, ImageWrite(ofs, data))
    ensures Step(s, ImageWrite(ofs, data)).unmarked
       <==> s.unmarked || C.BlockOf(s.cbt.degree, ofs + |data| - 1) >= s.cbt.size
    ensures ofs + |data| <= s.cbt.capacity ==> C.BlockOf(s.cbt.degree, ofs + |data| - 1) < s.cbt.size
  {
    var last := ofs + |data| - 1;
    assert (ofs + |data| + C.TWO64 - 1) % C.TWO64 == last;
    DivMonotone(ofs, last, C.Pow2(s.cbt.degree));
    if last < s.cbt.capacity {
      C.SectorInMap(s.cbt.degree, s.cbt.capacity, last);
    }
  }

  predicate Unchecked(evs: seq<Event>) {
    forall k | 0 <= k < |evs| :: !evs[k].Check?
  }

  lemma StepMapStays(s: Track, ev: Event)
    requires Possible(s, ev) && !ev.Check?
    ensures var s1 := Step(s, ev);
            && s1.cbt.degree == s.cbt.degree && s1.cbt.capacity == s.cbt.capacity && s1.cbt.size == s.cbt.size
            && |s.dev| <= |s1.dev|
  {
  }

  lemma {:induction false} MapStays(s: Track, evs: seq<Event>)
    requires Shaped(s) && Legal(s, evs) && Unchecked(evs) && AllFresh(s, false)
    ensures var s1 := Run(s, evs);
            && Shaped(s1) && s1.cbt.degree == s.cbt.degree && s1.cbt.capacity == s.cbt.capacity
            && s1.cbt.size == s.cbt.size && |s.dev| <= |s1.dev|
    decreases |evs|
  {
    if evs != [] {
      assert !evs[0].Check?;
      StepFresh(s, evs[0], false);
      StepMapStays(s, evs[0]);
      assert Unchecked(evs[1..]) by {
        forall k | 0 <= k < |evs[1..]|
          ensures !evs[1..][k].Check?
        {
          assert !evs[k + 1].Check?;
        }
      }
      MapStays(Step(s, evs[0]), evs[1..]);
    }
  }

  /**
   * A snapshot is made by checking the map and then capturing.  However long ago the check was, an image
   * write goes unmarked exactly when the device has grown since, and the write ends behind the last
   * block the device had at the check.
   */
  lemma UnmarkedIffGrownSince(s0: Track, before: seq<Event>, degree: nat, newGen: C.Uuid, evs: seq<Event>,
          ofs: nat, data: seq<Sector>)
    requires Started(s0) && Legal(s0, before) && Possible(Run(s0, before), Check(degree, newGen))
    requires Legal(Step(Run(s0, before), Check(degree, newGen)), evs) && Unchecked(evs)
    requires Possible(Run(Step(Run(s0, before), Check(degree, newGen)), evs), ImageWrite(ofs, data))
    ensures var s := Run(s0, before);
            var s1 := Run(Step(s, Check(degree, newGen)), evs);
            && (Step(s1, ImageWrite(ofs, data)).unmarked
                <==> s1.unmarked
                     || C.BlockOf(s1.cbt.degree, ofs + |data| - 1) >= C.CountByShift(|s.dev|, s1.cbt.degree))
            && (Step(s1, ImageWrite(ofs, data)).unmarked && !s1.unmarked ==> |s1.dev| > |s.dev|)
  {
    var s := Run(s0, before);
    StartFresh(s0, false);
    RunFresh(s0, before, false);
    var checked := Step(s, Check(degree, newGen));
    StepFresh(s, Check(degree, newGen), false);
    assert checked.cbt.capacity == |s.dev|;
    MapStays(checked, evs);
    ImageWriteFits(Run(checked, evs), ofs, data);
  }

  /** Eight sectors under tracking, with blocks of eight sectors. */
  function EightSectors(gen: C.Uuid): Track {
    var dev := seq(8, _ => 7);
    Track(dev, C.Allocated(3, 8, gen), true, dev, None, dev, false, false, {gen})
  }

  /**
   * The device is checked, then grows by eight sectors, and then the snapshot is made: a write to the
   * second half of the image is done, and goes unmarked.
   */
  lemma GrownImageExample(gen: C.Uuid, newGen: C.Uuid)
    requires newGen != gen
    ensures var s0 := EightSectors(gen);
            var evs := [Check(3, newGen), Extend(seq(8, _ => 7)), Freeze, Close(newGen), ImageWrite(8, [9])];
            && Started(s0) && Legal(s0, evs) && Run(s0, evs).active && Run(s0, evs).unmarked
            && Run(s0, evs).view == Overwrite(seq(16, _ => 7), 8, [9])
  {
    var s0, more := EightSectors(gen), seq(8, _ => 7);
    assert C.Pow2(1) == 2 && C.Pow2(2) == 4 && C.Pow2(3) == 8;
    assert C.BlockOf(3, 8) == 1 && C.CountByShift(8, 3) == 1;
    var s1 := Step(s0, Extend(more));
    assert s1.dev == seq(16, _ => 7);
    var s3 := Step(Step(s1, Freeze), Close(newGen));
    CloseFresh(Step(s1, Freeze), newGen, true);
    ImageWriteFits(s3, 8, [9]);
    OneMore(s3, ImageWrite(8, [9]), []);
    OneMore(Step(s1, Freeze), Close(newGen), [ImageWrite(8, [9])]);
    OneMore(s1, Freeze, [Close(newGen), ImageWrite(8, [9])]);
    OneMore(s0, Extend(more), [Freeze, Close(newGen), ImageWrite(8, [9])]);
    OneMore(s0, Check(3, newGen), [Extend(more), Freeze, Close(newGen), ImageWrite(8, [9])]);
  }

  lemma OneMore(s: Track, ev: Event, evs: seq<Event>)
    requires Possible(s, ev) && Legal(Step(s, ev), evs)
    ensures Legal(s, [ev] + evs) && Run(s, [ev] + evs) == Run(Step(s, ev), evs)
  {
    assert ([ev] + evs)[1..] == evs;
  }

  // ---- captures in two steps ----

  /** Events that differ in what writes write alone. */
  predicate SameShape(a: seq<Event>, b: seq<Event>) {
    && |a| == |b|
    && forall k | 0 <= k < |a| ::
         if a[k].Write? then b[k].Write? && b[k].ofs == a[k].ofs && |b[k].data| == |a[k].data| else b[k] == a[k]
  }

  predicate Still(evs: seq<Event>) {
    forall k | 0 <= k < |evs| :: !evs[k].Write? && (evs[k].Extend? ==> evs[k].more == [])
  }

  /** Whatever is written, closing the epoch finds the device as it was frozen. */
  ghost predicate WholeWhateverTheData(s: Track, evs: seq<Event>, newGen: C.Uuid) {
    forall evs': seq<Event> | SameShape(evs, evs') && Legal(s, evs') && Possible(Run(s, evs'), Close(newGen)) ::
      !Step(Run(s, evs'), Close(newGen)).torn
  }

  lemma ShapeTail(a: seq<Event>, b: seq<Event>)
    requires SameShape(a, b) && a != []
    ensures SameShape(a[1..], b[1..]) && (Still(a) ==> Still(a[1..]))
  {
    forall k | 0 <= k < |a[1..]|
      ensures if a[1..][k].Write? then b[1..][k].Write? && b[1..][k].ofs == a[1..][k].ofs
                                       && |b[1..][k].data| == |a[1..][k].data| else b[1..][k] == a[1..][k]
      ensures Still(a) ==> !a[1..][k].Write? && (a[1..][k].Extend? ==> a[1..][k].more == [])
    {
      assert a[1..][k] == a[k + 1] && b[1..][k] == b[k + 1];
    }
  }

  /**
   * Between the two steps of a capture: the image is what the epoch is closed with, whatever is written,
   * exactly when nothing is written and the device does not grow.
   */
  lemma WholeIffStill(s: Track, evs: seq<Event>, newGen: C.Uuid)
    requires s.frozen == Some(s.dev) && Legal(s, evs) && Possible(Run(s, evs), Close(newGen))
    requires forall k | 0 <= k < |evs| :: !evs[k].Close?
    ensures WholeWhateverTheData(s, evs, newGen) <==> Still(evs)
  {
    if Still(evs) {
      forall evs': seq<Event> | SameShape(evs, evs') && Legal(s, evs') && Possible(Run(s, evs'), Close(newGen))
        ensures !Step(Run(s, evs'), Close(newGen)).torn
      {
        StillStays(s, evs, evs');
      }
    } else {
      var evs' := SomethingTorn(s, evs);
      SameBounds(s, s, evs, evs');
    }
  }

  lemma {:induction false} StillStays(s: Track, evs: seq<Event>, evs': seq<Event>)
    requires s.frozen.Some? && Still(evs) && SameShape(evs, evs') && Legal(s, evs')
    requires forall k | 0 <= k < |evs| :: !evs[k].Close?
    ensures Run(s, evs').dev == s.dev && Run(s, evs').frozen == s.frozen
    decreases |evs|
  {
    if evs != [] {
      assert !evs[0].Close? && !evs[0].Write? && evs'[0] == evs[0];
      ShapeTail(evs, evs');
      NoCloseTail(evs);
      assert s.dev + [] == s.dev;
      StillStays(Step(s, evs'[0]), evs[1..], evs'[1..]);
    }
  }

  lemma NoCloseTail(evs: seq<Event>)
    requires evs != [] && forall k | 0 <= k < |evs| :: !evs[k].Close?
    ensures forall k | 0 <= k < |evs[1..]| :: !evs[1..][k].Close?
  {
    forall k | 0 <= k < |evs[1..]|
      ensures !evs[1..][k].Close?
    {
      assert !evs[k + 1].Close?;
    }
  }

  /** What decides whether an event is possible is the same for all data. */
  lemma {:induction false} SameBounds(s: Track, t: Track, evs: seq<Event>, evs': seq<Event>)
    requires SameShape(evs, evs') && Legal(s, evs) && |t.dev| == |s.dev| && |t.view| == |s.view| && t.drawn == s.drawn
    requires t.frozen == s.frozen && s.frozen.Some? && forall k | 0 <= k < |evs| :: !evs[k].Close?
    ensures Legal(t, evs')
    ensures var s1, t1 := Run(s, evs), Run(t, evs'); t1.frozen == s1.frozen == s.frozen && t1.drawn == s1.drawn
    decreases |evs|
  {
    if evs != [] {
      assert !evs[0].Close?;
      ShapeTail(evs, evs');
      NoCloseTail(evs);
      SameBounds(Step(s, evs[0]), Step(t, evs'[0]), evs[1..], evs'[1..]);
    }
  }

  function AllWriting(evs: seq<Event>, v: Sector): (r: seq<Event>)
    ensures SameShape(evs, r)
  {
    seq(|evs|, k requires 0 <= k < |evs| =>
      if evs[k].Write? then Write(evs[k].ofs, seq(|evs[k].data|, _ => v)) else evs[k])
  }

  /** Writes of one value never take it back where it is. */
  lemma {:induction false} ValueStays(s: Track, evs: seq<Event>, v: Sector, i: nat)
    requires Legal(s, AllWriting(evs, v)) && i < |s.dev|
    ensures var s1 := Run(s, AllWriting(evs, v));
            i < |s1.dev| && |s.dev| <= |s1.dev| && (s.dev[i] == v ==> s1.dev[i] == v)
    decreases |evs|
  {
    var all := AllWriting(evs, v);
    if evs != [] {
      assert all[1..] == AllWriting(evs[1..], v);
      ValueStays(Step(s, all[0]), evs[1..], v, i);
    }
  }

  /** With a write or a growth among the events, some data change the device. */
  lemma SomethingTorn(s: Track, evs: seq<Event>) returns (evs': seq<Event>)
    requires s.frozen == Some(s.dev) && Legal(s, evs) && !Still(evs)
    requires forall k | 0 <= k < |evs| :: !evs[k].Close?
    ensures SameShape(evs, evs') && Legal(s, evs') && Run(s, evs').dev != s.dev
  {
    if k :| 0 <= k < |evs| && evs[k].Write? && evs[k].ofs < |s.dev| {
      var i, v := evs[k].ofs, s.dev[evs[k].ofs] + 1;
      evs' := AllWriting(evs, v);
      SameBounds(s, s, evs, evs');
      WrittenIs(s, evs, v, i, k);
    } else {
      evs' := evs;
      assert SameShape(evs, evs);
      LongerThan(s, evs);
    }
  }

  lemma {:induction false} WrittenIs(s: Track, evs: seq<Event>, v: Sector, i: nat, k: nat)
    requires Legal(s, AllWriting(evs, v)) && i < |s.dev| && k < |evs| && evs[k].Write? && evs[k].ofs == i
    ensures var s1 := Run(s, AllWriting(evs, v)); i < |s1.dev| && s1.dev[i] == v
    decreases |evs|
  {
    var all := AllWriting(evs, v);
    assert all[1..] == AllWriting(evs[1..], v);
    if k == 0 {
      ValueStays(Step(s, all[0]), evs[1..], v, i);
    } else {
      assert i < |Step(s, all[0]).dev|;
      WrittenIs(Step(s, all[0]), evs[1..], v, i, k - 1);
    }
  }

  /** Where no write meets the device as it was, but something happens to it, it grows. */
  lemma {:induction false} LongerThan(s: Track, evs: seq<Event>)
    requires Legal(s, evs) && !Still(evs)
    requires forall k | 0 <= k < |evs| && evs[k].Write? :: evs[k].ofs >= |s.dev|
    ensures |Run(s, evs).dev| > |s.dev|
    decreases |evs|
  {
    var s1 := Step(s, evs[0]);
    Longer(s1, evs[1..]);
    if |s1.dev| == |s.dev| {
      var k :| 0 <= k < |evs| && (evs[k].Write? || (evs[k].Extend? && evs[k].more != []));
      assert k > 0 && evs[1..][k - 1] == evs[k];
      forall j | 0 <= j < |evs[1..]| && evs[1..][j].Write?
        ensures evs[1..][j].ofs >= |s1.dev|
      {
        assert evs[1..][j] == evs[j + 1];
      }
      LongerThan(s1, evs[1..]);
    }
  }

  lemma {:induction false} Longer(s: Track, evs: seq<Event>)
    requires Legal(s, evs)
    ensures |Run(s, evs).dev| >= |s.dev|
    decreases |evs|
  {
    if evs != [] {
      Longer(Step(s, evs[0]), evs[1..]);
    }
  }

  /**
   * If the next capture follows at once, the incremental backup of it is exact just when the image of this
   * one has, in all blocks of the map, what the epoch was closed with.
   */
  lemma NextBackupIff(u: Track, gen1: C.Uuid, gen2: C.Uuid)
    requires Shaped(u) && Possible(u, Close(gen1)) && gen2 !in u.drawn && gen2 != gen1
    requires Step(u, Close(gen1)).cbt.genActive == u.cbt.genActive
    ensures var s1 := Step(u, Close(gen1));
            var s2 := Step(Step(s1, Freeze), Close(gen2));
            && s2.cbt.genPrevious == s1.cbt.genPrevious && |s1.view| <= |s2.view|
            && |s2.cbt.read| == s2.cbt.size == C.CountByShift(s2.cbt.capacity, s2.cbt.degree)
            && (Incremental(s1.view, s2.view, s2.cbt, s1.cbt.previous) == s2.view
                <==> forall i | 0 <= i < |s1.view| && C.BlockOf(s1.cbt.degree, i) < s1.cbt.size ::
                       s1.view[i] == s1.snap[i])
  {
    var s1 := Step(u, Close(gen1));
    var s2 := Step(Step(s1, Freeze), Close(gen2));
    assert s2.view == s1.dev == s1.snap;
    var r := Incremental(s1.view, s2.view, s2.cbt, s1.cbt.previous);
    forall i | 0 <= i < |s2.view|
      ensures r[i] == if i < |s1.view| && C.BlockOf(s1.cbt.degree, i) < s1.cbt.size then s1.view[i] else s1.snap[i]
    {
    }
    if forall i | 0 <= i < |s1.view| && C.BlockOf(s1.cbt.degree, i) < s1.cbt.size :: s1.view[i] == s1.snap[i] {
      assert r == s2.view;
    }
  }

  /**
   * A write between the two steps is marked in the epoch of the capture whose image does not hold it: the
   * next capture does not number its block above this one, although the images differ there.
   */
  lemma TornCaptureExample(gen: C.Uuid, gen1: C.Uuid, gen2: C.Uuid)
    requires gen != gen1 && gen1 != gen2 && gen != gen2
    ensures var s0 := EightSectors(gen);
            var before := [Freeze, Write(0, [9]), Close(gen1)];
            && Started(s0) && Legal(s0, before) && Legal(Run(s0, before), [Freeze, Close(gen2)])
            && var s1 := Run(s0, before);
               var s2 := Run(s1, [Freeze, Close(gen2)]);
               && s2.active && !s2.unmarked && s2.cbt.genPrevious == s1.cbt.genPrevious
               && |s2.cbt.read| == 1 && s2.cbt.read[0] <= s1.cbt.previous
               && |s1.view| == |s2.view| == 8 && s1.view[0] == 7 && s2.view[0] == 9
  {
    var s0 := EightSectors(gen);
    assert C.Pow2(1) == 2 && C.Pow2(2) == 4 && C.Pow2(3) == 8;
    assert C.BlockOf(3, 0) == 0 && C.CountByShift(8, 3) == 1;
    var frozen := Step(s0, Freeze);
    var written := Step(frozen, Write(0, [9]));
    WriteMarks(frozen, 0, [9], 0);
    var s1 := Step(written, Close(gen1));
    OneMore(written, Close(gen1), []);
    OneMore(frozen, Write(0, [9]), [Close(gen1)]);
    OneMore(s0, Freeze, [Write(0, [9]), Close(gen1)]);
    OneMore(Step(s1, Freeze), Close(gen2), []);
    OneMore(s1, Freeze, [Close(gen2)]);
  }

  // ---- the theorems ----

  /**
   * A block whose readable number after a later capture is at most the number of an earlier capture of
   * the same generation has the contents it had then: on the device when the epochs were closed, while
   * tracking stayed active, and in the images with all image writes, while those to the two images could
   * be marked and nothing was written between the two steps of the earlier capture.
   */
  lemma UnmarkedMeansUnchanged(s0: Track, before: seq<Event>, since: seq<Event>, b: nat, image: bool)
    requires Started(s0) && Legal(s0, before) && Legal(Run(s0, before), since) && Whole(Run(s0, before), image)
    requires var s1 := Run(s0, before);
             var s2 := Run(s1, since);
             && s2.active && (image ==> Recaptured(since) && !s2.unmarked)
             && s2.cbt.genPrevious == s1.cbt.genPrevious
             && b < s1.cbt.size && b < |s2.cbt.read| && s2.cbt.read[b] <= s1.cbt.previous
    ensures var s1 := Run(s0, before);
            SameBlock(Captured(s1, image), Captured(Run(s1, since), image), s1.cbt.degree, b)
  {
    var s1 := Run(s0, before);
    BaseRun(s0, before, since, b, image);
  }

  /** What the run since the base tells of a block. */
  lemma BaseRun(s0: Track, before: seq<Event>, since: seq<Event>, b: nat, image: bool)
    requires Started(s0) && Legal(s0, before) && Legal(Run(s0, before), since) && Whole(Run(s0, before), image)
    ensures var s1 := Run(s0, before);
            && Shaped(s1) && AllFresh(s1, image) && Shaped(Run(s1, since)) && Kin(s1, Run(s1, since))
            && (b < s1.cbt.size ==> Tells(s1, Run(s1, since), b, image, Recaptured(since)))
  {
    var s1 := Run(s0, before);
    StartFresh(s0, image);
    RunFresh(s0, before, image);
    RunFresh(s1, since, image);
    RunKin(s1, s1, since, image);
    if b < s1.cbt.size {
      BaseTells(s1, b, image);
      RunTells(s1, s1, since, b, image, false);
    }
  }

  /** The later capture, put together from the earlier one and the blocks numbered above it. */
  function Incremental(full: seq<Sector>, later: seq<Sector>, c: C.Cbt, k: nat): (r: seq<Sector>)
    requires |full| <= |later| && |c.read| == c.size == C.CountByShift(c.capacity, c.degree)
    ensures |r| == |later|
  {
    seq(|later|, i requires 0 <= i < |later| =>
      var b := C.BlockOf(c.degree, i);
      if i < |full| && b < c.size && c.read[b] <= k then full[i] else later[i])
  }

  /**
   * A backup that takes from a later capture just the blocks numbered above the capture it has already
   * holds the later capture exactly: the device contents, or the image with all its image writes.
   */
  lemma IncrementalBackupIsExact(s0: Track, before: seq<Event>, since: seq<Event>, image: bool)
    requires Started(s0) && Legal(s0, before) && Legal(Run(s0, before), since) && Whole(Run(s0, before), image)
    requires var s1 := Run(s0, before);
             var s2 := Run(s1, since);
             && Recaptured(since) && s2.active && (image ==> !s2.unmarked)
             && s2.cbt.genPrevious == s1.cbt.genPrevious
    ensures var s1 := Run(s0, before);
            var s2 := Run(s1, since);
            var full, later := Captured(s1, image), Captured(s2, image);
            && |full| <= |later| && |s2.cbt.read| == s2.cbt.size == C.CountByShift(s2.cbt.capacity, s2.cbt.degree)
            && Incremental(full, later, s2.cbt, s1.cbt.previous) == later
  {
    var s1 := Run(s0, before);
    var s2 := Run(s1, since);
    BaseRun(s0, before, since, 0, image);
    BaseRun(s0, before, since, 0, false);
    RunGrows(s1, since, |s1.snap|);
    var full, later := Captured(s1, image), Captured(s2, image);
    forall i: nat | i < |full| && C.BlockOf(s2.cbt.degree, i) < s2.cbt.size
                    && s2.cbt.read[C.BlockOf(s2.cbt.degree, i)] <= s1.cbt.previous
      ensures full[i] == later[i]
    {
      SectorUnchanged(s0, before, since, i, image);
    }
    assert Incremental(full, later, s2.cbt, s1.cbt.previous) == later;
  }

  lemma SectorUnchanged(s0: Track, before: seq<Event>, since: seq<Event>, i: nat, image: bool)
    requires Started(s0) && Legal(s0, before) && Legal(Run(s0, before), since) && Whole(Run(s0, before), image)
    requires var s1 := Run(s0, before);
             var s2 := Run(s1, since);
             && s2.active && (image ==> Recaptured(since) && !s2.unmarked)
             && s2.cbt.genPrevious == s1.cbt.genPrevious && i < |Captured(s1, image)| && i < |Captured(s2, image)|
             && C.BlockOf(s2.cbt.degree, i) < |s2.cbt.read|
             && s2.cbt.read[C.BlockOf(s2.cbt.degree, i)] <= s1.cbt.previous
    ensures Captured(Run(s0, before), image)[i] == Captured(Run(Run(s0, before), since), image)[i]
  {
    var s1 := Run(s0, before);
    BaseRun(s0, before, since, 0, image);
    var b := C.BlockOf(Run(s1, since).cbt.degree, i);
    UnmarkedMeansUnchanged(s0, before, since, b, image);
  }
}
