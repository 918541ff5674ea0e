/**
 * How precise changed-block tracking is: exactly which entries an event raises, exactly when tracking
 * ends, and that blocks nothing has met are left out of an incremental backup.
 */
module CbtPrecision {
  import opened Basics
  import opened CowEngine
  import C = CbtMap
  import opened CbtTracking

  // ---- entries ----

  /** The block has a sector of the range. */
  predicate MeetsRange(degree: nat, ofs: nat, cnt: nat, b: nat) {
    cnt > 0 && ofs / C.Pow2(degree) <= b <= (ofs + cnt - 1) / C.Pow2(degree)
  }

  function AtLeast(entry: nat, num: nat): nat {
    if entry < num then num else entry
  }

  /**
   * A write that reaches the device is tracked exactly while tracking is on and the device has the size its
   * map was made for; any other ends tracking.  It raises the blocks it meets and changes nothing else.
   */
  lemma WriteEffect(s: Track, ofs: nat, data: seq<Sector>, b: nat)
    requires Shaped(s) && b < s.cbt.size && Possible(s, Write(ofs, data))
    ensures var s1 := Step(s, Write(ofs, data));
            && (s1.active <==> s.active && s.cbt.capacity == |s.dev|)
            && s1 == s.(dev := s1.dev, active := s1.active, cbt := s.cbt.(write := s1.cbt.write))
            && |s1.cbt.write| == s.cbt.size
            && s1.cbt.write[b] == if s1.active && MeetsRange(s.cbt.degree, ofs, Min(|data|, |s.dev| - ofs), b)
                                  then AtLeast(s.cbt.write[b], s.cbt.active) else s.cbt.write[b]
  {
    var cnt := Clamped(|s.dev|, ofs, |data|);
    C.RangeMarks(s.cbt, ofs, cnt, b);
    C.SectorInMap(s.cbt.degree, |s.dev|, ofs + cnt - 1);
  }

  /** Whatever the map, a write is tracked exactly then. */
  lemma WriteTracked(s: Track, ofs: nat, data: seq<Sector>)
    requires Shaped(s) && Possible(s, Write(ofs, data))
    ensures Step(s, Write(ofs, data)).active <==> s.active && s.cbt.capacity == |s.dev|
  {
    if s.cbt.size > 0 {
      WriteEffect(s, ofs, data, 0);
    } else if s.cbt.capacity == |s.dev| {
      C.SectorInMap(s.cbt.degree, |s.dev|, ofs);
    }
  }

  /**
   * Marking both maps by request raises the met blocks of the map being written, and those of the readable
   * one if the range ends in the map; the status tells.  Image writes are marked like this.
   */
  lemma BothEffect(c: C.Cbt, ofs: nat, cnt: nat, b: nat)
    requires C.Sound(c) && b < c.size && cnt > 0 && ofs + cnt <= C.TWO64
    ensures var (c1, st) := C.MarkBoth(c, ofs, cnt);
            var inMap := (ofs + cnt - 1) / C.Pow2(c.degree) < c.size;
            && st == (if inMap then Success else EInval)
            && c1 == c.(read := c1.read, write := c1.write) && |c1.read| == |c1.write| == c.size
            && c1.write[b] == (if MeetsRange(c.degree, ofs, cnt, b) then AtLeast(c.write[b], c.active) else c.write[b])
            && c1.read[b] == if inMap && MeetsRange(c.degree, ofs, cnt, b) then AtLeast(c.read[b], c.previous)
                             else c.read[b]
  {
    C.RangeMarks(c, ofs, cnt, b);
    C.RangeMarks(c.(write := c.read, active := c.previous), ofs, cnt, b);
  }

  /**
   * An image write is marked like this whether tracking is on or not, and done in any case; it is remembered
   * when the marking failed.
   */
  lemma ImageWriteEffect(s: Track, ofs: nat, data: seq<Sector>, b: nat, i: nat)
    requires Shaped(s) && b < s.cbt.size && Possible(s, ImageWrite(ofs, data)) && i < |s.view|
    ensures var s1, d := Step(s, ImageWrite(ofs, data)), s.cbt.degree;
            var inMap, meets := (ofs + |data| - 1) / C.Pow2(d) < s.cbt.size, MeetsRange(d, ofs, |data|, b);
            && s1 == s.(cbt := s.cbt.(read := s1.cbt.read, write := s1.cbt.write), view := s1.view,
                        unmarked := s.unmarked || !inMap)
            && |s1.cbt.read| == |s1.cbt.write| == s.cbt.size && |s1.view| == |s.view|
            && s1.cbt.write[b] == (if meets then AtLeast(s.cbt.write[b], s.cbt.active) else s.cbt.write[b])
            && s1.cbt.read[b] == (if inMap && meets then AtLeast(s.cbt.read[b], s.cbt.previous) else s.cbt.read[b])
            && s1.view[i] == if ofs <= i < ofs + |data| then data[i - ofs] else s.view[i]
  {
    BothEffect(s.cbt, ofs, |data|, b);
  }

  /** So are blocks marked by request, which touches nothing else. */
  lemma DirtyEffect(s: Track, ofs: nat, cnt: nat, b: nat)
    requires Shaped(s) && b < s.cbt.size && cnt > 0 && ofs + cnt <= C.TWO64
    ensures var s1, d := Step(s, Dirty(ofs, cnt)), s.cbt.degree;
            var inMap, meets := (ofs + cnt - 1) / C.Pow2(d) < s.cbt.size, MeetsRange(d, ofs, cnt, b);
            && s1 == s.(cbt := s.cbt.(read := s1.cbt.read, write := s1.cbt.write))
            && |s1.cbt.read| == |s1.cbt.write| == s.cbt.size
            && s1.cbt.write[b] == (if meets then AtLeast(s.cbt.write[b], s.cbt.active) else s.cbt.write[b])
            && s1.cbt.read[b] == if inMap && meets then AtLeast(s.cbt.read[b], s.cbt.previous) else s.cbt.read[b]
  {
    BothEffect(s.cbt, ofs, cnt, b);
  }

  // ---- when tracking ends ----

  /** Some write comes behind a growth of the device; `grown` tells whether it has grown before. */
  predicate WritesGrown(evs: seq<Event>, grown: bool)
    decreases |evs|
  {
    evs != [] && ((grown && evs[0].Write?)
                  || WritesGrown(evs[1..], grown || (evs[0].Extend? && evs[0].more != [])))
  }

  lemma UncheckedTail(evs: seq<Event>)
    requires Unchecked(evs) && evs != []
    ensures !evs[0].Check? && Unchecked(evs[1..])
  {
    forall k | 0 <= k < |evs[1..]|
      ensures !evs[1..][k].Check?
    {
      assert !evs[k + 1].Check?;
    }
  }

  /** Only a write can end tracking, and only a new check can start it again. */
  lemma OthersKeepActive(s: Track, ev: Event)
    requires Shaped(s) && Possible(s, ev) && !ev.Write? && !ev.Check?
    ensures var s1 := Step(s, ev); s1.active == s.active && s1.cbt.capacity == s.cbt.capacity
  {
  }

  /** Between two checks, tracking that is on ends exactly at the first write behind a growth of the device. */
  lemma {:induction false} EndsIffWritesGrown(s: Track, evs: seq<Event>)
    requires Shaped(s) && AllFresh(s, false) && Legal(s, evs) && Unchecked(evs) && s.active
    ensures Run(s, evs).active <==> !WritesGrown(evs, s.cbt.capacity < |s.dev|)
    decreases |evs|
  {
    if evs != [] {
      var s1 := Step(s, evs[0]);
      UncheckedTail(evs);
      StepFresh(s, evs[0], false);
      if evs[0].Write? {
        WriteTracked(s, evs[0].ofs, evs[0].data);
        StepMapStays(s, evs[0]);
      } else {
        OthersKeepActive(s, evs[0]);
      }
      if s1.active {
        EndsIffWritesGrown(s1, evs[1..]);
      } else {
        StaysOff(s1, evs[1..]);
      }
    }
  }

  lemma {:induction false} StaysOff(s: Track, evs: seq<Event>)
    requires Legal(s, evs) && Unchecked(evs) && !s.active
    ensures !Run(s, evs).active
    decreases |evs|
  {
    if evs != [] {
      UncheckedTail(evs);
      StaysOff(Step(s, evs[0]), evs[1..]);
    }
  }

  /** So from the check on that precedes each snapshot, tracking stays on as long as the device does not grow. */
  lemma OnUntilGrown(s0: Track, before: seq<Event>, degree: nat, newGen: C.Uuid, evs: seq<Event>)
    requires Started(s0) && Legal(s0, before) && Possible(Run(s0, before), Check(degree, newGen))
    requires Legal(Step(Run(s0, before), Check(degree, newGen)), evs) && Unchecked(evs)
    ensures var s := Step(Run(s0, before), Check(degree, newGen));
            && s.active && s.cbt.capacity == |s.dev|
            && (Run(s, evs).active <==> !WritesGrown(evs, false))
            && (|Run(s, evs).dev| == |s.dev| ==> Run(s, evs).active)
  {
    StartFresh(s0, false);
    RunFresh(s0, before, false);
    var s := Step(Run(s0, before), Check(degree, newGen));
    StepFresh(Run(s0, before), Check(degree, newGen), false);
    EndsIffWritesGrown(s, evs);
    GrowsWhenWritesGrown(s, evs);
  }

  lemma {:induction false} GrowsWhenWritesGrown(s: Track, evs: seq<Event>)
    requires Legal(s, evs)
    ensures WritesGrown(evs, false) ==> |Run(s, evs).dev| > |s.dev|
    decreases |evs|
  {
    if evs != [] {
      Longer(Step(s, evs[0]), evs[1..]);
      GrowsWhenWritesGrown(Step(s, evs[0]), evs[1..]);
    }
  }

  // ---- blocks nothing has met ----

  /** The event may raise the entries of block `b`. */
  predicate Meets(degree: nat, ev: Event, b: nat) {
    match ev
    case Write(ofs, data) => MeetsRange(degree, ofs, |data|, b)
    case ImageWrite(ofs, data) => MeetsRange(degree, ofs, |data|, b)
    case Dirty(ofs, cnt) => C.BlockOf(degree, ofs) <= b <= C.LastBlock(degree, ofs, cnt)
    case _ => false
  }

  predicate Untouched(degree: nat, evs: seq<Event>, b: nat) {
    forall k | 0 <= k < |evs| :: !Meets(degree, evs[k], b)
  }

  /** Since `base` was closed, block `b` has got no number of the generation above that of `base`. */
  ghost predicate Old(base: Track, s: Track, b: nat)
    requires Shaped(base) && Shaped(s) && Kin(base, s) && b < base.cbt.size
  {
    var gen, k := base.cbt.genPrevious, base.cbt.previous;
    && (s.cbt.genActive == gen ==> s.cbt.write[b] <= k)
    && (s.cbt.genPrevious == gen ==> s.cbt.read[b] <= k)
  }

  lemma WriteLeavesOld(base: Track, s: Track, ofs: nat, data: seq<Sector>, b: nat)
    requires Shaped(base) && Shaped(s) && Kin(base, s) && b < base.cbt.size && Old(base, s, b)
    requires Possible(s, Write(ofs, data)) && !Meets(base.cbt.degree, Write(ofs, data), b)
    ensures var s1 := Step(s, Write(ofs, data)); Shaped(s1) && Kin(base, s1) && Old(base, s1, b)
  {
    WriteShaped(s, ofs, data);
    StepKin(base, s, Write(ofs, data));
    if OfGeneration(s.cbt, base.cbt.genPrevious) {
      WriteEffect(s, ofs, data, b);
      var d := C.Pow2(s.cbt.degree);
      DivMonotone(ofs + Min(|data|, |s.dev| - ofs) - 1, ofs + |data| - 1, d);
    }
  }

  lemma ImageWriteLeavesOld(base: Track, s: Track, ofs: nat, data: seq<Sector>, b: nat)
    requires Shaped(base) && Shaped(s) && Kin(base, s) && b < base.cbt.size && Old(base, s, b)
    requires Possible(s, ImageWrite(ofs, data)) && !Meets(base.cbt.degree, ImageWrite(ofs, data), b)
    ensures var s1 := Step(s, ImageWrite(ofs, data)); Shaped(s1) && Kin(base, s1) && Old(base, s1, b)
  {
    if OfGeneration(s.cbt, base.cbt.genPrevious) {
      BothEffect(s.cbt, ofs, |data|, b);
    }
  }

  lemma CloseLeavesOld(base: Track, s: Track, newGen: C.Uuid, b: nat)
    requires Shaped(base) && Shaped(s) && Kin(base, s) && b < base.cbt.size && Old(base, s, b)
    requires Possible(s, Close(newGen)) && AllFresh(s, false)
    ensures var s1 := Step(s, Close(newGen)); Shaped(s1) && Kin(base, s1) && Old(base, s1, b)
  {
    StepFresh(s, Close(newGen), false);
    StepKin(base, s, Close(newGen));
  }

  lemma StepLeavesOld(base: Track, s: Track, ev: Event, b: nat)
    requires Shaped(base) && Shaped(s) && Kin(base, s) && b < base.cbt.size && Old(base, s, b)
    requires Possible(s, ev) && !Meets(base.cbt.degree, ev, b) && AllFresh(s, false)
    ensures var s1 := Step(s, ev); Shaped(s1) && Kin(base, s1) && Old(base, s1, b)
  {
    StepFresh(s, ev, false);
    StepKin(base, s, ev);
    match ev
    case Write(ofs, data) => WriteLeavesOld(base, s, ofs, data, b);
    case ImageWrite(ofs, data) => ImageWriteLeavesOld(base, s, ofs, data, b);
    case Close(newGen) => CloseLeavesOld(base, s, newGen, b);
    case _ =>
  }

  lemma {:induction false} RunLeavesOld(base: Track, s: Track, evs: seq<Event>, b: nat)
    requires Shaped(base) && Shaped(s) && Kin(base, s) && b < base.cbt.size && Old(base, s, b)
    requires Legal(s, evs) && Untouched(base.cbt.degree, evs, b) && AllFresh(s, false)
    ensures var s1 := Run(s, evs); Shaped(s1) && Kin(base, s1) && Old(base, s1, b)
    decreases |evs|
  {
    if evs != [] {
      assert !Meets(base.cbt.degree, evs[0], b);
      StepLeavesOld(base, s, evs[0], b);
      StepFresh(s, evs[0], false);
      forall k | 0 <= k < |evs[1..]|
        ensures !Meets(base.cbt.degree, evs[1..][k], b)
      {
        assert !Meets(base.cbt.degree, evs[k + 1], b);
      }
      RunLeavesOld(base, Step(s, evs[0]), evs[1..], b);
    }
  }

  /**
   * A block that nothing has met since a capture is not numbered above it by any later capture of the same
   * generation: an incremental backup leaves it out.
   */
  lemma UntouchedIsLeftOut(s0: Track, before: seq<Event>, newGen: C.Uuid, since: seq<Event>, b: nat)
    requires Started(s0) && Legal(s0, before) && Possible(Run(s0, before), Close(newGen))
    requires var s1 := Step(Run(s0, before), Close(newGen));
             && Legal(s1, since) && b < s1.cbt.size && Untouched(s1.cbt.degree, since, b)
             && Run(s1, since).cbt.genPrevious == s1.cbt.genPrevious
    ensures var s1 := Step(Run(s0, before), Close(newGen));
            var s2 := Run(s1, since);
            b < |s2.cbt.read| && s2.cbt.read[b] <= s1.cbt.previous
  {
    StartFresh(s0, false);
    RunFresh(s0, before, false);
    var s := Run(s0, before);
    var s1 := Step(s, Close(newGen));
    StepFresh(s, Close(newGen), false);
    assert Shaped(s) && b < s.cbt.size;
    RunLeavesOld(s1, s1, since, b);
  }
}
