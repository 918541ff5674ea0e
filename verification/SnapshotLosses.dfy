/** Which sectors of the image can be wrong, exactly. */
module SnapshotLosses {
  import opened Basics
  import opened CowEngine
  import opened SnapshotMachine
  import opened SnapshotProofs
  import opened SnapshotTheorems
  import opened SnapshotFamilies
  import opened SnapshotMarks

  /** The sector is shown as the image has it. */
  predicate ShownRight(s: State, i: nat) {
    i < |s.orig0| && Shown(s.eng, PendingNow(s), i) == Image(s)[i]
  }

  /** In every run that differs from this one in contents alone, the sector is shown right. */
  ghost predicate RightWhateverTheData(s0: State, evs: seq<Event>, i: nat) {
    forall t0: State, evs': seq<Event> | Twins(s0, evs, t0, evs') && Legal(t0, evs') :: ShownRight(Run(t0, evs'), i)
  }

  // ---- a run of the family that tells ----

  function MarkedBio(bio: Bio, v: Sector): Bio {
    if bio.Write? then Write(bio.ofs, seq(|bio.data|, _ => v)) else bio
  }

  function MarkedFaults(f: Faults): Faults {
    f.(junk := [])
  }

  function Marking(ev: Event): Event {
    match ev
    case Submit(bio, late) => Submit(MarkedBio(bio, -1), late)
    case Copy(f) => Copy(MarkedFaults(f))
    case ImageAsk(io) => ImageAsk(MarkedBio(io, 0))
    case ImageCow(f, gaps) => ImageCow(MarkedFaults(f), gaps)
    case OtherStores(id, data) => OtherStores(id, [])
    case _ => ev
  }

  lemma MarkingFits(ev: Event)
    ensures SameEvent(ev, Marking(ev)) && MarkedEvent(Marking(ev))
  {
  }

  function MarkAll(evs: seq<Event>): (r: seq<Event>)
    ensures |r| == |evs|
  {
    seq(|evs|, k requires 0 <= k < |evs| => Marking(evs[k]))
  }

  function MarkedStart(s0: State): State {
    var zeros := seq(|s0.eng.orig|, _ => 0);
    s0.(eng := s0.eng.(orig := zeros, store := seq(|s0.eng.store|, _ => -1)), orig0 := zeros)
  }

  lemma MarkedStartFits(s0: State)
    requires Captured(s0)
    ensures var t0 := MarkedStart(s0); Captured(t0) && SameState(s0, t0) && Marked(t0)
  {
    var t0 := MarkedStart(s0);
    assert PoolOk(s0.eng.blk, |s0.eng.store|, s0.eng.pool);
    assert MapOk(t0.eng);
  }

  lemma {:induction false} RunMarked(s: State, evs: seq<Event>)
    requires Inv(s) && Marked(s) && Legal(s, evs) && forall k | 0 <= k < |evs| :: MarkedEvent(evs[k])
    ensures Marked(Run(s, evs))
    decreases |evs|
  {
    if evs != [] {
      assert MarkedEvent(evs[0]);
      StepMarked(s, evs[0]);
      StepKeepsInv(s, evs[0]);
      forall k | 0 <= k < |evs[1..]|
        ensures MarkedEvent(evs[1..][k])
      {
        assert MarkedEvent(evs[k + 1]);
      }
      RunMarked(Step(s, evs[0]), evs[1..]);
    }
  }

  // ---- the theorems ----

  /**
   * After any run, whatever has failed, been refused or let through: a sector is shown right for
   * whatever data the bios carried and whatever the snapstore held, exactly when it is not lost.
   */
  lemma RightIffNotLost(s0: State, evs: seq<Event>, i: nat)
    requires Captured(s0) && Legal(s0, evs) && i < |s0.eng.orig|
    ensures RightWhateverTheData(s0, evs, i) <==> i !in Run(s0, evs).lost
  {
    CaptureInv(s0);
    if i in Run(s0, evs).lost {
      LostShowsWrong(s0, evs, i);
    } else {
      forall t0: State, evs': seq<Event> | Twins(s0, evs, t0, evs') && Legal(t0, evs')
        ensures ShownRight(Run(t0, evs'), i)
      {
        RunSame(s0, t0, evs, evs');
        RunFacts(t0, evs');
        NotLostShowsRight(Run(t0, evs'), i);
      }
    }
  }

  lemma NotLostShowsRight(s: State, i: nat)
    requires Right(s) && i !in s.lost && i < |s.eng.orig|
    ensures ShownRight(s, i)
  {
  }

  lemma LostShowsWrong(s0: State, evs: seq<Event>, i: nat)
    requires Captured(s0) && Legal(s0, evs) && i < |s0.eng.orig| && i in Run(s0, evs).lost
    ensures !RightWhateverTheData(s0, evs, i)
  {
    var t0, evs' := MarkedTwin(s0, evs);
    assert !ShownRight(Run(t0, evs'), i);
  }

  lemma MarkedTwin(s0: State, evs: seq<Event>) returns (t0: State, evs': seq<Event>)
    requires Captured(s0) && Legal(s0, evs)
    ensures Twins(s0, evs, t0, evs') && Legal(t0, evs') && SameState(Run(s0, evs), Run(t0, evs'))
    ensures var t := Run(t0, evs'); Genuine(Image(t)) && LostShow(t) && |t.orig0| == |t.eng.orig| == |s0.eng.orig|
  {
    t0, evs' := MarkedStart(s0), MarkAll(evs);
    MarkedStartFits(s0);
    forall k | 0 <= k < |evs|
      ensures SameEvent(evs[k], evs'[k]) && MarkedEvent(evs'[k])
    {
      MarkingFits(evs[k]);
    }
    CaptureInv(s0);
    CaptureInv(t0);
    RunSame(s0, t0, evs, evs');
    RunMarked(t0, evs');
    RunFacts(t0, evs');
  }

  /** What an admitted read that got the lock returns is the slice of the image. */
  ghost predicate ServedRight(s: State)
    requires s.img.Reading?
  {
    && s.img.ofs + s.img.cnt <= |s.orig0|
    && forall k | 0 <= k < s.img.cnt :: Served(s)[k] == Image(s)[s.img.ofs + k]
  }

  /** So it is in every run that differs from this one in contents alone. */
  ghost predicate ServedRightWhateverTheData(s0: State, evs: seq<Event>) {
    forall t0: State, evs': seq<Event> | Twins(s0, evs, t0, evs') && Legal(t0, evs') && Run(t0, evs').img.Reading? ::
      ServedRight(Run(t0, evs'))
  }

  /**
   * An admitted read that gets the lock after any run, the device being corrupted by then or not, is
   * right for whatever data exactly when none of its sectors is lost.
   */
  lemma ServedRightIff(s0: State, evs: seq<Event>)
    requires Captured(s0) && Legal(s0, evs) && Unlocked(Run(s0, evs)) && Run(s0, evs).img.Reading?
    ensures ServedRightWhateverTheData(s0, evs) <==> forall i | i in Run(s0, evs).lost :: !InSlice(Run(s0, evs).img, i)
  {
    CaptureInv(s0);
    if i :| i in Run(s0, evs).lost && InSlice(Run(s0, evs).img, i) {
      RunFacts(s0, evs);
      LostServedWrong(s0, evs, i);
    } else {
      forall t0: State, evs': seq<Event> | Twins(s0, evs, t0, evs') && Legal(t0, evs') && Run(t0, evs').img.Reading?
        ensures ServedRight(Run(t0, evs'))
      {
        RunSame(s0, t0, evs, evs');
        RunFacts(t0, evs');
        NotLostServedRight(Run(s0, evs), Run(t0, evs'));
      }
    }
  }

  predicate InSlice(img: ImageThread, i: nat)
    requires img.Reading?
  {
    img.ofs <= i < img.ofs + img.cnt
  }

  lemma NotLostServedRight(s: State, t: State)
    requires SameState(s, t) && Unlocked(s) && s.img.Reading? && Right(t) && ImageOnDevice(|t.eng.orig|, t.img)
    requires forall i | i in s.lost :: !InSlice(s.img, i)
    ensures ServedRight(t)
  {
    ServesImage(t);
    forall k | 0 <= k < t.img.cnt
      ensures Served(t)[k] == Image(t)[t.img.ofs + k]
    {
      assert InSlice(s.img, t.img.ofs + k);
    }
  }

  lemma LostServedWrong(s0: State, evs: seq<Event>, i: nat)
    requires Captured(s0) && Legal(s0, evs) && Unlocked(Run(s0, evs)) && Run(s0, evs).img.Reading?
    requires i < |s0.eng.orig| && i in Run(s0, evs).lost && InSlice(Run(s0, evs).img, i)
    ensures !ServedRightWhateverTheData(s0, evs)
  {
    var t0, evs' := MarkedTwin(s0, evs);
    LostInSlice(Run(t0, evs'), i);
  }

  lemma LostInSlice(t: State, i: nat)
    requires Unlocked(t) && t.img.Reading? && InSlice(t.img, i) && i < |t.orig0| == |t.eng.orig| && i in t.lost
    requires LostShow(t) && Genuine(Image(t))
    ensures !ServedRight(t)
  {
    assert Served(t)[i - t.img.ofs] == Shown(t.eng, PendingNow(t), i);
  }

  /**
   * Copying a batch keeps a sector of it right for whatever data exactly when reading the original
   * works: the branch that fails must not be taken.
   */
  lemma ImageKeptIffReadWorks(s0: State, evs: seq<Event>, f: Faults, i: nat)
    requires Captured(s0) && Legal(s0, evs) && Run(s0, evs).phase.Copying? && f.storeOk
    requires var s := Run(s0, evs); i in InBlocks(s.eng, s.req) && i !in s.lost
    ensures Legal(s0, evs + [Copy(f)])
    ensures RightWhateverTheData(s0, evs + [Copy(f)], i) <==> ReadWorks(Run(s0, evs).eng, Run(s0, evs).req, f)
  {
    RunFacts(s0, evs);
    RunSnoc(s0, evs, Copy(f));
    RightIffNotLost(s0, evs + [Copy(f)], i);
  }
}
