/** The tracker's side of changed-block tracking (`tracker.c`): mark a write, then issue it. */
module CbtTrackers {
  import opened Basics
  import opened DeferredPages
  import opened CowEngine
  import M = SnapshotMachine
  import C = CbtMap
  import T = CbtTracking

  /** Tracking sees a bio that writes data, and no other. */
  function Noted(t: T.Track, bio: M.Bio): T.Track
    requires bio.Write? ==> bio.ofs < |t.dev| && |bio.data| > 0
  {
    if bio.Write? then T.Step(t, T.Write(bio.ofs, bio.data)) else t
  }

  /** A set of tracking states that no event leaves. */
  ghost predicate ClosedTracks(tracks: T.Track -> bool) {
    forall t: T.Track, ev: T.Event | tracks(t) && T.Possible(t, ev) :: tracks(T.Step(t, ev))
  }

  lemma NotedStays(tracks: T.Track -> bool, t: T.Track, bio: M.Bio)
    requires ClosedTracks(tracks) && tracks(t) && (bio.Write? ==> bio.ofs < |t.dev| && |bio.data| > 0)
    ensures tracks(Noted(t, bio))
  {
    assert bio.Write? ==> T.Possible(t, T.Write(bio.ofs, bio.data));
  }

  /**
   * The states tracking passes through from `t0` are closed under events, so whatever is done inside
   * this set is part of a run, and what holds of runs holds of it.
   */
  ghost function TracksFrom(t0: T.Track): T.Track -> bool {
    (t: T.Track) => exists evs: seq<T.Event> :: T.Legal(t0, evs) && T.Run(t0, evs) == t
  }

  lemma {:induction false} TrackSnoc(t: T.Track, evs: seq<T.Event>, ev: T.Event)
    requires T.Legal(t, evs) && T.Possible(T.Run(t, evs), ev)
    ensures T.Legal(t, evs + [ev]) && T.Run(t, evs + [ev]) == T.Step(T.Run(t, evs), ev)
    decreases |evs|
  {
    if evs == [] {
      assert [] + [ev] == [ev] && [ev][1..] == [];
    } else {
      TrackSnoc(T.Step(t, evs[0]), evs[1..], ev);
      assert (evs + [ev])[0] == evs[0] && (evs + [ev])[1..] == evs[1..] + [ev];
    }
  }

  lemma TracksAreClosed(t0: T.Track)
    ensures ClosedTracks(TracksFrom(t0)) && TracksFrom(t0)(t0)
  {
    assert T.Legal(t0, []) && T.Run(t0, []) == t0;
    forall t: T.Track, ev: T.Event | TracksFrom(t0)(t) && T.Possible(t, ev)
      ensures TracksFrom(t0)(T.Step(t, ev))
    {
      var evs: seq<T.Event> :| T.Legal(t0, evs) && T.Run(t0, evs) == t;
      TrackSnoc(t0, evs, ev);
    }
  }

  class CbtTracker {
    const targetDev: BlockDevice
    const cbtMap: C.Map
    var active: bool              // cbt_map->active
    // as in `CbtTracking.Track`
    ghost var snap: seq<Sector>
    ghost var frozen: Option<seq<Sector>>
    ghost var view: seq<Sector>
    ghost var unmarked: bool
    ghost var torn: bool
    ghost var drawn: set<C.Uuid>

    ghost predicate Valid()
      reads cbtMap
    {
      cbtMap.Valid()
    }

    ghost function Track(): T.Track
      requires Valid()
      reads this, targetDev, cbtMap, cbtMap.readMap.pages, cbtMap.writeMap.pages
    {
      T.Track(targetDev.data, cbtMap.State(), active, snap, frozen, view, unmarked, torn, drawn)
    }

    /** `tracker_create`: tracking starts; `seen` are the generations drawn for the device before. */
    constructor (targetDev: BlockDevice, requested: nat, gen: C.Uuid, ghost seen: set<C.Uuid>)
      ensures Valid() && this.targetDev == targetDev && active && drawn == seen + {gen}
      ensures snap == view == targetDev.data && frozen.None? && !unmarked && !torn
      ensures fresh(cbtMap) && fresh(cbtMap.readMap.pages) && fresh(cbtMap.writeMap.pages)
      ensures C.BestShift(cbtMap.sectInBlockDegree, requested, |targetDev.data|)
           && cbtMap.State() == C.Allocated(cbtMap.sectInBlockDegree, |targetDev.data|, gen)
    {
      var created := new C.Map(requested, |targetDev.data|, gen);
      this.targetDev, cbtMap, active := targetDev, created, true;
      snap, frozen, view, unmarked, torn := targetDev.data, None, targetDev.data, false, false;
      drawn := seen + {gen};
    }

    /** `tracker_cbt_bitmap_lock`: the map is only marked while it is active. */
    method BitmapLock() returns (locked: bool)
      ensures locked == active
    {
      locked := active;
    }

    /** `tracker_cbt_bitmap_set`: a resized device or a range outside the map ends tracking. */
    method BitmapSet(sector: nat, cnt: nat)
      requires Valid() && active
      modifies this, cbtMap, cbtMap.writeMap.pages
      ensures Valid() && snap == old(snap) && frozen == old(frozen) && view == old(view)
      ensures unmarked == old(unmarked) && torn == old(torn) && drawn == old(drawn)
      ensures (cbtMap.State(), active) == T.MarkWrite(old(cbtMap.State()), true, |targetDev.data|, sector, cnt)
    {
      if cbtMap.deviceCapacity != |targetDev.data| {
        active := false;
        return;
      }
      var st := cbtMap.Set(sector, cnt);
      if st != Success {
        active := false;
      }
    }

    /** A bio on its way to the device: data writes are marked before they are issued. */
    method Issue(bio: M.Bio, sectStart: nat, sectCount: nat)
      requires Valid()
      requires bio.Write? ==> bio.ofs < |targetDev.data| && |bio.data| > 0
                              && sectStart == bio.ofs && sectCount == T.Clamped(|targetDev.data|, bio.ofs, |bio.data|)
      modifies this, targetDev, cbtMap, cbtMap.writeMap.pages
      ensures Valid() && targetDev.data == M.Apply(old(targetDev.data), bio)
      ensures Track() == Noted(old(Track()), bio)
    {
      ghost var cbt := cbtMap.State();
      if bio.Write? {
        var locked := BitmapLock();
        if locked {
          BitmapSet(sectStart, sectCount);
        }
        cbt := cbtMap.State();
      }
      targetDev.data := M.Apply(targetDev.data, bio);
      assert cbtMap.State() == cbt;
    }

    /** `_snapimage_request_write`: the map is marked, active or not, before the image is written. */
    method MarkImageWrite(ofs: nat, ghost data: seq<Sector>, cnt: nat) returns (res: Status)
      requires Valid() && cnt == |data| > 0 && ofs + cnt <= |view|
      modifies this, cbtMap, cbtMap.readMap.pages, cbtMap.writeMap.pages
      ensures Valid() && Track() == T.Step(old(Track()), T.ImageWrite(ofs, data))
    {
      res := cbtMap.SetBoth(ofs, cnt);
      unmarked := unmarked || res != Success;
      view := Overwrite(view, ofs, data);
    }

    /** From here on bios are deferred, so this is what the image shows. */
    ghost method Freeze()
      requires Valid() && frozen.None?
      modifies `frozen
      ensures Valid() && Track() == T.Step(old(Track()), T.Freeze)
    {
      frozen := Some(targetDev.data);
    }

    /** The epoch closed by `_tracker_capture_snapshot`. */
    method Close(newGen: C.Uuid)
      requires Valid() && newGen !in drawn && frozen.Some?
      modifies this, cbtMap, cbtMap.readMap.pages, cbtMap.writeMap.pages
      ensures Valid() && Track() == T.Step(old(Track()), T.Close(newGen))
    {
      drawn := drawn + {cbtMap.generationIdActive, newGen};
      torn := frozen.value != targetDev.data;
      snap, view, frozen, unmarked := targetDev.data, frozen.value, None, false;
      cbtMap.Switch(newGen);
    }
  }

  /**
   * `tracking_add` on a tracked device, as the making of a snapshot does first: a tracker whose map is
   * inactive or was made for another size is replaced by a new one.
   */
  method TrackingAdd(tracker: CbtTracker, requested: nat, gen: C.Uuid) returns (checked: CbtTracker)
    requires tracker.Valid() && gen !in tracker.drawn && tracker.frozen.None?
    ensures checked.Valid() && checked.targetDev == tracker.targetDev && (checked == tracker || fresh(checked))
    ensures checked.Track() == T.Step(old(tracker.Track()), T.Check(checked.cbtMap.sectInBlockDegree, gen))
    ensures checked == tracker <==> tracker.active && tracker.cbtMap.deviceCapacity == |tracker.targetDev.data|
    ensures checked != tracker ==>
              C.BestShift(checked.cbtMap.sectInBlockDegree, requested, |tracker.targetDev.data|)
  {
    var resetNeeded := !tracker.active || tracker.cbtMap.deviceCapacity != |tracker.targetDev.data|;
    if !resetNeeded { return tracker; }
    checked := new CbtTracker(tracker.targetDev, requested, gen, tracker.drawn);
  }
}
