/** Runs of a device of one block of eight sectors in which a promise fails, step by step. */
module SnapshotExamples {
  import opened Basics
  import opened Ranges
  import opened CowEngine
  import opened SnapshotMachine
  import opened SnapshotTheorems

  const ONE: BlkDescr := BlkDescr(0, [Range(0, 8)])
  const NINE: Bio := Write(0, Row(9))
  const EIGHT: Bio := Write(0, Row(8))

  /** Eight sectors of one value: the least block of a snapstore. */
  function Row(v: Sector): (r: seq<Sector>)
    ensures |r| == 8
  {
    [v, v, v, v, v, v, v, v]
  }

  lemma RowOver(v: Sector, w: Sector)
    ensures Overwrite(Row(v), 0, Row(w)) == Row(w)
  {
  }

  function SmallEngine(orig: Sector, pool: seq<BlkDescr>): Engine {
    Engine(8, Row(orig), Row(0), pool, 0, {}, false, 0, 0, 1, map[], false, Success, 0)
  }

  /** A device that holds sevens, just captured, with the descriptors of `pool` in its snapstore. */
  function Small(pool: seq<BlkDescr>): State {
    State(SmallEngine(7, pool), [], [], [], Idle, true, false, Quiet, Row(7), [], [], [], [], [], false, {}, {})
  }

  /** The same device when the pool was found empty, while nines are being written. */
  function Exhausted(orig: Sector): Engine {
    SmallEngine(orig, []).(overflowed := 1, corrupted := true, err := ENoData)
  }

  lemma SmallCaptured()
    ensures Captured(Small([])) && Captured(Small([ONE]))
  {
    OnePlaces();
    assert AllPlaces([ONE]) == Place(ONE) by {
      assert [ONE][..0] == [];
    }
  }

  lemma OnePlaces()
    ensures Place(ONE) == [0, 1, 2, 3, 4, 5, 6, 7]
  {
    assert Sectors([ONE.ranges[0]]) == Span(ONE.ranges[0]) + Sectors([]);
  }

  /** The batch that finds the pool empty, up to the point where the write of nines is still to be issued. */
  lemma PoolFoundEmpty(s: State)
    requires s.phase.Idle? && s.waiting == [NINE] && s.inProcess == [] && s.eng == SmallEngine(7, []) && !s.stopping
    requires Reached(Small([]), s)
    ensures var s2 := s.(phase := Finishing, waiting := [], inProcess := [NINE], req := [], eng := Exhausted(7));
            Reached(Small([]), s2)
  {
    ReachedStep(Small([]), s, Begin);
    var s1 := Step(s, Begin);
    assert PrepareRequests(s1.eng, [], 0, 0, map[]) == (Exhausted(7), [], ENoData);
    ReachedStep(Small([]), s1, Pop(map[]));
    var s2 := Step(s1, Pop(map[]));
    assert InBlocks(s2.eng, []) == {};
    assert s2 == s.(phase := Finishing, waiting := [], inProcess := [NINE], req := [], eng := Exhausted(7));
  }

  lemma NineIssued(s0: State, s: State, before: Sector)
    requires Reached(s0, s) && s.phase.Finishing? && s.inProcess == [NINE] && s.eng == Exhausted(before)
    ensures exists s2 ::
              Reached(s0, s2) && s2.phase.Idle? && s2.eng == Exhausted(9) && s2.img == s.img && s2.written == s.written
                         && s2.captured == s.captured && s2.stopping == s.stopping && s2.direct == s.direct
                         && s2.accepted == s.accepted && s2.waiting == s.waiting && s2.inProcess == []
  {
    ReachedStep(s0, s, Issue);
    var s1 := Step(s, Issue);
    assert s1.eng == Exhausted(9) by {
      RowOver(before, 9);
    }
    assert s1.inProcess == [];
    ReachedStep(s0, s1, EndBatch);
    var s2 := Step(s1, EndBatch);
    assert Reached(s0, s2) && s2.phase.Idle?;
  }

  /**
   * A read gets past the test of the flag; the worker then finds the pool empty and lets a write
   * through; the read gets the lock and returns the new contents with success.
   */
  lemma AdmittedReadExample()
    ensures exists s0: State, s: State ::
              && Captured(s0) && s0.eng.orig == Row(7) && Reached(s0, s)
              && InService(s) && Unlocked(s) && s.img == Reading(0, 8) && s.written == [] && s.eng.corrupted
              && Served(s) == Row(9)
  {
    var s0 := Small([]);
    var s2 := AskedAndQueued();
    SmallCaptured();
    PoolFoundEmpty(s2);
    NineIssued(s0, s2.(phase := Finishing, waiting := [], inProcess := [NINE], req := [], eng := Exhausted(7)), 7);
    var s :| Reached(s0, s) && s.phase.Idle? && s.eng == Exhausted(9) && s.img == s2.img && s.written == s2.written
             && s.captured == s2.captured && s.stopping == s2.stopping;
    NinesServed(s);
  }

  lemma NinesServed(s: State)
    requires s.eng == Exhausted(9) && s.img == Reading(0, 8)
    ensures Served(s) == Row(9)
  {
    forall k | 0 <= k < 8
      ensures Served(s)[k] == 9
    {
      assert Shown(s.eng, {}, 0 + k) == At(Row(9), k);
    }
  }

  lemma AskedAndQueued() returns (s: State)
    ensures Reached(Small([]), s)
    ensures s == Small([]).(img := Reading(0, 8), waiting := [NINE], accepted := [NINE])
  {
    var s0 := Small([]);
    ReachedAtOnce(s0);
    ReachedStep(s0, s0, ImageAsk(Read(0, 8)));
    var s1 := Step(s0, ImageAsk(Read(0, 8)));
    ReachedStep(s0, s1, Submit(NINE, false));
    s := Step(s1, Submit(NINE, false));
  }

  /**
   * The device is found corrupted with a write of nines still to be issued; a write of eights that arrives
   * then is issued at once, and the nines that came first end up on the device.
   */
  lemma OvertakingExample()
    ensures exists s0: State, s: State ::
              && Captured(s0) && s0.eng.orig == Row(7) && Reached(s0, s) && InService(s)
              && s.accepted == [NINE] && s.direct == [EIGHT] && s.waiting == [] && s.inProcess == []
              && s.eng.orig == Row(9) && ApplyAll(s0.eng.orig, [NINE, EIGHT]) == Row(8)
  {
    var s0 := Small([]);
    SmallCaptured();
    ReachedAtOnce(s0);
    ReachedStep(s0, s0, Submit(NINE, false));
    var s1 := Step(s0, Submit(NINE, false));
    PoolFoundEmpty(s1);
    var s2 := s1.(phase := Finishing, waiting := [], inProcess := [NINE], req := [], eng := Exhausted(7));
    ReachedStep(s0, s2, Submit(EIGHT, false));
    var s3 := Step(s2, Submit(EIGHT, false));
    assert s3.eng.orig == Row(8) by {
      RowOver(7, 8);
    }
    RefusedThenIssued(s0, s3);
    NineThenEight();
  }

  lemma RefusedThenIssued(s0: State, s: State)
    requires Reached(s0, s) && s.phase.Finishing? && s.inProcess == [NINE] && s.eng.orig == Row(8) && InService(s)
    requires s.waiting == []
    ensures exists s2 :: Reached(s0, s2) && InService(s2) && s2.accepted == s.accepted && s2.direct == s.direct
                         && s2.waiting == [] && s2.inProcess == [] && s2.eng.orig == Row(9)
  {
    ReachedStep(s0, s, Issue);
    var s1 := Step(s, Issue);
    assert s1.eng.orig == Row(9) by {
      RowOver(8, 9);
    }
    assert Reached(s0, s1) && s1.inProcess == [];
  }

  /**
   * The snapshot is released with a write of nines still queued; a write of eights that arrives then is
   * issued at once, and the nines that came first end up on the device, which is not corrupted.
   */
  lemma ReleasedExample()
    ensures exists s0: State, s: State ::
              && Captured(s0) && s0.eng.orig == Row(7) && Reached(s0, s) && !s.captured && !s.eng.corrupted
              && s.accepted == [NINE] && s.direct == [EIGHT] && s.eng.orig == Row(8) && Arrived(s) == Row(9)
              && ApplyAll(s0.eng.orig, [NINE, EIGHT]) == Row(8)
  {
    var s0 := Small([]);
    SmallCaptured();
    ReachedAtOnce(s0);
    ReachedStep(s0, s0, Submit(NINE, false));
    var s1 := Step(s0, Submit(NINE, false));
    ReachedStep(s0, s1, Release);
    var s2 := Step(s1, Release);
    ReachedStep(s0, s2, Submit(EIGHT, false));
    var s := Step(s2, Submit(EIGHT, false));
    RowOver(7, 8);
    assert Arrived(s) == Row(9) by {
      assert s.inProcess + s.waiting == [NINE] && [NINE][..0] == [];
      RowOver(8, 9);
    }
    NineThenEight();
  }

  lemma NineThenEight()
    ensures ApplyAll(Row(7), [NINE, EIGHT]) == Row(8)
  {
    assert [NINE, EIGHT][..1] == [NINE] && [NINE][..0] == [];
    RowOver(9, 8);
  }

  // ---- a lost read ----

  const LOST: Faults := Faults(false, true, [])

  /** The device with its block mapped to the only descriptor. */
  function MappedEngine(orig: Sector): Engine {
    SmallEngine(orig, [ONE]).(taken := 1, blocks := map[0 := ONE])
  }

  lemma BlockMapped() returns (s: State)
    ensures Reached(Small([ONE]), s) && s.phase == Copying && s.eng == MappedEngine(7) && s.req == [Dio(0, ONE)]
    ensures s.waiting == [] && s.inProcess == [NINE] && s.img.Quiet? && s.captured && !s.stopping
    ensures s.written == [] && s.missed == {} && s.lost == {}
  {
    var s0 := Small([ONE]);
    ReachedAtOnce(s0);
    ReachedStep(s0, s0, Submit(NINE, false));
    var s1 := Step(s0, Submit(NINE, false));
    ReachedStep(s0, s1, Begin);
    var s2 := Step(s1, Begin);
    OneMapped(s2.eng);
    ReachedStep(s0, s2, Pop(map[]));
    var s3 := Step(s2, Pop(map[]));
    ReachedStep(s0, s3, EndPrepare);
    s := Step(s3, EndPrepare);
  }

  lemma OneMapped(e: Engine)
    requires e == SmallEngine(7, [ONE])
    ensures PrepareRequests(e, [], 0, 0, map[]) == (MappedEngine(7), [Dio(0, ONE)], Success)
  {
    assert AddRequest(e, [], 0, false) == (MappedEngine(7), [Dio(0, ONE)], Success) by {
      assert e.blocks[0 := ONE] == map[0 := ONE] && [] + [Dio(0, ONE)] == [Dio(0, ONE)];
    }
    assert PrepareRequests(MappedEngine(7), [Dio(0, ONE)], 1, 0, map[]) == (MappedEngine(7), [Dio(0, ONE)], Success);
  }

  /** A failed read of the original: nothing is flagged, and an image read returns what the snapstore held. */
  lemma LostReadExample()
    ensures exists s0: State, s: State ::
              && Captured(s0) && s0.eng.orig == Row(7) && Reached(s0, s)
              && InService(s) && Unlocked(s) && s.img == Reading(0, 8) && s.written == [] && !s.eng.corrupted
              && Served(s) == Row(0)
  {
    var s0 := Small([ONE]);
    SmallCaptured();
    var s1 := BlockMapped();
    ReachedStep(s0, s1, Copy(LOST));
    var s2 := Step(s1, Copy(LOST));
    assert s2.eng == MappedEngine(7);
    ReachedStep(s0, s2, Issue);
    var s3 := Step(s2, Issue);
    LostReadServed(s0, s3);
  }

  lemma LostReadServed(s0: State, s: State)
    requires Reached(s0, s) && s.phase.Finishing? && s.inProcess == [] && s.eng.orig == Overwrite(Row(7), 0, Row(9))
    requires s.eng == MappedEngine(9) && s.img.Quiet? && InService(s) && s.written == []
    ensures exists s2 :: Reached(s0, s2) && InService(s2) && Unlocked(s2) && s2.img == Reading(0, 8) && s2.written == []
                         && !s2.eng.corrupted && Served(s2) == Row(0)
  {
    ReachedStep(s0, s, EndBatch);
    var s1 := Step(s, EndBatch);
    ReachedStep(s0, s1, ImageAsk(Read(0, 8)));
    var s2 := Step(s1, ImageAsk(Read(0, 8)));
    OnePlaces();
    forall k | 0 <= k < 8
      ensures Served(s2)[k] == 0
    {
      assert Mapped(s2.eng, k) && Cell(ONE, k) == k;
    }
    assert Reached(s0, s2);
  }
}
