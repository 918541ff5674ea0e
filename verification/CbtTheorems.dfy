/** What the numbers in a changed-block map mean, over every sequence of map operations. */
module CbtTheorems {
  import opened Basics
  import opened CbtMap

  datatype Op = MarkOp(start: nat, cnt: nat) | BothOp(start: nat, cnt: nat) | SwitchOp(newGen: Uuid)

  function Apply(c: Cbt, op: Op): Cbt {
    match op
    case MarkOp(start, cnt) => Mark(c, start, cnt).0
    case BothOp(start, cnt) => MarkBoth(c, start, cnt).0
    case SwitchOp(newGen) => SwitchEpoch(c, newGen)
  }

  function After(c: Cbt, ops: seq<Op>): Cbt {
    if ops == [] then c else Apply(After(c, ops[..|ops| - 1]), ops[|ops| - 1])
  }

  function Switches(ops: seq<Op>): nat {
    if ops == [] then 0 else Switches(ops[..|ops| - 1]) + if ops[|ops| - 1].SwitchOp? then 1 else 0
  }

  /** The operation marks block `b` in the map being written. */
  predicate Marks(c: Cbt, op: Op, b: nat) {
    !op.SwitchOp? && b < c.size && BlockOf(c.degree, op.start) <= b <= LastBlock(c.degree, op.start, op.cnt)
  }

  /** The operation marks block `b` in the readable map too. */
  predicate MarksRead(c: Cbt, op: Op, b: nat) {
    op.BothOp? && Marks(c, op, b) && MarkStatus(c, op.start, op.cnt) == Success
  }

  /** Epoch numbers count the switches from 1 and start over after 255 of them. */
  function EpochAt(ops: seq<Op>, k: nat): nat
    requires k <= |ops|
  {
    Switches(ops[..k]) % EPOCHS + 1
  }

  function GenerationAt(ops: seq<Op>, k: nat): nat
    requires k <= |ops|
  {
    Switches(ops[..k]) / EPOCHS
  }

  ghost predicate MarkedIn(c: Cbt, ops: seq<Op>, k: nat, b: nat)
    requires k < |ops|
  {
    Marks(c, ops[k], b) && GenerationAt(ops, k) == GenerationAt(ops, |ops|)
  }

  /** `e` is the latest epoch of the current generation in which block `b` was marked, 0 if none. */
  ghost predicate IsLatest(c: Cbt, ops: seq<Op>, b: nat, e: nat) {
    && (forall k | 0 <= k < |ops| && MarkedIn(c, ops, k, b) :: EpochAt(ops, k) <= e)
    && (e == 0 || exists k :: 0 <= k < |ops| && MarkedIn(c, ops, k, b) && EpochAt(ops, k) == e)
  }

  lemma {:induction false} SwitchesMonotone(ops: seq<Op>, k: nat)
    requires k <= |ops|
    ensures Switches(ops[..k]) <= Switches(ops)
    decreases |ops|
  {
    if k < |ops| {
      var front := ops[..|ops| - 1];
      assert ops[..k] == front[..k];
      SwitchesMonotone(front, k);
    } else {
      assert ops[..k] == ops;
    }
  }

  lemma FrontAt(ops: seq<Op>, op: Op, k: nat)
    requires k <= |ops|
    ensures EpochAt(ops + [op], k) == EpochAt(ops, k) && GenerationAt(ops + [op], k) == GenerationAt(ops, k)
  {
    assert (ops + [op])[..k] == ops[..k];
  }

  lemma WholeAt(ops: seq<Op>)
    ensures EpochAt(ops, |ops|) == Switches(ops) % EPOCHS + 1 && GenerationAt(ops, |ops|) == Switches(ops) / EPOCHS
  {
    assert ops[..|ops|] == ops;
  }

  predicate SameShape(c: Cbt, d: Cbt) {
    && c.degree == d.degree && c.capacity == d.capacity && c.size == d.size
    && |c.read| == |d.read| == |c.write| == |d.write| == c.size
  }

  /** What one marking does to one block; which blocks it meets depends on the shape `c` alone. */
  lemma MarkEffect(c: Cbt, c0: Cbt, op: Op, b: nat)
    requires !op.SwitchOp? && SameShape(c, c0) && b < c.size
    ensures var c1 := Apply(c0, op);
            && SameShape(c, c1) && c1.active == c0.active && c1.previous == c0.previous
            && c1.genActive == c0.genActive && c1.genPrevious == c0.genPrevious
            && c1.write[b] == (if Marks(c, op, b) && c0.write[b] < c0.active then c0.active else c0.write[b])
            && c1.read[b] == (if MarksRead(c, op, b) && c0.read[b] < c0.previous then c0.previous else c0.read[b])
  {
  }

  lemma SwitchEffect(c: Cbt, c0: Cbt, op: Op, b: nat)
    requires op.SwitchOp? && SameShape(c, c0) && b < c.size
    ensures var c1 := Apply(c0, op);
            && SameShape(c, c1) && c1.active == (if c0.active == EPOCHS then 1 else c0.active + 1)
            && c1.write[b] == (if c0.active == EPOCHS then 0 else c0.write[b])
            && c1.read[b] == c0.write[b] && c1.previous == c0.active
            && c1.genPrevious == (if c0.active == 1 then c0.genActive else c0.genPrevious)
  {
  }

  /** A marking changes nothing about the operations before it. */
  lemma MarkingBehind(c: Cbt, ops: seq<Op>, op: Op, k: nat, b: nat)
    requires !op.SwitchOp? && k < |ops|
    ensures MarkedIn(c, ops + [op], k, b) == MarkedIn(c, ops, k, b) && EpochAt(ops + [op], k) == EpochAt(ops, k)
  {
    assert (ops + [op])[..|ops|] == ops;
    WholeAt(ops);
    WholeAt(ops + [op]);
    FrontAt(ops, op, k);
  }

  /** It is made in the current epoch and generation itself. */
  lemma MarkingAt(c: Cbt, ops: seq<Op>, op: Op, b: nat)
    requires !op.SwitchOp?
    ensures MarkedIn(c, ops + [op], |ops|, b) == Marks(c, op, b)
    ensures EpochAt(ops + [op], |ops|) == EpochAt(ops, |ops|)
  {
    assert (ops + [op])[..|ops|] == ops;
    WholeAt(ops);
    WholeAt(ops + [op]);
    FrontAt(ops, op, |ops|);
  }

  /** Marking in the current epoch makes that epoch the latest one. */
  lemma {:induction false} LatestAfterMark(c: Cbt, ops: seq<Op>, op: Op, b: nat, e: nat)
    requires !op.SwitchOp? && IsLatest(c, ops, b, e) && e <= EpochAt(ops, |ops|)
    ensures IsLatest(c, ops + [op], b, if Marks(c, op, b) then EpochAt(ops, |ops|) else e)
  {
    var ops1 := ops + [op];
    var e1 := if Marks(c, op, b) then EpochAt(ops, |ops|) else e;
    MarkingAt(c, ops, op, b);
    forall k | 0 <= k < |ops1| && MarkedIn(c, ops1, k, b)
      ensures EpochAt(ops1, k) <= e1
    {
      if k < |ops| {
        MarkingBehind(c, ops, op, k, b);
      }
    }
    if !Marks(c, op, b) && e != 0 {
      var k :| 0 <= k < |ops| && MarkedIn(c, ops, k, b) && EpochAt(ops, k) == e;
      MarkingBehind(c, ops, op, k, b);
    }
  }

  /** Within a generation a switch changes no latest epoch; a new generation has none. */
  lemma LatestAfterSwitch(c: Cbt, ops: seq<Op>, op: Op, b: nat, e: nat)
    requires op.SwitchOp? && IsLatest(c, ops, b, e)
    ensures IsLatest(c, ops + [op], b, if EpochAt(ops, |ops|) == EPOCHS then 0 else e)
  {
    var ops1 := ops + [op];
    assert ops1[..|ops|] == ops;
    WholeAt(ops);
    WholeAt(ops1);
    var same := EpochAt(ops, |ops|) != EPOCHS;
    forall k | 0 <= k < |ops|
      ensures MarkedIn(c, ops1, k, b) == (same && MarkedIn(c, ops, k, b)) && EpochAt(ops1, k) == EpochAt(ops, k)
    {
      FrontAt(ops, op, k);
      SwitchesMonotone(ops, k);
    }
    if same && e != 0 {
      var k :| 0 <= k < |ops| && MarkedIn(c, ops, k, b) && EpochAt(ops, k) == e;
      assert MarkedIn(c, ops1, k, b);
    }
  }

  /** No block marked yet, first epoch. */
  ghost predicate New(c: Cbt) {
    && |c.read| == |c.write| == c.size && c.active == 1
    && (forall x | 0 <= x < c.size :: c.write[x] == 0)
  }

  lemma EpochSnoc(ops: seq<Op>, op: Op)
    ensures EpochAt(ops + [op], |ops + [op]|) ==
            var e := EpochAt(ops, |ops|); if !op.SwitchOp? then e else if e == EPOCHS then 1 else e + 1
  {
    WholeAt(ops);
    WholeAt(ops + [op]);
    assert (ops + [op])[..|ops + [op]| - 1] == ops;
  }

  lemma {:induction false} ActiveIsEpoch(c: Cbt, ops: seq<Op>, b: nat)
    requires New(c) && b < c.size
    ensures var c1 := After(c, ops);
            SameShape(c, c1) && c1.active == EpochAt(ops, |ops|) && c1.write[b] <= c1.active
    decreases |ops|
  {
    if ops == [] {
      WholeAt(ops);
    } else {
      var n := |ops| - 1;
      var front, op := ops[..n], ops[n];
      assert ops == front + [op];
      ActiveIsEpoch(c, front, b);
      EpochSnoc(front, op);
      ActiveStep(c, After(c, front), op, b);
    }
  }

  lemma ActiveStep(c: Cbt, c0: Cbt, op: Op, b: nat)
    requires SameShape(c, c0) && b < c.size && c0.write[b] <= c0.active
    ensures var c1 := Apply(c0, op);
            && SameShape(c, c1) && c1.write[b] <= c1.active
            && c1.active == if !op.SwitchOp? then c0.active else if c0.active == EPOCHS then 1 else c0.active + 1
  {
  }

  /**
   * After any operations on a new map the active number is the current epoch, and each entry
   * being written is the latest epoch of the current generation in which its block was marked.
   */
  lemma {:induction false} EntriesAreLatest(c: Cbt, ops: seq<Op>, b: nat)
    requires New(c) && b < c.size
    ensures var c1 := After(c, ops);
            && |c1.write| == c.size && c1.active == EpochAt(ops, |ops|) && c1.write[b] <= c1.active
            && IsLatest(c, ops, b, c1.write[b])
    decreases |ops|
  {
    ActiveIsEpoch(c, ops, b);
    if ops != [] {
      var n := |ops| - 1;
      var front, op := ops[..n], ops[n];
      assert ops == front + [op];
      EntriesAreLatest(c, front, b);
      ActiveIsEpoch(c, front, b);
      LatestStep(c, front, op, b, After(c, front));
    }
  }

  lemma LatestStep(c: Cbt, front: seq<Op>, op: Op, b: nat, c0: Cbt)
    requires SameShape(c, c0) && b < c.size
    requires c0.active == EpochAt(front, |front|) && c0.write[b] <= c0.active && IsLatest(c, front, b, c0.write[b])
    ensures var c1 := Apply(c0, op); |c1.write| == c.size && IsLatest(c, front + [op], b, c1.write[b])
  {
    var e := c0.write[b];
    if op.SwitchOp? {
      SwitchEffect(c, c0, op, b);
      LatestAfterSwitch(c, front, op, b, e);
    } else {
      MarkEffect(c, c0, op, b);
      LatestAfterMark(c, front, op, b, e);
    }
  }

  // ---- the readable map ----

  ghost predicate NoSwitch(ops: seq<Op>) {
    forall k | 0 <= k < |ops| :: !ops[k].SwitchOp?
  }

  /** Some operation marked `b` in both maps. */
  ghost predicate BothMarked(c: Cbt, ops: seq<Op>, b: nat) {
    exists k :: 0 <= k < |ops| && MarksRead(c, ops[k], b)
  }

  lemma {:induction false} ReadableKept(c: Cbt, c0: Cbt, rest: seq<Op>, b: nat)
    requires SameShape(c, c0) && b < c.size && NoSwitch(rest) && c0.read[b] <= c0.previous
    ensures var c1 := After(c0, rest);
            && SameShape(c, c1) && c1.previous == c0.previous && c1.genPrevious == c0.genPrevious
            && c1.read[b] == if BothMarked(c, rest, b) then c0.previous else c0.read[b]
    decreases |rest|
  {
    if rest != [] {
      var n := |rest| - 1;
      var front, op := rest[..n], rest[n];
      assert rest == front + [op];
      ReadableKept(c, c0, front, b);
      MarkEffect(c, After(c0, front), op, b);
      BothMarkedSnoc(c, front, op, b);
    }
  }

  lemma {:induction false} AfterAppend(c: Cbt, ops: seq<Op>, more: seq<Op>)
    ensures After(c, ops + more) == After(After(c, ops), more)
    decreases |more|
  {
    if more == [] {
      assert ops + more == ops;
    } else {
      var n := |more| - 1;
      assert (ops + more)[..|ops + more| - 1] == ops + more[..n];
      AfterAppend(c, ops, more[..n]);
    }
  }

  /**
   * After a switch and until the next one, number and generation identifier to be reported are
   * those of the epoch the switch closed, and each readable entry is the one written by then,
   * or that epoch itself where both maps were marked since.
   */
  lemma ReadableDescribesClosedEpoch(c: Cbt, pre: seq<Op>, newGen: Uuid, rest: seq<Op>, b: nat)
    requires New(c) && b < c.size && c.genPrevious == c.genActive && NoSwitch(rest)
    ensures var c0, c1 := After(c, pre), After(c, pre + [SwitchOp(newGen)] + rest);
            && |c0.write| == |c1.read| == c.size
            && c1.previous == EpochAt(pre, |pre|) && c1.genPrevious == c0.genActive
            && IsLatest(c, pre, b, c0.write[b])
            && c1.read[b] == (if BothMarked(c, rest, b) then c1.previous else c0.write[b])
  {
    var op := SwitchOp(newGen);
    var c0 := After(c, pre);
    EntriesAreLatest(c, pre, b);
    ActiveIsEpoch(c, pre, b);
    GenerationsMatch(c, pre);
    AfterAppend(c, pre + [op], rest);
    assert (pre + [op])[..|pre + [op]| - 1] == pre;
    SwitchEffect(c, c0, op, b);
    ReadableKept(c, Apply(c0, op), rest, b);
  }

  lemma BothMarkedSnoc(c: Cbt, ops: seq<Op>, op: Op, b: nat)
    ensures BothMarked(c, ops + [op], b) <==> BothMarked(c, ops, b) || MarksRead(c, op, b)
  {
    var all := ops + [op];
    if BothMarked(c, ops, b) {
      var k :| 0 <= k < |ops| && MarksRead(c, ops[k], b);
      assert all[k] == ops[k];
    }
    if MarksRead(c, op, b) {
      assert all[|ops|] == op;
    }
  }

  /** Beyond its first epoch a generation already reports its own identifier. */
  lemma {:induction false} GenerationsMatch(c: Cbt, ops: seq<Op>)
    requires c.active == 1 && c.genPrevious == c.genActive
    ensures var c1 := After(c, ops); c1.active >= 1 && (c1.active > 1 ==> c1.genPrevious == c1.genActive)
    decreases |ops|
  {
    if ops != [] {
      GenerationsMatch(c, ops[..|ops| - 1]);
    }
  }
}
