/** A sparse bitmap is the set of indices put into it, over any sequence of operations. */
module SparseTheorems {
  import opened Basics
  import opened RunScan
  import opened SparseTree
  import opened SparseRuns

  /** Setting (`on`) or clearing one index. */
  datatype Op = Op(index: nat, on: bool)

  function OpTree(level: nat, t: Tree, op: Op): (t1: Tree)
    requires Shaped(level, t)
    ensures Shaped(level, t1)
  {
    SetMeaning(level, t, op.index);
    ClearMeaning(level, t, op.index);
    if op.on then Set(level, t, op.index).0 else Clear(level, t, op.index).0
  }

  lemma OpBecomes(level: nat, t: Tree, op: Op)
    requires Shaped(level, t)
    ensures Becomes(level, t, op.index, op.on, OpTree(level, t, op))
  {
    SetMeaning(level, t, op.index);
    ClearMeaning(level, t, op.index);
  }

  /** The tree a map of that level holds after the operations. */
  function TreeAfter(level: nat, ops: seq<Op>): (t: Tree)
    ensures Shaped(level, t)
    decreases |ops|
  {
    if ops == [] then Fresh(level, false) else OpTree(level, TreeAfter(level, ops[..|ops| - 1]), ops[|ops| - 1])
  }

  /** The last operation on an index equal to `p` modulo the width decides. */
  predicate Member(width: nat, ops: seq<Op>, p: nat)
    requires width > 0
    decreases |ops|
  {
    ops != [] &&
    var op := ops[|ops| - 1];
    if op.index % width == p then op.on else Member(width, ops[..|ops| - 1], p)
  }

  /** The bits of the tree are the members, two indices being the same if they agree modulo the width. */
  lemma {:induction false} BitsAreMembers(level: nat, ops: seq<Op>, p: nat)
    requires p < Unit(level + 1)
    ensures Bit(level, TreeAfter(level, ops), p) == Member(Unit(level + 1), ops, p)
    decreases |ops|
  {
    if ops != [] {
      var front := ops[..|ops| - 1];
      BitsAreMembers(level, front, p);
      OpBecomes(level, TreeAfter(level, front), ops[|ops| - 1]);
    }
  }

  ghost predicate Within(ops: seq<Op>, length: nat) {
    forall k | 0 <= k < |ops| :: ops[k].index < length
  }

  /** Membership in the set itself: indices are compared as they are. */
  predicate InSet(ops: seq<Op>, i: nat)
    decreases |ops|
  {
    ops != [] &&
    var op := ops[|ops| - 1];
    if op.index == i then op.on else InSet(ops[..|ops| - 1], i)
  }

  lemma {:induction false} NoAliasing(width: nat, ops: seq<Op>, i: nat)
    requires width > 0 && Within(ops, width) && i < width
    ensures Member(width, ops, i) == InSet(ops, i)
    decreases |ops|
  {
    if ops != [] {
      ModSmall(ops[|ops| - 1].index, width);
      NoAliasing(width, ops[..|ops| - 1], i);
    }
  }

  lemma ModSmall(x: nat, width: nat)
    requires x < width
    ensures x % width == x
  {
  }

  lemma GetIsMember(level: nat, ops: seq<Op>, i: nat)
    requires i < Unit(level + 1)
    ensures Get(level, TreeAfter(level, ops), i) == Member(Unit(level + 1), ops, i)
  {
    ModSmall(i, Unit(level + 1));
    GetIsBit(level, TreeAfter(level, ops), i);
    BitsAreMembers(level, ops, i);
  }

  ghost predicate IsASet(level: nat, length: nat) {
    forall ops, i: nat | Within(ops, length) && i < length :: Get(level, TreeAfter(level, ops), i) == InSet(ops, i)
  }

  /**
   * Get is membership after every sequence of operations on indices below the length, exactly
   * when the tree covers the length.
   */
  lemma IsASetIffCovered(level: nat, length: nat)
    requires IsLevelOf(level, length)
    ensures IsASet(level, length) <==> !Shortchanged(length)
  {
    CoversIff(level, length);
    if length <= Unit(level + 1) {
      forall ops, i: nat | Within(ops, length) && i < length
        ensures Get(level, TreeAfter(level, ops), i) == InSet(ops, i)
      {
        GetIsMember(level, ops, i);
        NoAliasing(Unit(level + 1), ops, i);
      }
    } else {
      AliasFound(level, length);
    }
  }

  /** Index 0 and the first index beyond the tree share a bit. */
  lemma AliasFound(level: nat, length: nat)
    requires length > Unit(level + 1)
    ensures !IsASet(level, length)
  {
    var width := Unit(level + 1);
    var ops := [Op(width, true)];
    assert ops[..0] == [];
    DivModUnique(1, 0, width);
    GetIsMember(level, ops, 0);
    assert Within(ops, length) && !InSet(ops, 0);
  }

  /** A map of 4097 indices gets a tree for 4096: setting the last index sets the first. */
  lemma Length4097()
    ensures IsLevelOf(1, 4097) && Shortchanged(4097)
    ensures var ops := [Op(4096, true)]; Within(ops, 4097) && Get(1, TreeAfter(1, ops), 0) && !InSet(ops, 0)
  {
    assert Unit(0) == 1 && Unit(1) == 64 && Unit(2) == 4096;
    var ops := [Op(4096, true)];
    assert ops[..0] == [];
    GetIsMember(1, ops, 0);
    assert 4096 % Unit(2) == 0;
  }

  /** Setting reports EALREADY exactly for members. */
  lemma SetReportsMembers(level: nat, length: nat, ops: seq<Op>, i: nat)
    requires length <= Unit(level + 1) && Within(ops, length) && i < length
    ensures Set(level, TreeAfter(level, ops), i).1 == if InSet(ops, i) then EAlready else Success
  {
    SetMeaning(level, TreeAfter(level, ops), i);
    ModSmall(i, Unit(level + 1));
    BitsAreMembers(level, ops, i);
    NoAliasing(Unit(level + 1), ops, i);
  }

  /** A fully set map above level 0 is the only collapsed-full root. */
  lemma FullIff(level: nat, t: Tree)
    requires Shaped(level, t) && level > 0
    ensures t.Full? <==> AllBits(level, t, true)
  {
    if !t.Full? {
      KidHasBit(level, t, false);
    }
  }

  /** The bits a flat bitmap of the same length would hold. */
  function FlatMembers(ops: seq<Op>, length: nat): (r: seq<bool>)
    ensures |r| == length
  {
    seq(length, i requires 0 <= i < length => InSet(ops, i))
  }

  /**
   * The ranges the tree lists are the maximal runs of the flat bitmap, as the bit-by-bit scan
   * lists them, exactly when the root is not collapsed to full.
   */
  lemma RangesAgreeIffNotFull(level: nat, length: nat, ops: seq<Op>, start: nat)
    requires length <= Unit(level + 1) && Within(ops, length)
    ensures RunsOf(Emitted(level, TreeAfter(level, ops)), start) == RunsOf(FlatMembers(ops, length), start)
       <==> !TreeAfter(level, ops).Full?
  {
    WalkIsScanIffNotFull(level, TreeAfter(level, ops), start);
    var wide, flat := Flat(level, TreeAfter(level, ops)), FlatMembers(ops, length);
    forall p | 0 <= p < |wide|
      ensures wide[p] == (p < length && flat[p])
    {
      BitsAreMembers(level, ops, p);
      NoAliasing(Unit(level + 1), ops, p);
      if p >= length {
        OutsideClear(ops, length, p);
      }
    }
    TrailingZeros(wide, flat, start);
  }

  /** Clear bits at the end add no runs. */
  lemma TrailingZeros(wide: seq<bool>, flat: seq<bool>, start: nat)
    requires |flat| <= |wide| && forall p | 0 <= p < |wide| :: wide[p] == (p < |flat| && flat[p])
    ensures RunsOf(wide, start) == RunsOf(flat, start)
  {
    RunsAreMaximal(wide, start);
    RunsAreMaximal(flat, start);
    forall i: nat
      ensures Listed(RunsOf(wide, start), i) <==> Listed(RunsOf(flat, start), i)
    {
      assert Listed(RunsOf(wide, start), i) <==> start <= i < start + |wide| && wide[i - start];
      assert Listed(RunsOf(flat, start), i) <==> start <= i < start + |flat| && flat[i - start];
    }
    RunsUnique(RunsOf(wide, start), RunsOf(flat, start));
  }

  lemma {:induction false} OutsideClear(ops: seq<Op>, length: nat, i: nat)
    requires Within(ops, length) && i >= length
    ensures !InSet(ops, i)
    decreases |ops|
  {
    if ops != [] {
      OutsideClear(ops[..|ops| - 1], length, i);
    }
  }

  // ---- a map with every index set ----

  function SetAll(n: nat): (ops: seq<Op>)
    ensures |ops| == n
  {
    seq(n, i requires 0 <= i < n => Op(i, true))
  }

  lemma {:induction false} AllInSet(n: nat, i: nat)
    requires i < n
    ensures InSet(SetAll(n), i)
  {
    assert SetAll(n)[..n - 1] == SetAll(n - 1);
    if i < n - 1 {
      AllInSet(n - 1, i);
    }
  }

  /** Setting every index of a map of several levels makes its root full, and its ranges come out wrong. */
  lemma FullRootExample(level: nat)
    requires level > 0
    ensures var n := Unit(level + 1);
            var ops := SetAll(n);
            && TreeAfter(level, ops).Full?
            && RunsOf(Emitted(level, TreeAfter(level, ops)), 0) != RunsOf(FlatMembers(ops, n), 0)
  {
    var n := Unit(level + 1);
    var ops := SetAll(n);
    forall p | 0 <= p < n
      ensures Bit(level, TreeAfter(level, ops), p)
    {
      BitsAreMembers(level, ops, p);
      NoAliasing(n, ops, p);
      AllInSet(n, p);
    }
    FullIff(level, TreeAfter(level, ops));
    RangesAgreeIffNotFull(level, n, ops, 0);
  }
}
