/** The bits a tree walk emits, in order, against the flat bits of the tree. */
module SparseRuns {
  import opened Ranges
  import opened RunScan
  import opened SparseTree

  /** What the range walk of a block scans: a collapsed block counts as one of its slots. */
  function Emitted(level: nat, t: Tree): seq<bool>
    requires Shaped(level, t)
  {
    if t.Full? then seq(Unit(level), _ => true) else if t.Empty? then seq(Unit(level), _ => false) else Flat(level, t)
  }

  function FlatKids(level: nat, kids: seq<Tree>): seq<bool>
    requires forall k | 0 <= k < |kids| :: KidShaped(level, kids[k])
  {
    if kids == [] then []
    else
      assert KidShaped(level, kids[|kids| - 1]);
      FlatKids(level, kids[..|kids| - 1]) + Flat(level, kids[|kids| - 1])
  }

  lemma FlatKidsNext(level: nat, kids: seq<Tree>, n: nat)
    requires n < |kids| && forall k | 0 <= k < |kids| :: KidShaped(level, kids[k])
    ensures FlatKids(level, kids[..n + 1]) == FlatKids(level, kids[..n]) + Flat(level, kids[n])
  {
    assert kids[..n + 1][..n] == kids[..n];
  }

  lemma FlatLeaf(t: Tree)
    requires Node(0, t)
    ensures Flat(0, t) == t.bits
  {
    assert Unit(0) == 1;
  }

  /** Below a slot, a collapsed subtree is as wide as the slot. */
  lemma FlatWhole(level: nat, t: Tree)
    requires Slotted(level, t)
    ensures t.Full? ==> Flat(level, t) == seq(Unit(level + 1), _ => true)
    ensures t.Empty? ==> Flat(level, t) == seq(Unit(level + 1), _ => false)
  {
  }

  lemma {:induction false} FlatKidsAt(level: nat, kids: seq<Tree>, k: nat, r: nat)
    requires forall k | 0 <= k < |kids| :: KidShaped(level, kids[k])
    requires k < |kids| && r < Unit(level + 1)
    ensures k * Unit(level + 1) + r < |FlatKids(level, kids)| == |kids| * Unit(level + 1)
    ensures FlatKids(level, kids)[k * Unit(level + 1) + r] == Bit(level, kids[k], r)
    decreases |kids|
  {
    var n, u := |kids| - 1, Unit(level + 1);
    FlatKidsSize(level, kids[..n]);
    assert |kids| * u == n * u + u;
    if k < n {
      FlatKidsAt(level, kids[..n], k, r);
    }
  }

  lemma {:induction false} FlatKidsSize(level: nat, kids: seq<Tree>)
    requires forall k | 0 <= k < |kids| :: KidShaped(level, kids[k])
    ensures |FlatKids(level, kids)| == |kids| * Unit(level + 1)
    decreases |kids|
  {
    if kids != [] {
      FlatKidsSize(level, kids[..|kids| - 1]);
      assert |kids| * Unit(level + 1) == (|kids| - 1) * Unit(level + 1) + Unit(level + 1);
    }
  }

  /** The bits of a branch are the bits of its slots, one after another. */
  lemma FlatBranch(level: nat, low: nat, t: Tree)
    requires level == low + 1 && Node(level, t)
    ensures Flat(level, t) == FlatKids(low, t.kids)
  {
    FlatKidsSize(low, t.kids);
    forall p | 0 <= p < Unit(level + 1)
      ensures Flat(level, t)[p] == FlatKids(low, t.kids)[p]
    {
      var k, r := BitBelow(level, low, t, p);
      PositionInKid(level, p);
      FlatKidsAt(low, t.kids, k, r);
    }
  }

  // ---- the list of ranges ----

  lemma RunsOfOnes(n: nat, start: nat)
    requires n > 0
    ensures RunsOf(seq(n, _ => true), start) == [Range(start, n)]
  {
    ScanOnes(Scan(start, NO_RANGE, []), seq(n, _ => true));
  }

  lemma RunsOfZeros(n: nat, start: nat)
    requires n > 0
    ensures RunsOf(seq(n, _ => false), start) == []
  {
    ScanZeros(Scan(start, NO_RANGE, []), seq(n, _ => false));
  }

  /** The walk lists the runs of the flat bits exactly when the root is not collapsed to full. */
  lemma WalkIsScanIffNotFull(level: nat, t: Tree, start: nat)
    requires Shaped(level, t)
    ensures RunsOf(Emitted(level, t), start) == RunsOf(Flat(level, t), start) <==> !t.Full?
  {
    var u := Unit(level);
    assert Unit(level + 1) == BLOCK * u;
    FlatWhole(level, t);
    if t.Full? {
      RunsOfOnes(u, start);
      RunsOfOnes(Unit(level + 1), start);
    } else if t.Empty? {
      RunsOfZeros(u, start);
      RunsOfZeros(Unit(level + 1), start);
    }
  }
}
