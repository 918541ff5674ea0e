/**
 * The value of a sparse bitmap block (`sparse_bitmap.c`): a 64-ary radix tree whose wholly empty or
 * full subtrees are collapsed.  Setting, clearing and testing are functions on the tree here; the
 * class in `SparseBitmap.dfy` does them in place.
 */
module SparseTree {
  import opened Basics

  const BLOCK: nat := 64 // SPARSE_BITMAP_BLOCK_SIZE on 64-bit machines

  /** A block of level 0 is a `Leaf`; one above is `Empty`, `Full` or a `Branch`. */
  datatype Tree = Empty | Full | Leaf(bits: seq<bool>) | Branch(kids: seq<Tree>)

  /** BLK_ST_EMPTY, BLK_ST_USE, BLK_ST_FULL. */
  datatype BlockState = StEmpty | StUse | StFull

  // ---- positions ----

  /** `1 << (6 * level)`: the indices below one slot of a block of that level. */
  function Unit(level: nat): (u: nat)
    ensures u > 0
  {
    if level == 0 then 1 else BLOCK * Unit(level - 1)
  }

  /** The slot of an index: `(index >> (6 * level)) & 63`. */
  function Digit(i: nat, level: nat): (d: nat)
    ensures d < BLOCK
  {
    (i / Unit(level)) % BLOCK
  }

  lemma DigitSplit(i: nat, level: nat)
    ensures i % Unit(level + 1) == Digit(i, level) * Unit(level) + i % Unit(level)
    ensures (i % Unit(level + 1)) / Unit(level) == Digit(i, level)
    ensures (i % Unit(level + 1)) % Unit(level) == i % Unit(level)
  {
    var u := Unit(level);
    var q, r := i / u, i % u;
    var d := q % BLOCK;
    DivBounds(i, u);
    DivBounds(q, BLOCK);
    var p := d * u + r;
    assert d * u + u <= BLOCK * u by {
      MulMonotone(d + 1, BLOCK, u);
      assert (d + 1) * u == d * u + u;
    }
    assert i == (q / BLOCK) * (BLOCK * u) + p by {
      assert q * u == (q / BLOCK * BLOCK + d) * u == (q / BLOCK) * (BLOCK * u) + d * u;
    }
    DivModUnique(q / BLOCK, p, BLOCK * u);
    DivModUnique(d, r, u);
  }

  lemma PositionInKid(level: nat, p: nat)
    requires p < Unit(level + 1)
    ensures p / Unit(level) < BLOCK && p % Unit(level) < Unit(level)
    ensures p == (p / Unit(level)) * Unit(level) + p % Unit(level)
  {
    var u := Unit(level);
    var q := p / u;
    assert q * u <= p by { DivBounds(p, u); }
    MulCancelLess(q, BLOCK, u);
    DivBounds(p, u);
  }

  // ---- well-formed and canonical trees ----

  /** A block that is not collapsed; the slots below hold collapsed subtrees or mixed blocks. */
  predicate Node(level: nat, t: Tree)
    decreases level
  {
    if level == 0 then t.Leaf? && |t.bits| == BLOCK
    else
      t.Branch? && |t.kids| == BLOCK &&
      forall k | 0 <= k < BLOCK ::
        t.kids[k].Empty? || t.kids[k].Full? || (Mixed(t.kids[k]) && Node(level - 1, t.kids[k]))
  }

  predicate KidShaped(level: nat, t: Tree) {
    t.Empty? || t.Full? || (Mixed(t) && Node(level, t))
  }

  /** A whole block: above level 0 it is collapsed as soon as it is empty or full. */
  predicate Shaped(level: nat, t: Tree) {
    if level == 0 then Node(0, t) else KidShaped(level, t)
  }

  predicate Slotted(level: nat, t: Tree) {
    t.Empty? || t.Full? || Node(level, t)
  }

  /** Neither wholly empty nor wholly full. */
  predicate Mixed(t: Tree) {
    match t
    case Leaf(bits) => true in bits && false in bits
    case Branch(kids) =>
      (exists k :: 0 <= k < |kids| && !kids[k].Empty?) && (exists k :: 0 <= k < |kids| && !kids[k].Full?)
    case _ => false
  }

  /** Bit `p` of a block, by position: the reference meaning of the tree. */
  function Bit(level: nat, t: Tree, p: nat): bool
    requires p < Unit(level + 1) && Slotted(level, t)
    decreases level
  {
    match t
    case Empty => false
    case Full => true
    case Leaf(bits) =>
      assert Unit(0) == 1;
      bits[p]
    case Branch(kids) =>
      PositionInKid(level, p);
      Bit(level - 1, kids[p / Unit(level)], p % Unit(level))
  }

  function Flat(level: nat, t: Tree): (r: seq<bool>)
    requires Slotted(level, t)
    ensures |r| == Unit(level + 1)
  {
    seq(Unit(level + 1), p requires 0 <= p < Unit(level + 1) && Slotted(level, t) => Bit(level, t, p))
  }

  // ---- the operations ----

  ghost predicate SameBits(level: nat, a: Tree, b: Tree)
    requires Slotted(level, a) && Slotted(level, b)
  {
    forall p | 0 <= p < Unit(level + 1) :: Bit(level, a, p) == Bit(level, b, p)
  }

  function Fresh(level: nat, full: bool): (t: Tree)
    ensures Shaped(level, t)
    ensures forall p | 0 <= p < Unit(level + 1) :: Bit(level, t, p) == full
  {
    if level == 0 then Leaf(seq(BLOCK, _ => full)) else if full then Full else Empty
  }

  function Get(level: nat, t: Tree, i: nat): bool
    requires Shaped(level, t)
    decreases level
  {
    match t
    case Leaf(bits) => bits[Digit(i, 0)]
    case Full => true
    case Empty => false
    case Branch(kids) =>
      var kid := kids[Digit(i, level)];
      if kid.Full? then true else if kid.Empty? then false else Get(level - 1, kid, i)
  }

  function Kids(t: Tree): seq<Tree>
  {
    match t
    case Branch(kids) => kids
    case Full => seq(BLOCK, _ => Full)
    case _ => seq(BLOCK, _ => Empty)
  }

  /** The block a slot points to, created when the slot is collapsed. */
  function Expanded(level: nat, slot: Tree): (t: Tree)
    requires KidShaped(level, slot)
    ensures Shaped(level, t) && SameBits(level, slot, t)
  {
    if slot.Empty? then Fresh(level, false) else if slot.Full? then Fresh(level, true) else slot
  }

  function Whole(v: bool): Tree {
    if v then Full else Empty
  }

  function WholeState(v: bool): BlockState {
    if v then StFull else StEmpty
  }

  /** Put a kid back after setting (`v`) or clearing below it, collapsing what became whole. */
  function StoreKid(kids: seq<Tree>, d: nat, kid: Tree, res: Status, st: BlockState,
          v: bool): (Tree, Status, BlockState)
    requires d < |kids|
  {
    if res != Success || st != WholeState(v) then (Branch(kids[d := kid]), res, StUse)
    else
      var kids1 := kids[d := Whole(v)];
      if forall k | 0 <= k < |kids1| :: kids1[k] == Whole(v) then (Whole(v), res, st) else (Branch(kids1), res, StUse)
  }

  function Set(level: nat, t: Tree, i: nat): (Tree, Status, BlockState)
    requires Shaped(level, t)
    decreases level
  {
    if level == 0 then
      var d := Digit(i, 0);
      var bits := t.bits[d := true];
      (Leaf(bits), if t.bits[d] then EAlready else Success, if false in bits then StUse else StFull)
    else if t.Full? then (t, EAlready, StUse)
    else
      var d := Digit(i, level);
      var kids := Kids(t);
      if kids[d].Full? then (Branch(kids), EAlready, StUse)
      else
        var (kid1, res, st) := Set(level - 1, Expanded(level - 1, kids[d]), i);
        StoreKid(kids, d, kid1, res, st, true)
  }

  function Clear(level: nat, t: Tree, i: nat): (Tree, Status, BlockState)
    requires Shaped(level, t)
    decreases level
  {
    if level == 0 then
      var d := Digit(i, 0);
      var bits := t.bits[d := false];
      (Leaf(bits), if t.bits[d] then Success else EAlready, if true in bits then StUse else StEmpty)
    else if t.Empty? then (t, Success, StEmpty)
    else
      var d := Digit(i, level);
      var kids := Kids(t);
      if kids[d].Empty? then (Branch(kids), Success, StUse)
      else
        var (kid1, res, st) := Clear(level - 1, Expanded(level - 1, kids[d]), i);
        StoreKid(kids, d, kid1, res, st, false)
  }

  // ---- their meaning ----

  lemma {:induction false} GetIsBit(level: nat, t: Tree, i: nat)
    requires Shaped(level, t)
    ensures Get(level, t, i) == Bit(level, t, i % Unit(level + 1))
    decreases level
  {
    DigitSplit(i, level);
    match t
    case Leaf(_) =>
    case Empty =>
    case Full =>
    case Branch(kids) =>
      var kid := kids[Digit(i, level)];
      if !kid.Full? && !kid.Empty? {
        GetIsBit(level - 1, kid, i);
      }
  }

  /** `t1` is `t` with index `i` set to `v`, said position by position. */
  ghost predicate Becomes(level: nat, t: Tree, i: nat, v: bool, t1: Tree)
    requires Slotted(level, t) && Slotted(level, t1)
  {
    forall p | 0 <= p < Unit(level + 1) :: Bit(level, t1, p) == if p == i % Unit(level + 1) then v else Bit(level, t, p)
  }

  /** A position lies in the slot of the index and is the index there, or is another one. */
  lemma PositionIs(level: nat, i: nat, p: nat)
    requires p < Unit(level + 1)
    ensures p == i % Unit(level + 1) <==> p / Unit(level) == Digit(i, level) && p % Unit(level) == i % Unit(level)
  {
    PositionInKid(level, p);
    DigitSplit(i, level);
  }

  /** Replacing one kid changes only the bits below its slot. */
  lemma {:induction false} KidReplaced(level: nat, low: nat, kids: seq<Tree>, i: nat, v: bool, kid: Tree)
    requires level == low + 1 && Node(level, Branch(kids)) && KidShaped(low, kid)
    requires Becomes(low, kids[Digit(i, level)], i, v, kid)
    ensures Node(level, Branch(kids[Digit(i, level) := kid]))
    ensures Becomes(level, Branch(kids), i, v, Branch(kids[Digit(i, level) := kid]))
  {
    var d := Digit(i, level);
    var t, t1 := Branch(kids), Branch(kids[d := kid]);
    forall p | 0 <= p < Unit(level + 1)
      ensures Bit(level, t1, p) == if p == i % Unit(level + 1) then v else Bit(level, t, p)
    {
      PositionIs(level, i, p);
      PositionInKid(level, p);
      var q, r := p / Unit(level), p % Unit(level);
      assert Bit(level, t1, p) == Bit(low, kids[d := kid][q], r);
      assert Bit(level, t, p) == Bit(low, kids[q], r);
    }
  }

  /** A collapsed block and its expanded array of slots hold the same bits. */
  lemma KidsSame(level: nat, t: Tree)
    requires level > 0 && Shaped(level, t)
    ensures Node(level, Branch(Kids(t))) && SameBits(level, t, Branch(Kids(t)))
  {
  }

  ghost predicate AllBits(level: nat, t: Tree, v: bool)
    requires Slotted(level, t)
  {
    forall p | 0 <= p < Unit(level + 1) :: Bit(level, t, p) == v
  }

  /** A slot that is not collapsed to empty has a set bit, one not collapsed to full a clear one. */
  lemma {:induction false} KidHasBit(level: nat, t: Tree, v: bool)
    requires KidShaped(level, t) && (if v then !t.Empty? else !t.Full?)
    ensures !AllBits(level, t, !v)
    decreases level
  {
    if t.Empty? || t.Full? {
      assert Bit(level, t, 0) == v;
    } else if level == 0 {
      assert Unit(0) == 1;
      var p :| 0 <= p < BLOCK && t.bits[p] == v;
      assert Bit(level, t, p) == v;
    } else {
      var k :| 0 <= k < BLOCK && (if v then !t.kids[k].Empty? else !t.kids[k].Full?);
      KidHasBit(level - 1, t.kids[k], v);
      var r :| 0 <= r < Unit(level) && Bit(level - 1, t.kids[k], r) == v;
      var p := BitAbove(level, level - 1, t, k, r);
      assert Bit(level, t, p) == v;
    }
  }

  /** What a set or clear that changed something hands to the parent. */
  ghost predicate KidAfter(level: nat, t: Tree, collapsed: bool, v: bool)
    requires Slotted(level, t)
  {
    if collapsed then AllBits(level, t, v) && (level > 0 ==> t == Whole(v)) else Mixed(t) && Node(level, t)
  }

  /** Storing a changed kid in its slot: the block stays canonical, collapsed if nothing else is left. */
  lemma KidStored(level: nat, low: nat, t: Tree, i: nat, v: bool, kid: Tree, st: BlockState)
    requires level == low + 1 && Shaped(level, t) && KidShaped(low, Kids(t)[Digit(i, level)])
    requires Slotted(low, kid) && KidAfter(low, kid, st == WholeState(v), v)
    requires Becomes(low, Kids(t)[Digit(i, level)], i, v, kid)
    ensures var (t1, res, st1) := StoreKid(Kids(t), Digit(i, level), kid, Success, st, v);
            && Shaped(level, t1) && Becomes(level, t, i, v, t1) && KidAfter(level, t1, st1 == WholeState(v), v)
  {
    var d := Digit(i, level);
    var slot := if st == WholeState(v) then Whole(v) else kid;
    var kids1 := Kids(t)[d := slot];
    KidsSame(level, t);
    KidReplaced(level, low, Kids(t), i, v, slot);
    assert kids1[d] != Whole(!v) by {
      assert Bit(low, slot, i % Unit(level)) == v;
    }
    if forall k | 0 <= k < |kids1| :: kids1[k] == Whole(v) {
      WholeBits(level, kids1, v);
    } else {
      assert Mixed(Branch(kids1));
    }
  }

  lemma WholeBits(level: nat, kids: seq<Tree>, v: bool)
    requires level > 0 && |kids| == BLOCK && forall k | 0 <= k < |kids| :: kids[k] == Whole(v)
    ensures Node(level, Branch(kids)) && AllBits(level, Branch(kids), v)
  {
  }

  lemma BitBelow(level: nat, low: nat, t: Tree, p: nat) returns (k: nat, r: nat)
    requires level == low + 1 && Node(level, t) && p < Unit(level + 1)
    ensures k == p / Unit(level) < BLOCK && r == p % Unit(level) < Unit(level)
    ensures Bit(level, t, p) == Bit(low, t.kids[k], r)
  {
    PositionInKid(level, p);
    k, r := p / Unit(level), p % Unit(level);
  }

  lemma BitAbove(level: nat, low: nat, t: Tree, k: nat, r: nat) returns (p: nat)
    requires level == low + 1 && Node(level, t) && k < BLOCK && r < Unit(level)
    ensures p == k * Unit(level) + r < Unit(level + 1)
    ensures Bit(level, t, p) == Bit(low, t.kids[k], r)
  {
    var u := Unit(level);
    p := k * u + r;
    assert p < Unit(level + 1) by {
      MulMonotone(k + 1, BLOCK, u);
      assert (k + 1) * u == k * u + u;
    }
    DivModUnique(k, r, u);
  }

  lemma SetLeaf(t: Tree, i: nat)
    requires Node(0, t)
    ensures var (t1, res, st) := Set(0, t, i);
            && Node(0, t1) && Becomes(0, t, i, true, t1)
            && (res == EAlready <==> Bit(0, t, i % Unit(1))) && (res == EAlready ==> t1 == t)
            && (res == Success ==> KidAfter(0, t1, st == StFull, true))
  {
  }

  /** Setting an index sets exactly its bit, reports whether it was set, and stays canonical. */
  ghost predicate SetWorks(level: nat, t: Tree, i: nat)
    requires Shaped(level, t)
  {
    var (t1, res, st) := Set(level, t, i);
    && Shaped(level, t1) && Becomes(level, t, i, true, t1)
    && (res == EAlready <==> Bit(level, t, i % Unit(level + 1)))
    && (res == EAlready ==> t1 == t)
    && (res == Success ==> KidAfter(level, t1, st == StFull, true))
    && (res == Success || res == EAlready)
  }

  lemma {:induction false} SetMeaning(level: nat, t: Tree, i: nat)
    requires Shaped(level, t)
    ensures SetWorks(level, t, i)
    decreases level
  {
    if level == 0 {
      SetLeaf(t, i);
    } else {
      KidOk(level, level - 1, t, i);
      var slot := Kids(t)[Digit(i, level)];
      if t.Full? || slot.Full? {
        SetFound(level, t, i);
      } else {
        SetMeaning(level - 1, Expanded(level - 1, slot), i);
        SetStep(level, level - 1, t, i);
      }
    }
  }

  lemma SetFound(level: nat, t: Tree, i: nat)
    requires level > 0 && Shaped(level, t) && (t.Full? || Kids(t)[Digit(i, level)].Full?)
    ensures SetWorks(level, t, i)
  {
    BitInKid(level, level - 1, t, i);
  }

  lemma SetStep(level: nat, low: nat, t: Tree, i: nat)
    requires level == low + 1 && Shaped(level, t) && !t.Full? && KidShaped(low, Kids(t)[Digit(i, level)])
    requires !Kids(t)[Digit(i, level)].Full? && SetWorks(low, Expanded(low, Kids(t)[Digit(i, level)]), i)
    ensures SetWorks(level, t, i)
  {
    var slot := Kids(t)[Digit(i, level)];
    BitInKid(level, low, t, i);
    var (kid1, res, st) := Set(low, Expanded(low, slot), i);
    if res == Success {
      KidStored(level, low, t, i, true, kid1, st);
    } else {
      assert slot == Expanded(low, slot) by {
        assert Bit(low, slot, i % Unit(level));
      }
      assert Kids(t)[Digit(i, level) := kid1] == Kids(t);
    }
  }

  lemma KidOk(level: nat, low: nat, t: Tree, i: nat)
    requires level == low + 1 && Shaped(level, t)
    ensures KidShaped(low, Kids(t)[Digit(i, level)])
  {
  }

  lemma BitInKid(level: nat, low: nat, t: Tree, i: nat)
    requires level == low + 1 && Shaped(level, t)
    ensures KidShaped(low, Kids(t)[Digit(i, level)])
    ensures Bit(level, t, i % Unit(level + 1)) == Bit(low, Kids(t)[Digit(i, level)], i % Unit(low + 1))
  {
    DigitSplit(i, level);
  }

  // ---- clearing ----

  /** The bits around `i` have a block of their own: the walk to `i` meets no collapsed slot. */
  predicate HasLeaf(level: nat, t: Tree, i: nat)
    requires Slotted(level, t)
    decreases level
  {
    match t
    case Leaf(_) => true
    case Branch(kids) => HasLeaf(level - 1, kids[Digit(i, level)], i)
    case _ => false
  }

  /** Clearing clears exactly one bit and stays canonical; it complains only about a clear bit of an existing leaf. */
  ghost predicate ClearWorks(level: nat, t: Tree, i: nat)
    requires Shaped(level, t)
  {
    var (t1, res, st) := Clear(level, t, i);
    && Shaped(level, t1) && Becomes(level, t, i, false, t1)
    && (res == EAlready <==> !Bit(level, t, i % Unit(level + 1)) && HasLeaf(level, t, i))
    && (res == EAlready ==> t1 == t)
    && (res == Success ==> KidAfter(level, t1, st == StEmpty, false))
    && (res == Success || res == EAlready)
  }

  lemma {:induction false} ClearMeaning(level: nat, t: Tree, i: nat)
    requires Shaped(level, t)
    ensures ClearWorks(level, t, i)
    decreases level
  {
    if level == 0 {
      ClearLeaf(t, i);
    } else {
      KidOk(level, level - 1, t, i);
      var slot := Kids(t)[Digit(i, level)];
      if t.Empty? || slot.Empty? {
        ClearFound(level, t, i);
      } else {
        ClearMeaning(level - 1, Expanded(level - 1, slot), i);
        ClearStep(level, level - 1, t, i);
      }
    }
  }

  lemma ClearLeaf(t: Tree, i: nat)
    requires Node(0, t)
    ensures ClearWorks(0, t, i)
  {
  }

  lemma ClearFound(level: nat, t: Tree, i: nat)
    requires level > 0 && Shaped(level, t) && (t.Empty? || Kids(t)[Digit(i, level)].Empty?)
    ensures ClearWorks(level, t, i)
  {
    BitInKid(level, level - 1, t, i);
  }

  lemma ClearStep(level: nat, low: nat, t: Tree, i: nat)
    requires level == low + 1 && Shaped(level, t) && !t.Empty? && KidShaped(low, Kids(t)[Digit(i, level)])
    requires !Kids(t)[Digit(i, level)].Empty? && ClearWorks(low, Expanded(low, Kids(t)[Digit(i, level)]), i)
    ensures ClearWorks(level, t, i)
  {
    var slot := Kids(t)[Digit(i, level)];
    BitInKid(level, low, t, i);
    var (kid1, res, st) := Clear(low, Expanded(low, slot), i);
    if res == Success {
      KidStored(level, low, t, i, false, kid1, st);
    } else {
      assert slot == Expanded(low, slot) by {
        assert !Bit(low, slot, i % Unit(level));
      }
      assert Kids(t)[Digit(i, level) := kid1] == Kids(t);
    }
  }

  /** The aligned group of 64 indices around `i` holds a set bit. */
  ghost predicate GroupUsed(level: nat, t: Tree, i: nat)
    requires Slotted(level, t)
  {
    exists q :: 0 <= q < Unit(level + 1) && q / BLOCK == (i % Unit(level + 1)) / BLOCK && Bit(level, t, q)
  }

  /**
   * The leaf of a clear index exists exactly when its group of 64 holds a set bit, so clearing a
   * clear index fails with EALREADY exactly then (always on a one-level map).
   */
  lemma {:induction false} LeafIffGroupUsed(level: nat, t: Tree, i: nat)
    requires level > 0 && KidShaped(level, t) && !Bit(level, t, i % Unit(level + 1))
    ensures HasLeaf(level, t, i) <==> GroupUsed(level, t, i)
    decreases level
  {
    var low := level - 1;
    DigitSplit(i, level);
    if t.Branch? {
      var kid := t.kids[Digit(i, level)];
      BitInKid(level, low, t, i);
      if low == 0 {
        LeafGroup(kid, i);
      } else {
        LeafIffGroupUsed(low, kid, i);
      }
      GroupInKid(level, low, t, i);
    }
  }

  lemma LeafGroup(t: Tree, i: nat)
    requires KidShaped(0, t) && !Bit(0, t, i % Unit(1))
    ensures HasLeaf(0, t, i) <==> GroupUsed(0, t, i)
  {
    assert Unit(0) == 1 && Unit(1) == BLOCK;
    if t.Leaf? {
      var q :| 0 <= q < BLOCK && t.bits[q];
      assert Bit(0, t, q);
    }
  }

  /** A group of 64 lies below one slot. */
  lemma GroupInKid(level: nat, low: nat, t: Tree, i: nat)
    requires level == low + 1 && Node(level, t)
    ensures GroupUsed(level, t, i) <==> GroupUsed(low, t.kids[Digit(i, level)], i)
  {
    if GroupUsed(level, t, i) {
      var q :| 0 <= q < Unit(level + 1) && q / BLOCK == (i % Unit(level + 1)) / BLOCK && Bit(level, t, q);
      GroupBelow(level, low, t, i, q);
    }
    if GroupUsed(low, t.kids[Digit(i, level)], i) {
      var r :| 0 <= r < Unit(level) && r / BLOCK == (i % Unit(level)) / BLOCK && Bit(low, t.kids[Digit(i, level)], r);
      GroupAbove(level, low, t, i, r);
    }
  }

  lemma GroupBelow(level: nat, low: nat, t: Tree, i: nat, q: nat)
    requires level == low + 1 && Node(level, t)
    requires q < Unit(level + 1) && q / BLOCK == (i % Unit(level + 1)) / BLOCK && Bit(level, t, q)
    ensures GroupUsed(low, t.kids[Digit(i, level)], i)
  {
    PositionInKid(level, q);
    GroupDigits(low, q, i % Unit(level + 1));
    DigitSplit(i, level);
    assert Bit(low, t.kids[Digit(i, level)], q % Unit(level));
  }

  lemma GroupAbove(level: nat, low: nat, t: Tree, i: nat, r: nat)
    requires level == low + 1 && Node(level, t)
    requires r < Unit(level) && r / BLOCK == (i % Unit(level)) / BLOCK && Bit(low, t.kids[Digit(i, level)], r)
    ensures GroupUsed(level, t, i)
  {
    var d, u := Digit(i, level), Unit(level);
    var q := BitAbove(level, low, t, d, r);
    assert q / BLOCK == (i % Unit(level + 1)) / BLOCK by {
      DigitSplit(i, level);
      SameGroup(low, d, r, i % u);
    }
  }

  lemma GroupDigits(low: nat, x: nat, y: nat)
    requires x / BLOCK == y / BLOCK
    ensures x / Unit(low + 1) == y / Unit(low + 1)
    ensures (x % Unit(low + 1)) / BLOCK == (y % Unit(low + 1)) / BLOCK
  {
    GroupParts(low, x);
    GroupParts(low, y);
  }

  lemma GroupParts(low: nat, x: nat)
    ensures x / Unit(low + 1) == (x / BLOCK) / Unit(low)
    ensures (x % Unit(low + 1)) / BLOCK == (x / BLOCK) % Unit(low)
  {
    var v := Unit(low);
    var g, r := x / BLOCK, x % BLOCK;
    var q, m := g / v, g % v;
    DivBounds(g, v);
    var rest := m * BLOCK + r;
    assert rest < BLOCK * v by {
      MulMonotone(m + 1, v, BLOCK);
    }
    assert x == q * (BLOCK * v) + rest by {
      assert g * BLOCK == (q * v + m) * BLOCK == q * (BLOCK * v) + m * BLOCK;
    }
    DivModUnique(q, rest, BLOCK * v);
  }

  lemma SameGroup(low: nat, d: nat, r: nat, r': nat)
    requires r / BLOCK == r' / BLOCK
    ensures (d * Unit(low + 1) + r) / BLOCK == (d * Unit(low + 1) + r') / BLOCK
  {
    var v := Unit(low);
    assert d * Unit(low + 1) == (d * v) * BLOCK;
    assert ((d * v) * BLOCK + r) / BLOCK == d * v + r / BLOCK;
    assert ((d * v) * BLOCK + r') / BLOCK == d * v + r' / BLOCK;
  }

  // ---- canonical trees are unique ----

  /** Two canonical blocks with the same bits are the same tree. */
  lemma {:induction false} CanonicalUnique(level: nat, a: Tree, b: Tree)
    requires KidShaped(level, a) && KidShaped(level, b) && SameBits(level, a, b)
    ensures a == b
    decreases level
  {
    KidCollapses(level, a, b);
    KidCollapses(level, b, a);
    if Node(level, a) && Node(level, b) {
      if level == 0 {
        assert Unit(0) == 1;
        assert forall k | 0 <= k < BLOCK :: a.bits[k] == Bit(0, a, k) == Bit(0, b, k) == b.bits[k];
        assert a.bits == b.bits;
      } else {
        forall k | 0 <= k < BLOCK
          ensures a.kids[k] == b.kids[k]
        {
          KidsAgree(level, level - 1, a, b, k);
          CanonicalUnique(level - 1, a.kids[k], b.kids[k]);
        }
        assert a.kids == b.kids;
      }
    }
  }

  lemma KidCollapses(level: nat, a: Tree, b: Tree)
    requires KidShaped(level, a) && KidShaped(level, b) && SameBits(level, a, b)
    ensures (a.Empty? ==> b.Empty?) && (a.Full? ==> b.Full?)
  {
    if a.Empty? && !b.Empty? {
      KidHasBit(level, b, true);
    }
    if a.Full? && !b.Full? {
      KidHasBit(level, b, false);
    }
  }

  lemma KidsAgree(level: nat, low: nat, a: Tree, b: Tree, k: nat)
    requires level == low + 1 && Node(level, a) && Node(level, b) && SameBits(level, a, b) && k < BLOCK
    ensures SameBits(low, a.kids[k], b.kids[k])
  {
    forall r | 0 <= r < Unit(low + 1)
      ensures Bit(low, a.kids[k], r) == Bit(low, b.kids[k], r)
    {
      var p := BitAbove(level, low, a, k, r);
      var p' := BitAbove(level, low, b, k, r);
      assert Bit(level, a, p) == Bit(level, b, p);
    }
  }

  // ---- how many levels a length gets ----

  ghost predicate IsLevelOf(level: nat, length: nat) {
    length / Unit(level) <= BLOCK && forall k | 0 <= k < level :: length / Unit(k) > BLOCK
  }

  lemma ShiftAgain(x: nat, level: nat)
    ensures (x / Unit(level)) / BLOCK == x / Unit(level + 1)
  {
    var u := Unit(level);
    var q := x / u;
    var g, r := q / BLOCK, q % BLOCK;
    assert q * u <= x < (q + 1) * u by { DivBounds(x, u); }
    assert q == g * BLOCK + r;
    assert g * (BLOCK * u) <= q * u by {
      assert q * u == g * (BLOCK * u) + r * u;
    }
    assert (q + 1) * u <= (g + 1) * (BLOCK * u) by {
      MulMonotone(q + 1, (g + 1) * BLOCK, u);
      assert (g + 1) * BLOCK * u == (g + 1) * (BLOCK * u);
    }
    DivUnique(x, g, BLOCK * u);
  }

  lemma {:induction false} UnitGrows(a: nat, b: nat)
    requires a <= b
    ensures Unit(a) <= Unit(b)
    decreases b
  {
    if a < b {
      UnitGrows(a, b - 1);
    }
  }

  /** The lengths that get a tree too small for them. */
  ghost predicate Shortchanged(length: nat) {
    exists k: nat :: k >= 1 && Unit(k + 1) < length < (BLOCK + 1) * Unit(k)
  }

  /** The tree covers the length exactly when the truncating shifts lose nothing that mattered. */
  lemma CoversIff(level: nat, length: nat)
    requires IsLevelOf(level, length)
    ensures length <= Unit(level + 1) <==> !Shortchanged(length)
  {
    var u := Unit(level);
    DivBounds(length, u);
    if length > Unit(level + 1) {
      assert length < (BLOCK + 1) * u by {
        MulMonotone(length / u + 1, BLOCK + 1, u);
      }
      assert level >= 1 by {
        assert Unit(0) == 1;
      }
    } else if Shortchanged(length) {
      var k: nat :| k >= 1 && Unit(k + 1) < length < (BLOCK + 1) * Unit(k);
      if level <= k {
        UnitGrows(level + 1, k + 1);
      } else {
        assert length / Unit(k) > BLOCK;
        DivBounds(length, Unit(k));
        MulMonotone(BLOCK + 1, length / Unit(k), Unit(k));
      }
      assert false;
    }
  }
}
