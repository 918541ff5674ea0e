/**
 * The sparse bitmap as the source keeps it (`sparse_bitmap.c`): blocks changed in place, with
 * counters that decide when an array of slots collapses.  Every method is proved to do to the
 * block's tree what the function of the same name in `SparseTree` does.
 */
module SparseBitmap {
  import opened Basics
  import opened Ranges
  import opened RunScan
  import opened SparseTree
  import opened SparseRuns

  /** A pointer in `blocks_array`: BLOCK_EMPTY, BLOCK_FULL or a block of the next lower level. */
  datatype Slot = SlotEmpty | SlotFull | SlotBlock(block: SparseBlock)

  /** The `blocks_array` pointer itself. */
  datatype Slots = NoSlots | AllSlots | Slots(items: seq<Slot>)

  function CountOnes(bits: seq<bool>): nat {
    if bits == [] then 0 else (if bits[0] then 1 else 0) + CountOnes(bits[1..])
  }

  function CountUsed(items: seq<Slot>): nat {
    if items == [] then 0 else (if items[0].SlotEmpty? then 0 else 1) + CountUsed(items[1..])
  }

  function CountFull(items: seq<Slot>): nat {
    if items == [] then 0 else (if items[0].SlotFull? then 1 else 0) + CountFull(items[1..])
  }

  class SparseBlock {
    const level: nat
    var bits: seq<bool> // bit_block, used at level 0
    var slots: Slots    // blocks_array, used above
    var fillCount: int
    var cntFull: int
    ghost var tree: Tree
    ghost var Repr: set<object>

    ghost predicate Valid()
      reads this, Repr
    {
      ValidBut(BLOCK)
    }

    /** Valid, except that slot `x` may point to a block that is still, or already, wholly empty or full. */
    ghost predicate ValidBut(x: nat)
      reads this, Repr
      decreases level
    {
      && this in Repr
      && if level == 0 then
           Repr == {this} && |bits| == BLOCK && tree == Leaf(bits) && fillCount == CountOnes(bits)
         else match slots
           case NoSlots => tree == Empty && fillCount == 0 && cntFull == 0
           case AllSlots => tree == Full && fillCount == BLOCK && cntFull == BLOCK
           case Slots(items) =>
             && |items| == BLOCK && tree.Branch? && |tree.kids| == BLOCK
             && fillCount == CountUsed(items) && cntFull == CountFull(items)
             && (forall k | 0 <= k < BLOCK && items[k].SlotBlock? ::
                   var b := items[k].block;
                   && b in Repr && b.level == level - 1 && b.Repr <= Repr && this !in b.Repr && b.ValidBut(BLOCK)
                   && tree.kids[k] == b.tree && (k != x ==> !b.tree.Empty? && !b.tree.Full?))
             && (forall k | 0 <= k < BLOCK && !items[k].SlotBlock? ::
                   tree.kids[k] == if items[k].SlotFull? then Full else Empty)
             && (forall j, k | 0 <= j < k < BLOCK && items[j].SlotBlock? && items[k].SlotBlock? ::
                   items[j].block.Repr !! items[k].block.Repr)
    }

    constructor (level: nat, full: bool)
      ensures Valid() && fresh(Repr) && this.level == level
      ensures tree == Fresh(level, full)
    {
      this.level := level;
      bits := seq(BLOCK, _ => full);
      slots := if full then AllSlots else NoSlots;
      fillCount := if full then BLOCK else 0;
      cntFull := if full then BLOCK else 0;
      tree := Fresh(level, full);
      Repr := {this};
      new;
      CountSame(BLOCK, full);
    }

    method SetLeaf(index: nat) returns (res: Status, st: BlockState)
      requires Valid() && level == 0 && Shaped(0, tree)
      modifies this
      ensures Valid() && Repr == old(Repr)
      ensures (tree, res, st) == SparseTree.Set(0, old(tree), index)
    {
      st, res := StUse, Success;
      var inx := Digit(index, 0);
      if !bits[inx] {
        CountUpdated(bits, inx, true);
        bits := bits[inx := true];
        fillCount := fillCount + 1;
        tree := Leaf(bits);
      } else {
        assert bits[inx := true] == bits;
        res := EAlready;
      }
      CountBounds(bits);
      if fillCount == BLOCK {
        st := StFull;
      }
    }

    /** Give a collapsed block its array of 64 slots. */
    method Unfold()
      requires Valid() && level > 0 && !slots.Slots?
      modifies this
      ensures Valid() && Repr == old(Repr) && slots.Slots? && tree == Branch(Kids(old(tree)))
      ensures slots == Slots(seq(BLOCK, _ => if old(slots.AllSlots?) then SlotFull else SlotEmpty))
    {
      var slot := if slots.AllSlots? then SlotFull else SlotEmpty;
      tree := Branch(Kids(tree));
      slots := Slots(seq(BLOCK, _ => slot));
      SameSlots(BLOCK, slot);
    }

    /** Make sure slot `inx` points to a block, creating it empty or full as the slot was. */
    method Open(inx: nat)
      requires Valid() && level > 0 && slots.Slots? && inx < BLOCK && KidShaped(level - 1, tree.kids[inx])
      modifies this
      ensures ValidBut(inx) && fresh(Repr - old(Repr)) && old(Repr) <= Repr
      ensures slots.Slots? && slots.items[inx].SlotBlock?
      ensures tree == Branch(old(tree.kids)[inx := Expanded(level - 1, old(tree.kids[inx]))])
    {
      var slot := slots.items[inx];
      if !slot.SlotBlock? {
        var child := new SparseBlock(level - 1, slot.SlotFull?);
        Attach(inx, child);
      } else {
        assert tree.kids == tree.kids[inx := slot.block.tree];
      }
    }

    method Attach(inx: nat, child: SparseBlock)
      requires Valid() && level > 0 && slots.Slots? && inx < BLOCK && !slots.items[inx].SlotBlock?
      requires child.Valid() && child.level == level - 1 && child.Repr !! Repr
      modifies this
      ensures ValidBut(inx) && Repr == old(Repr) + child.Repr
      ensures slots == Slots(old(slots.items)[inx := SlotBlock(child)])
      ensures tree == Branch(old(tree.kids)[inx := child.tree])
    {
      var slot := slots.items[inx];
      SlotCounts(slots.items, inx, SlotBlock(child));
      if slot.SlotFull? {
        cntFull := cntFull - 1;
      } else {
        fillCount := fillCount + 1;
      }
      slots := Slots(slots.items[inx := SlotBlock(child)]);
      Repr := Repr + child.Repr;
      tree := Branch(tree.kids[inx := child.tree]);
    }

    /** Valid up to what a change inside the block of slot `x` leaves to be recorded here. */
    ghost predicate Stale(x: nat)
      reads this, Repr
      reads if slots.Slots? && x < |slots.items| && slots.items[x].SlotBlock?
            then slots.items[x].block.Repr + {slots.items[x].block} else {}
    {
      && this in Repr && level > 0 && slots.Slots? && tree.Branch?
      && var items := slots.items;
         && x < BLOCK == |items| == |tree.kids| && items[x].SlotBlock?
         && fillCount == CountUsed(items) && cntFull == CountFull(items)
         && var c := items[x].block;
            && c.level == level - 1 && this !in c.Repr && c in c.Repr && c.ValidBut(BLOCK)
            && (forall k | 0 <= k < BLOCK && k != x && items[k].SlotBlock? ::
                  var b := items[k].block;
                  && b in Repr && b.level == level - 1 && b.Repr <= Repr && this !in b.Repr && b.ValidBut(BLOCK)
                  && tree.kids[k] == b.tree && !b.tree.Empty? && !b.tree.Full? && b.Repr !! c.Repr)
            && (forall k | 0 <= k < BLOCK && !items[k].SlotBlock? ::
                  tree.kids[k] == if items[k].SlotFull? then Full else Empty)
            && (forall j, k | 0 <= j < k < BLOCK && j != x && k != x && items[j].SlotBlock? && items[k].SlotBlock? ::
                  items[j].block.Repr !! items[k].block.Repr)
    }

    ghost method Rejoin(inx: nat)
      requires Stale(inx)
      modifies this
      ensures ValidBut(inx) && slots == old(slots) && Repr == old(Repr) + slots.items[inx].block.Repr
      ensures tree == Branch(old(tree.kids)[inx := slots.items[inx].block.tree])
    {
      Repr := Repr + slots.items[inx].block.Repr;
      tree := Branch(tree.kids[inx := slots.items[inx].block.tree]);
    }

    /** Store BLOCK_FULL or BLOCK_EMPTY in slot `inx` instead of the block there. */
    method Drop(inx: nat, full: bool)
      requires ValidBut(inx) && level > 0 && slots.Slots? && inx < BLOCK && slots.items[inx].SlotBlock?
      modifies this
      ensures Valid() && Repr == old(Repr)
      ensures slots == Slots(old(slots.items)[inx := if full then SlotFull else SlotEmpty])
      ensures tree == Branch(old(tree.kids)[inx := Whole(full)])
    {
      var slot := if full then SlotFull else SlotEmpty;
      var items := slots.items[inx := slot];
      SlotCounts(slots.items, inx, slot);
      if full {
        cntFull := cntFull + 1;
      } else {
        fillCount := fillCount - 1;
      }
      assert fillCount == CountUsed(items) && cntFull == CountFull(items);
      slots := Slots(items);
      tree := Branch(tree.kids[inx := Whole(full)]);
    }

    /** Everything below slot `inx` is set. */
    method Collapse(inx: nat) returns (st: BlockState)
      requires ValidBut(inx) && level > 0 && slots.Slots? && inx < BLOCK && slots.items[inx].SlotBlock?
      modifies this
      ensures Valid() && Repr == old(Repr)
      ensures var kids1 := old(tree.kids)[inx := Full];
              (tree, st)
              == if forall k | 0 <= k < |kids1| :: kids1[k] == Full then (Full, StFull) else (Branch(kids1), StUse)
    {
      Drop(inx, true);
      FullCount(slots.items);
      st := StUse;
      assert forall k | 0 <= k < BLOCK :: slots.items[k].SlotFull? <==> tree.kids[k].Full?;
      if cntFull == BLOCK {
        st := StFull;
        slots := AllSlots;
        tree := Full;
      }
    }

    method SetKid(inx: nat, index: nat) returns (res: Status, sub: BlockState)
      requires ValidBut(inx) && level > 0 && slots.Slots? && inx < BLOCK && slots.items[inx].SlotBlock?
      requires Shaped(level - 1, tree.kids[inx])
      modifies Repr
      ensures ValidBut(inx) && fresh(Repr - old(Repr)) && slots == old(slots)
      ensures (tree, res, sub) == var (kid1, res1, st1) := SparseTree.Set(level - 1, old(tree.kids[inx]), index);
                                  (Branch(old(tree.kids)[inx := kid1]), res1, st1)
      decreases level, 0
    {
      var child := slots.items[inx].block;
      res, sub := child.Set(index);
      assert this in old(Repr) - old(child.Repr);
      forall k | 0 <= k < BLOCK && k != inx && slots.items[k].SlotBlock?
        ensures slots.items[k].block.ValidBut(BLOCK) && slots.items[k].block.Repr !! child.Repr
      {
        assert old(slots.items[k].block.Repr) <= old(Repr) - old(child.Repr);
      }
      Rejoin(inx);
    }

    method SetBelow(inx: nat, index: nat) returns (res: Status, st: BlockState)
      requires Valid() && level > 0 && slots.Slots? && inx < BLOCK && !slots.items[inx].SlotFull? && Node(level, tree)
      modifies Repr
      ensures Valid() && fresh(Repr - old(Repr))
      ensures (tree, res, st) ==
              var (kid1, res1, st1) := SparseTree.Set(level - 1, Expanded(level - 1, old(tree.kids[inx])), index);
              StoreKid(old(tree.kids), inx, kid1, res1, st1, true)
      decreases level, 1
    {
      ghost var kids := tree.kids;
      SetTight(level - 1, kids[inx], index);
      Open(inx);
      st := StUse;
      var sub;
      res, sub := SetKid(inx, index);
      assert tree.kids == kids[inx := tree.kids[inx]];
      if res == Success && sub == StFull {
        assert tree.kids[inx := Full] == kids[inx := Full];
        st := Collapse(inx);
      }
    }

    method SetBranch(index: nat) returns (res: Status, st: BlockState)
      requires Valid() && level > 0 && Shaped(level, tree)
      modifies Repr
      ensures Valid() && fresh(Repr - old(Repr))
      ensures (tree, res, st) == SparseTree.Set(level, old(tree), index)
      decreases level, 2
    {
      var inx := Digit(index, level);
      if slots.AllSlots? {
        return EAlready, StUse;
      }
      if slots.NoSlots? {
        Unfold();
      }
      if slots.items[inx].SlotFull? {
        return EAlready, StUse;
      }
      res, st := SetBelow(inx, index);
    }

    method Set(index: nat) returns (res: Status, st: BlockState)
      requires Valid() && Shaped(level, tree)
      modifies Repr
      ensures Valid() && fresh(Repr - old(Repr))
      ensures (tree, res, st) == SparseTree.Set(level, old(tree), index)
      decreases level, 3
    {
      if level == 0 {
        res, st := SetLeaf(index);
      } else {
        res, st := SetBranch(index);
      }
    }

    method ClearLeaf(index: nat) returns (res: Status, st: BlockState)
      requires Valid() && level == 0 && Shaped(0, tree)
      modifies this
      ensures Valid() && Repr == old(Repr)
      ensures (tree, res, st) == SparseTree.Clear(0, old(tree), index)
    {
      st, res := StUse, Success;
      var inx := Digit(index, 0);
      if bits[inx] {
        CountUpdated(bits, inx, false);
        bits := bits[inx := false];
        fillCount := fillCount - 1;
        tree := Leaf(bits);
      } else {
        assert bits[inx := false] == bits;
        res := EAlready;
      }
      CountBounds(bits);
      if fillCount == 0 {
        st := StEmpty;
      }
    }

    /** Nothing below slot `inx` is set. */
    method Prune(inx: nat) returns (st: BlockState)
      requires ValidBut(inx) && level > 0 && slots.Slots? && inx < BLOCK && slots.items[inx].SlotBlock?
      modifies this
      ensures Valid() && Repr == old(Repr)
      ensures var kids1 := old(tree.kids)[inx := Empty];
              (tree, st)
              == if forall k | 0 <= k < |kids1| :: kids1[k] == Empty then (Empty, StEmpty) else (Branch(kids1), StUse)
    {
      Drop(inx, false);
      FullCount(slots.items);
      st := StUse;
      assert forall k | 0 <= k < BLOCK :: slots.items[k].SlotEmpty? <==> tree.kids[k].Empty?;
      if fillCount == 0 {
        st := StEmpty;
        slots := NoSlots;
        tree := Empty;
      }
    }

    method ClearKid(inx: nat, index: nat) returns (res: Status, sub: BlockState)
      requires ValidBut(inx) && level > 0 && slots.Slots? && inx < BLOCK && slots.items[inx].SlotBlock?
      requires Shaped(level - 1, tree.kids[inx])
      modifies Repr
      ensures ValidBut(inx) && fresh(Repr - old(Repr)) && slots == old(slots)
      ensures (tree, res, sub) == var (kid1, res1, st1) := SparseTree.Clear(level - 1, old(tree.kids[inx]), index);
                                  (Branch(old(tree.kids)[inx := kid1]), res1, st1)
      decreases level, 0
    {
      var child := slots.items[inx].block;
      res, sub := child.Clear(index);
      assert this in old(Repr) - old(child.Repr);
      forall k | 0 <= k < BLOCK && k != inx && slots.items[k].SlotBlock?
        ensures slots.items[k].block.ValidBut(BLOCK) && slots.items[k].block.Repr !! child.Repr
      {
        assert old(slots.items[k].block.Repr) <= old(Repr) - old(child.Repr);
      }
      Rejoin(inx);
    }

    method ClearBelow(inx: nat, index: nat) returns (res: Status, st: BlockState)
      requires Valid() && level > 0 && slots.Slots? && inx < BLOCK && !slots.items[inx].SlotEmpty? && Node(level, tree)
      modifies Repr
      ensures Valid() && fresh(Repr - old(Repr))
      ensures (tree, res, st) ==
              var (kid1, res1, st1) := SparseTree.Clear(level - 1, Expanded(level - 1, old(tree.kids[inx])), index);
              StoreKid(old(tree.kids), inx, kid1, res1, st1, false)
      decreases level, 1
    {
      ghost var kids := tree.kids;
      ClearTight(level - 1, kids[inx], index);
      Open(inx);
      st := StUse;
      var sub;
      res, sub := ClearKid(inx, index);
      assert tree.kids == kids[inx := tree.kids[inx]];
      if res == Success && sub == StEmpty {
        assert tree.kids[inx := Empty] == kids[inx := Empty];
        st := Prune(inx);
      }
    }

    method ClearBranch(index: nat) returns (res: Status, st: BlockState)
      requires Valid() && level > 0 && Shaped(level, tree)
      modifies Repr
      ensures Valid() && fresh(Repr - old(Repr))
      ensures (tree, res, st) == SparseTree.Clear(level, old(tree), index)
      decreases level, 2
    {
      var inx := Digit(index, level);
      if slots.NoSlots? {
        return Success, StEmpty;
      }
      if slots.AllSlots? {
        Unfold();
      }
      if slots.items[inx].SlotEmpty? {
        return Success, StUse;
      }
      res, st := ClearBelow(inx, index);
    }

    method Clear(index: nat) returns (res: Status, st: BlockState)
      requires Valid() && Shaped(level, tree)
      modifies Repr
      ensures Valid() && fresh(Repr - old(Repr))
      ensures (tree, res, st) == SparseTree.Clear(level, old(tree), index)
      decreases level, 3
    {
      if level == 0 {
        res, st := ClearLeaf(index);
      } else {
        res, st := ClearBranch(index);
      }
    }

    method Get(index: nat) returns (bit: bool)
      requires Valid() && Shaped(level, tree)
      ensures bit == SparseTree.Get(level, tree, index)
      decreases level
    {
      if level == 0 {
        return bits[Digit(index, 0)];
      }
      if slots.AllSlots? {
        return true;
      }
      if slots.NoSlots? {
        return false;
      }
      match slots.items[Digit(index, level)]
      case SlotFull => return true;
      case SlotEmpty => return false;
      case SlotBlock(child) => bit := child.Get(index);
    }

    // ---- range extraction ----

    method GetRangesLeaf(s: Scan) returns (r: Scan)
      requires Valid() && level == 0
      ensures r == ScanAll(s, bits)
    {
      r := s;
      var inx := 0;
      while inx < BLOCK
        invariant 0 <= inx <= BLOCK
        invariant r == ScanAll(s, bits[..inx])
      {
        assert bits[..inx + 1] == bits[..inx] + [bits[inx]];
        ScanSnoc(s, bits[..inx], bits[inx]);
        if bits[inx] {
          r := r.(rg := Range(if r.rg.cnt == 0 then r.index else r.rg.ofs, r.rg.cnt + 1));
        } else if r.rg.cnt != 0 {
          r := r.(out := r.out + [r.rg], rg := NO_RANGE);
        }
        r := r.(index := r.index + 1);
        inx := inx + 1;
      }
      assert bits[..BLOCK] == bits;
    }

    /** Emits a slot's worth of set indices: `1 << (6 * level)` of them. */
    method GetRangesFull(s: Scan) returns (r: Scan)
      ensures r == ScanAll(s, seq(Unit(level), _ => true))
    {
      var size := Unit(level);
      ScanOnes(s, seq(size, _ => true));
      r := Scan(s.index + size, Range(if s.rg.cnt == 0 then s.index else s.rg.ofs, s.rg.cnt + size), s.out);
    }

    method GetRangesEmpty(s: Scan) returns (r: Scan)
      ensures r == ScanAll(s, seq(Unit(level), _ => false))
    {
      var size := Unit(level);
      ScanZeros(s, seq(size, _ => false));
      r := s;
      if r.rg.cnt != 0 {
        r := r.(out := r.out + [r.rg], rg := NO_RANGE);
      }
      r := r.(index := r.index + size);
    }

    method GetRangesSlot(inx: nat, s: Scan) returns (r: Scan)
      requires Valid() && level > 0 && slots.Slots? && inx < BLOCK && KidShaped(level - 1, tree.kids[inx])
      ensures r == ScanAll(s, Flat(level - 1, tree.kids[inx]))
      decreases level, 0
    {
      FlatWhole(level - 1, tree.kids[inx]);
      match slots.items[inx]
      case SlotFull => r := GetRangesFull(s);
      case SlotEmpty => r := GetRangesEmpty(s);
      case SlotBlock(child) => r := child.GetRanges(s);
    }

    method GetRangesBlock(s: Scan) returns (r: Scan)
      requires Valid() && level > 0 && slots.Slots? && Shaped(level, tree)
      ensures r == ScanAll(s, FlatKids(level - 1, tree.kids))
      decreases level, 1
    {
      r := s;
      var inx := 0;
      ghost var kids, low := tree.kids, level - 1;
      assert forall k | 0 <= k < |kids| :: KidShaped(low, kids[k]);
      while inx < BLOCK
        invariant 0 <= inx <= BLOCK
        invariant r == ScanAll(s, FlatKids(low, kids[..inx]))
      {
        FlatKidsNext(low, kids, inx);
        ScanAppend(s, FlatKids(low, kids[..inx]), Flat(low, kids[inx]));
        r := GetRangesSlot(inx, r);
        inx := inx + 1;
      }
      assert kids[..BLOCK] == kids;
    }

    method GetRanges(s: Scan) returns (r: Scan)
      requires Valid() && Shaped(level, tree)
      ensures r == ScanAll(s, Emitted(level, tree))
      decreases level, 2
    {
      if level == 0 {
        r := GetRangesLeaf(s);
        FlatLeaf(tree);
      } else if slots.AllSlots? {
        r := GetRangesFull(s);
      } else if slots.NoSlots? {
        r := GetRangesEmpty(s);
      } else {
        r := GetRangesBlock(s);
        FlatBranch(level, level - 1, tree);
      }
    }
  }

  // ---- the whole bitmap ----

  /** `sparse_bitmap_t`. */
  class Bitmap {
    var startIndex: nat
    var length: nat
    var block: SparseBlock
    ghost var Repr: set<object>

    ghost predicate Valid()
      reads this, Repr
    {
      && this in Repr && block in Repr && block.Repr <= Repr && this !in block.Repr
      && block.Valid() && Shaped(block.level, block.tree) && IsLevelOf(block.level, length)
    }

    constructor (minIndex: nat, length: nat)
      ensures Valid() && fresh(Repr)
      ensures startIndex == minIndex && this.length == length && block.tree == Fresh(block.level, false)
    {
      var level := CalcLevel(length);
      startIndex := minIndex;
      this.length := length;
      block := new SparseBlock(level, false);
      new;
      Repr := {this} + block.Repr;
    }

    /** Set or clear one index; the answer tells whether there was anything to do. */
    method Set(index: nat, state: bool) returns (res: Status)
      requires Valid()
      modifies Repr
      ensures Valid() && fresh(Repr - old(Repr)) && startIndex == old(startIndex) && length == old(length)
      ensures block == old(block) && block.level == old(block.level)
      ensures var outside := index < startIndex || index >= startIndex + length;
              && (res == EInval <==> outside) && (outside ==> block.tree == old(block.tree))
      ensures startIndex <= index < startIndex + length ==>
                var level, i := block.level, index - startIndex;
                && Becomes(level, old(block.tree), i, state, block.tree)
                && (res == Success || res == EAlready)
                && (state ==> (res == EAlready <==> Bit(level, old(block.tree), i % Unit(level + 1))))
                && (!state ==> (res == EAlready <==> !Bit(level, old(block.tree), i % Unit(level + 1)) &&
                                                     (level == 0 || GroupUsed(level, old(block.tree), i))))
    {
      if index < startIndex || index >= startIndex + length {
        return EInval;
      }
      if state {
        res := Add(index - startIndex);
      } else {
        res := Remove(index - startIndex);
      }
    }

    method Add(i: nat) returns (res: Status)
      requires Valid()
      modifies Repr
      ensures Valid() && fresh(Repr - old(Repr)) && startIndex == old(startIndex) && length == old(length)
      ensures block == old(block)
      ensures Becomes(block.level, old(block.tree), i, true, block.tree)
      ensures res == if Bit(block.level, old(block.tree), i % Unit(block.level + 1)) then EAlready else Success
    {
      var st;
      SetMeaning(block.level, block.tree, i);
      res, st := block.Set(i);
      Repr := Repr + block.Repr;
    }

    method Remove(i: nat) returns (res: Status)
      requires Valid()
      modifies Repr
      ensures Valid() && fresh(Repr - old(Repr)) && startIndex == old(startIndex) && length == old(length)
      ensures block == old(block)
      ensures Becomes(block.level, old(block.tree), i, false, block.tree)
      ensures res == if !Bit(block.level, old(block.tree), i % Unit(block.level + 1)) &&
                        (block.level == 0 || GroupUsed(block.level, old(block.tree), i)) then EAlready else Success
    {
      var st;
      ClearReport(block.level, block.tree, i);
      res, st := block.Clear(i);
      Repr := Repr + block.Repr;
    }

    method Get(index: nat) returns (res: Status, state: bool)
      requires Valid()
      ensures res == (if index < startIndex || index >= startIndex + length then EInval else Success)
      ensures res == Success ==> state == Bit(block.level, block.tree, (index - startIndex) % Unit(block.level + 1))
    {
      if index < startIndex || index >= startIndex + length {
        return EInval, false;
      }
      GetIsBit(block.level, block.tree, index - startIndex);
      state := block.Get(index - startIndex);
      res := Success;
    }

    /** All set indices as ranges, the first index being called `start`. */
    method ConvertToRangeList(start: nat) returns (list: seq<Range>)
      requires Valid()
      ensures list == RunsOf(Emitted(block.level, block.tree), start)
    {
      var s := block.GetRanges(Scan(start, NO_RANGE, []));
      list := s.out;
      if s.rg.cnt != 0 {
        list := list + [s.rg];
      }
    }
  }

  lemma ClearReport(level: nat, t: Tree, i: nat)
    requires Shaped(level, t)
    ensures var (t1, res, st) := SparseTree.Clear(level, t, i);
            && Shaped(level, t1) && Becomes(level, t, i, false, t1) && (res == Success || res == EAlready)
            && (res == EAlready <==> !Bit(level, t, i % Unit(level + 1)) && (level == 0 || GroupUsed(level, t, i)))
  {
    ClearMeaning(level, t, i);
    if level > 0 && !Bit(level, t, i % Unit(level + 1)) {
      LeafIffGroupUsed(level, t, i);
    }
  }

  /** The number of levels for a length: how often it can be shifted before it is at most 64. */
  method CalcLevel(length: nat) returns (level: nat)
    ensures IsLevelOf(level, length)
  {
    var ull := length;
    level := 0;
    assert Unit(0) == 1;
    while ull > BLOCK
      invariant ull == length / Unit(level)
      invariant forall k | 0 <= k < level :: length / Unit(k) > BLOCK
    {
      ShiftAgain(length, level);
      ull := ull / BLOCK;
      level := level + 1;
    }
  }

  /** After setting below a slot the block there is mixed, unless it is reported full. */
  lemma SetTight(level: nat, slot: Tree, i: nat)
    requires KidShaped(level, slot) && !slot.Full?
    ensures var (kid1, res, st) := SparseTree.Set(level, Expanded(level, slot), i);
            !(res == Success && st == StFull) ==> !kid1.Empty? && !kid1.Full?
  {
  }

  /** After clearing below a slot the block there is mixed, unless it is reported empty. */
  lemma ClearTight(level: nat, slot: Tree, i: nat)
    requires KidShaped(level, slot) && !slot.Empty?
    ensures var (kid1, res, st) := SparseTree.Clear(level, Expanded(level, slot), i);
            !(res == Success && st == StEmpty) ==> !kid1.Empty? && !kid1.Full?
  {
  }

  lemma {:induction false} CountSame(n: nat, v: bool)
    ensures CountOnes(seq(n, _ => v)) == if v then n else 0
  {
    if n > 0 {
      assert seq(n, _ => v)[1..] == seq(n - 1, _ => v);
      CountSame(n - 1, v);
    }
  }

  lemma {:induction false} CountUpdated(bits: seq<bool>, i: nat, v: bool)
    requires i < |bits| && bits[i] != v
    ensures CountOnes(bits[i := v]) == CountOnes(bits) + if v then 1 else -1
  {
    if i == 0 {
      assert bits[0 := v][1..] == bits[1..];
    } else {
      assert bits[i := v][1..] == bits[1..][i - 1 := v];
      CountUpdated(bits[1..], i - 1, v);
    }
  }

  lemma {:induction false} CountBounds(bits: seq<bool>)
    ensures CountOnes(bits) <= |bits|
    ensures CountOnes(bits) == |bits| <==> false !in bits
    ensures CountOnes(bits) == 0 <==> true !in bits
  {
    if bits != [] {
      CountBounds(bits[1..]);
      assert bits == [bits[0]] + bits[1..];
    }
  }

  lemma {:induction false} SameSlots(n: nat, slot: Slot)
    requires !slot.SlotBlock?
    ensures CountUsed(seq(n, _ => slot)) == CountFull(seq(n, _ => slot)) == if slot.SlotFull? then n else 0
  {
    if n > 0 {
      assert seq(n, _ => slot)[1..] == seq(n - 1, _ => slot);
      SameSlots(n - 1, slot);
    }
  }

  lemma {:induction false} SlotCounts(items: seq<Slot>, i: nat, slot: Slot)
    requires i < |items|
    ensures CountUsed(items[i := slot]) - CountUsed(items)
         == (if slot.SlotEmpty? then 0 else 1) - (if items[i].SlotEmpty? then 0 else 1)
    ensures CountFull(items[i := slot]) - CountFull(items)
         == (if slot.SlotFull? then 1 else 0) - (if items[i].SlotFull? then 1 else 0)
  {
    if i == 0 {
      assert items[0 := slot][1..] == items[1..];
    } else {
      assert items[i := slot][1..] == items[1..][i - 1 := slot];
      SlotCounts(items[1..], i - 1, slot);
    }
  }

  lemma {:induction false} FullCount(items: seq<Slot>)
    ensures CountFull(items) <= CountUsed(items) <= |items|
    ensures CountFull(items) == |items| <==> forall k | 0 <= k < |items| :: items[k].SlotFull?
    ensures CountUsed(items) == 0 <==> forall k | 0 <= k < |items| :: items[k].SlotEmpty?
  {
    if items != [] {
      FullCount(items[1..]);
      assert forall k | 0 < k < |items| :: items[k] == items[1..][k - 1];
    }
  }
}
