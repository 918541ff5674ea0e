/** The vector of ranges in memory (`rangevector.c`): a list of fixed-size arrays. */
module RangeVectors {
  import opened Basics
  import opened Ranges
  import opened Chunked
  import opened RangeLists

  const EL_CAPACITY: nat := 1000 // RANGEVECTOR_EL_CAPACITY

  /** `rangevector_el_t`. */
  class Element {
    var cnt: nat
    const ranges: array<Range>

    ghost predicate Valid()
      reads this
    {
      cnt <= ranges.Length == EL_CAPACITY
    }

    function Items(): (s: seq<Range>)
      requires Valid()
      reads this, ranges
      ensures |s| == cnt
    {
      ranges[..cnt]
    }

    constructor ()
      ensures Valid() && cnt == 0 && fresh(ranges)
    {
      cnt := 0;
      ranges := new Range[EL_CAPACITY];
    }

    /** The inner loop of `rangevector_v2p`. */
    method Scan(left: nat, ofs: nat, length: nat, found: Option<Phys>) returns (virtLeft: nat, phys: Option<Phys>)
      requires Valid()
      ensures (virtLeft, phys) == ScanChunk(Items(), left, ofs, length, found)
    {
      virtLeft, phys := left, found;
      var inx := 0;
      ghost var items := Items();
      while inx < cnt
        invariant 0 <= inx <= cnt
        invariant ScanChunk(items[inx..], virtLeft, ofs, length, phys) == ScanChunk(items, left, ofs, length, found)
      {
        var range := ranges[inx];
        assert items[inx..][0] == range && items[inx..][1..] == items[inx + 1..];
        var virtRight := virtLeft + range.cnt;
        if virtLeft <= ofs < virtRight {
          phys := Some(Phys(range.ofs + (ofs - virtLeft), Min(length, virtRight - ofs)));
          return;
        }
        virtLeft := virtRight;
        inx := inx + 1;
      }
    }

    method Length() returns (total: nat)
      requires Valid()
      ensures total == Total(Items())
    {
      total := 0;
      var inx := 0;
      ghost var items := Items();
      while inx < cnt
        invariant 0 <= inx <= cnt && total == Total(items[..inx])
      {
        assert items[..inx + 1] == items[..inx] + [items[inx]];
        TotalAppend(items[..inx], [items[inx]]);
        total := total + ranges[inx].cnt;
        inx := inx + 1;
      }
      assert items[..inx] == items;
    }

    /**
     * `rangevector_el_find_first_hit`: the first range the request meets.  The bisection never
     * looks at the first range when there are others, so a hit there alone is missed.
     */
    method FindFirstHit(from: nat, to: nat) returns (found: Option<nat>)
      requires Valid() && cnt > 0 && Ordered(Items())
      ensures found.Some? ==> IsFirstHit(Items(), from, to, found.value)
      ensures found.None? <==> NoHit(Items(), from, to) || OnlyFirstHit(Items(), from, to)
    {
      ghost var list := Items();
      var limitMin, limitMax := 0, cnt;
      var index := (limitMax - limitMin) / 2;
      found := None;
      while true
        invariant 0 <= limitMin <= index < limitMax <= cnt && (index == 0 ==> cnt == 1)
        invariant limitMin > 0 ==> list[limitMin].ofs + list[limitMin].cnt <= from && limitMin < index
        invariant limitMax < cnt ==> list[limitMax].ofs >= to && list[limitMax].ofs + list[limitMax].cnt > from
        invariant found.None?
        decreases limitMax - limitMin, limitMax - index
      {
        var rg := ranges[index];
        if rg.ofs + rg.cnt <= from {
          var increment := (limitMax - index) / 2;
          if increment == 0 {
            NothingBetween(list, from, to, index, limitMax);
            return;
          }
          limitMin := index;
          index := index + increment;
        } else if rg.ofs >= to {
          var decrement := (index - limitMin) / 2;
          if decrement == 0 {
            NothingButFirst(list, from, to, limitMin, index);
            return;
          }
          limitMax := index;
          index := index - decrement;
        } else {
          found := Some(index);
          break;
        }
      }
      HitsAreTogether(list, from, to, index);
      while index > 0
        invariant 0 <= index < cnt && found == Some(index) && Hit(list[index], from, to)
        decreases index
      {
        var rg := ranges[index - 1];
        if rg.ofs + rg.cnt <= from || rg.ofs >= to {
          NothingBefore(list, from, to, index);
          return;
        }
        index := index - 1;
        found := Some(index);
      }
    }
  }

  /** Everything up to `low` lies before the request and everything from `high` on behind it. */
  lemma NothingBetween(list: seq<Range>, from: nat, to: nat, low: nat, high: nat)
    requires Ordered(list) && low + 1 == high <= |list| && list[low].ofs + list[low].cnt <= from
    requires high < |list| ==> list[high].ofs >= to
    ensures NoHit(list, from, to)
  {
  }

  lemma NothingButFirst(list: seq<Range>, from: nat, to: nat, low: nat, index: nat)
    requires Ordered(list) && low <= index <= low + 1 && index < |list| && (index == 0 ==> |list| == 1)
    requires list[index].ofs >= to && list[index].ofs + list[index].cnt > from
    requires low > 0 ==> list[low].ofs + list[low].cnt <= from && low < index
    ensures NoHit(list, from, to) || OnlyFirstHit(list, from, to)
  {
  }

  lemma HitsAreTogether(list: seq<Range>, from: nat, to: nat, k: nat)
    requires Ordered(list) && k < |list| && Hit(list[k], from, to) && (k == 0 ==> |list| == 1)
    ensures !NoHit(list, from, to) && !OnlyFirstHit(list, from, to)
  {
  }

  lemma NothingBefore(list: seq<Range>, from: nat, to: nat, k: nat)
    requires Ordered(list) && 0 < k < |list| && Hit(list[k], from, to) && !Hit(list[k - 1], from, to)
    ensures IsFirstHit(list, from, to, k)
  {
  }

  /** `rangevector_t`. */
  class Vector {
    var els: seq<Element>

    ghost function Arrays(): set<array<Range>>
      reads this
    {
      set e | e in els :: e.ranges
    }

    ghost function Elements(): set<Element>
      reads this
    {
      set e | e in els
    }

    ghost predicate Valid()
      reads this, els
    {
      && (forall i | 0 <= i < |els| :: els[i].Valid())
      && (forall i, j | 0 <= i < j < |els| :: els[i] != els[j] && els[i].ranges != els[j].ranges)
    }

    ghost function Chunks(): (c: Chunks)
      requires Valid()
      reads this, els, Arrays()
      ensures |c| == |els| && forall i :: 0 <= i < |els| ==> c[i] == els[i].Items()
    {
      seq(|els|, i requires 0 <= i < |els| && els[i].Valid() reads this, els, Arrays() => els[i].Items())
    }

    ghost function Flat(): seq<Range>
      requires Valid()
      reads this, els, Arrays()
    {
      Flatten(Chunks())
    }

    constructor ()
      ensures Valid() && Chunks() == []
    {
      els := [];
    }

    /** `rangevector_add`. */
    method Add(rg: Range)
      requires Valid()
      modifies this, els, Arrays()
      ensures Valid() && Chunks() == Added(old(Chunks()), rg)
      ensures fresh(Elements() - old(Elements())) && fresh(Arrays() - old(Arrays()))
    {
      ghost var was := Chunks();
      if els == [] || els[|els| - 1].cnt == EL_CAPACITY {
        AddElement();
        AddToLast(rg);
        NewChunk(was, rg);
      } else {
        AddToLast(rg);
      }
    }

    method AddToFlat(rg: Range)
      requires Valid()
      modifies this, Elements(), Arrays()
      ensures Valid() && Flat() == old(Flat()) + [rg]
      ensures fresh(Elements() - old(Elements())) && fresh(Arrays() - old(Arrays()))
    {
      AddedAppends(Chunks(), rg);
      Add(rg);
    }

    method AddElement()
      requires Valid()
      modifies this
      ensures Valid() && Chunks() == old(Chunks()) + [[]]
      ensures |els| == |old(els)| + 1 && els[..|old(els)|] == old(els)
      ensures fresh(els[|old(els)|]) && fresh(els[|old(els)|].ranges)
    {
      ghost var was := Chunks();
      var el := new Element();
      els := els + [el];
      forall i | 0 <= i < |was|
        ensures Chunks()[i] == was[i]
      {
      }
    }

    method AddToLast(rg: Range)
      requires Valid() && els != [] && els[|els| - 1].cnt < EL_CAPACITY
      modifies els[|els| - 1], els[|els| - 1].ranges
      ensures Valid() && var n := |els| - 1; Chunks() == old(Chunks())[n := old(Chunks())[n] + [rg]]
    {
      ghost var was := Chunks();
      var n := |els| - 1;
      var el := els[n];
      el.ranges[el.cnt] := rg;
      el.cnt := el.cnt + 1;
      forall i | 0 <= i < n
        ensures Chunks()[i] == was[i]
      {
        assert els[i] != el && els[i].ranges != el.ranges;
      }
      assert Chunks()[n] == was[n] + [rg];
    }

    /** `rangevector_v2p`. */
    method VirtToPhys(ofs: nat, length: nat) returns (phys: Option<Phys>)
      requires Valid()
      ensures phys == V2P(Chunks(), ofs, length)
    {
      phys := None;
      var virtLeft, i := 0, 0;
      ghost var chunks := Chunks();
      while i < |els|
        invariant 0 <= i <= |els|
        invariant Chunks() == chunks
        invariant ScanChunks(chunks[i..], virtLeft, ofs, length, phys) == V2P(chunks, ofs, length)
      {
        assert chunks[i..][1..] == chunks[i + 1..];
        virtLeft, phys := els[i].Scan(virtLeft, ofs, length, phys);
        i := i + 1;
      }
    }

    /** `rangevector_length`. */
    method Length() returns (total: nat)
      requires Valid()
      ensures total == Total(Flat())
    {
      total := 0;
      var i := 0;
      ghost var chunks := Chunks();
      while i < |els|
        invariant 0 <= i <= |els| && Chunks() == chunks && total == Total(Flatten(chunks[..i]))
      {
        assert chunks[..i + 1] == chunks[..i] + [chunks[i]];
        FlattenSnoc(chunks[..i], chunks[i]);
        TotalAppend(Flatten(chunks[..i]), chunks[i]);
        var part := els[i].Length();
        total := total + part;
        i := i + 1;
      }
      assert chunks[..i] == chunks;
    }

    method Put(i: nat, j: nat, rg: Range)
      requires Valid() && i < |els| && j < els[i].cnt
      modifies els[i].ranges
      ensures Valid() && Chunks() == old(Chunks())[i := old(Chunks())[i][j := rg]]
    {
      ghost var was := Chunks();
      els[i].ranges[j] := rg;
      forall k | 0 <= k < |els|
        ensures Chunks()[k] == if k == i then was[i][j := rg] else was[k]
      {
        assert k < i || k > i ==> els[k].ranges != els[i].ranges;
      }
    }

    /** Exchange a range with the one before it. */
    method Swap(pi: nat, pj: nat, i: nat, j: nat)
      requires Valid() && pi < |els| && i < |els| && pj < els[pi].cnt && j < els[i].cnt
      requires FlatIndex(Chunks(), i, j) == FlatIndex(Chunks(), pi, pj) + 1
      modifies Arrays()
      ensures Valid() && Lengths(Chunks()) == Lengths(old(Chunks()))
      ensures FlatIndex(old(Chunks()), i, j) < |old(Flat())|
           && Flat() == Swapped(old(Flat()), FlatIndex(old(Chunks()), i, j))
    {
      ghost var was := Chunks();
      var prev, rg := els[pi].ranges[pj], els[i].ranges[j];
      Put(pi, pj, rg);
      ghost var mid := Chunks();
      Put(i, j, prev);
      SwapFlat(was, mid, Chunks(), pi, pj, i, j);
    }

    /** Compare one range with the one before it, and exchange them if needed. */
    method Visit(hasPrev: bool, prevEl: nat, prevInx: nat, i: nat, j: nat, ghost was: Chunks) returns (swapped: bool)
      requires Valid() && Lengths(Chunks()) == Lengths(was) && i < |els| == |was| && j < els[i].cnt
      requires Previous(was, hasPrev, prevEl, prevInx, FlatIndex(was, i, j))
      modifies Arrays()
      ensures Valid() && Lengths(Chunks()) == Lengths(was)
      ensures FlatIndex(was, i, j) < |Flat()| == |old(Flat())| && Flat() == Visited(old(Flat()), FlatIndex(was, i, j))
      ensures swapped == WrongOrder(old(Flat()), FlatIndex(was, i, j))
    {
      assert Lengths(was)[i] == |was[i]| && Lengths(Chunks())[i] == |Chunks()[i]|;
      SameSlots(was, Chunks(), hasPrev, prevEl, prevInx, i, j);
      FlatSlot(Chunks(), i, j);
      swapped := false;
      if hasPrev {
        FlatSlot(Chunks(), prevEl, prevInx);
        if els[prevEl].ranges[prevInx].ofs > els[i].ranges[j].ofs {
          Swap(prevEl, prevInx, i, j);
          swapped := true;
        }
      }
    }

    /** A pass over one element. */
    method PassElement(i: nat, prevEl0: nat, prevInx0: nat, hasPrev0: bool, swaps0: nat, ghost was: Chunks)
      returns (swaps: nat, prevEl: nat, prevInx: nat, hasPrev: bool)
      requires Valid() && i < |els| && Lengths(Chunks()) == Lengths(was) && |was| == |els|
      requires Previous(was, hasPrev0, prevEl0, prevInx0, FlatIndex(was, i, 0))
      requires Improved(Flatten(was), Flat(), swaps0, FlatIndex(was, i, 0))
      modifies Arrays()
      ensures Valid() && Lengths(Chunks()) == Lengths(was)
      ensures Previous(was, hasPrev, prevEl, prevInx, FlatIndex(was, i + 1, 0))
      ensures Improved(Flatten(was), Flat(), swaps, FlatIndex(was, i + 1, 0))
    {
      swaps, prevEl, prevInx, hasPrev := swaps0, prevEl0, prevInx0, hasPrev0;
      assert Lengths(was)[i] == |was[i]| && Lengths(Chunks())[i] == |Chunks()[i]|;
      var j := 0;
      while j < els[i].cnt
        invariant 0 <= j <= els[i].cnt == |was[i]| && Valid() && Lengths(Chunks()) == Lengths(was)
        invariant Previous(was, hasPrev, prevEl, prevInx, FlatIndex(was, i, j))
        invariant Improved(Flatten(was), Flat(), swaps, FlatIndex(was, i, j))
      {
        ghost var flat := Flat();
        var swapped := Visit(hasPrev, prevEl, prevInx, i, j, was);
        VisitImproves(Flatten(was), flat, swaps, FlatIndex(was, i, j));
        if swapped {
          swaps := swaps + 1;
        }
        prevEl, prevInx, hasPrev, j := i, j, true, j + 1;
      }
      FlatNext(was, i);
    }

    /** One pass of `rangevector_sort` over all ranges, chunk after chunk. */
    method Pass() returns (changed: bool, swaps: nat)
      requires Valid()
      modifies Arrays()
      ensures Valid() && Lengths(Chunks()) == Lengths(old(Chunks()))
      ensures Improved(old(Flat()), Flat(), swaps, |Flat()|) && (changed <==> swaps > 0)
    {
      swaps := 0;
      ghost var was := Chunks();
      FlatEnds(was);
      var i, prevEl, prevInx, hasPrev := 0, 0, 0, false;
      while i < |els|
        invariant 0 <= i <= |els| && Valid() && Lengths(Chunks()) == Lengths(was)
        invariant Previous(was, hasPrev, prevEl, prevInx, FlatIndex(was, i, 0))
        invariant Improved(Flatten(was), Flat(), swaps, FlatIndex(was, i, 0))
      {
        swaps, prevEl, prevInx, hasPrev := PassElement(i, prevEl, prevInx, hasPrev, swaps, was);
        i := i + 1;
      }
      changed := swaps > 0;
    }

    /** `rangevector_sort`: passes until one changes nothing; as many exchanges as there were inversions. */
    method Sort() returns (swapCount: nat)
      requires Valid()
      modifies Arrays()
      ensures Valid() && Lengths(Chunks()) == Lengths(old(Chunks()))
      ensures SortedByOfs(Flat()) && multiset(Flat()) == multiset(old(Flat()))
      ensures Total(Flat()) == Total(old(Flat())) && swapCount == Inversions(old(Flat()))
    {
      swapCount := 0;
      var changed := true;
      while changed
        invariant Valid() && Lengths(Chunks()) == Lengths(old(Chunks()))
        invariant multiset(Flat()) == multiset(old(Flat())) && Inversions(Flat()) + swapCount == Inversions(old(Flat()))
        invariant Total(Flat()) == Total(old(Flat())) && (!changed ==> SortedByOfs(Flat()))
        decreases Inversions(Flat()), changed
      {
        var swaps;
        changed, swaps := Pass();
        if !changed {
          NeighboursSort(Flat());
        }
        swapCount := swapCount + swaps;
      }
      SortedHasNoInversions(Flat());
    }
  }

  /** The slot remembered from the last turn is the one before flat index `p`. */
  ghost predicate Previous(chunks: Chunks, hasPrev: bool, prevEl: nat, prevInx: nat, p: nat) {
    && (hasPrev <==> p > 0)
    && (hasPrev ==> prevEl < |chunks| && prevInx < |chunks[prevEl]| && p == FlatIndex(chunks, prevEl, prevInx) + 1)
  }

  lemma SameSlots(was: Chunks, now: Chunks, hasPrev: bool, prevEl: nat, prevInx: nat, i: nat, j: nat)
    requires Lengths(was) == Lengths(now) && i < |was| && j < |was[i]|
    requires Previous(was, hasPrev, prevEl, prevInx, FlatIndex(was, i, j))
    ensures |was| == |now| && FlatIndex(now, i, j) == FlatIndex(was, i, j) < |Flatten(now)|
    ensures Previous(now, hasPrev, prevEl, prevInx, FlatIndex(now, i, j))
  {
    SameSizesSameIndex(was, now, i, j);
    assert Lengths(was)[i] == |was[i]| && Lengths(now)[i] == |now[i]|;
    FlatSlot(now, i, j);
    if hasPrev {
      SameSizesSameIndex(was, now, prevEl, prevInx);
      assert Lengths(was)[prevEl] == |was[prevEl]| && Lengths(now)[prevEl] == |now[prevEl]|;
    }
  }

  lemma {:induction false} SwapFlat(was: Chunks, mid: Chunks, now: Chunks, pi: nat, pj: nat, i: nat, j: nat)
    requires pi < |was| && i < |was| && pj < |was[pi]| && j < |was[i]|
    requires FlatIndex(was, i, j) == FlatIndex(was, pi, pj) + 1
    requires mid == was[pi := was[pi][pj := was[i][j]]] && now == mid[i := mid[i][j := was[pi][pj]]]
    ensures Lengths(now) == Lengths(was)
    ensures FlatIndex(was, i, j) < |Flatten(was)| && Flatten(now) == Swapped(Flatten(was), FlatIndex(was, i, j))
  {
    FlatSlot(was, pi, pj);
    FlatSlot(was, i, j);
    FlatUpdate(was, pi, pj, was[i][j]);
    SameSizesSameIndex(was, mid, i, j);
    FlatUpdate(mid, i, j, was[pi][pj]);
  }

  lemma NewChunk(chunks: Chunks, rg: Range)
    ensures var n, grown := |chunks|, chunks + [[]]; grown[n := grown[n] + [rg]] == chunks + [[rg]]
  {
    assert (chunks + [[]])[|chunks|] + [rg] == [rg];
  }

  function Added(chunks: Chunks, rg: Range): Chunks {
    var n := |chunks| - 1;
    if chunks == [] || |chunks[n]| == EL_CAPACITY then chunks + [[rg]] else chunks[n := chunks[n] + [rg]]
  }

  /** Every chunk but the last is full and none is empty. */
  predicate Packed(chunks: Chunks) {
    forall i | 0 <= i < |chunks| :: 0 < |chunks[i]| <= EL_CAPACITY && (i < |chunks| - 1 ==> |chunks[i]| == EL_CAPACITY)
  }

  /** Adding appends one range and keeps packed chunks packed. */
  lemma AddedAppends(chunks: Chunks, rg: Range)
    ensures Flatten(Added(chunks, rg)) == Flatten(chunks) + [rg]
    ensures Packed(chunks) ==> Packed(Added(chunks, rg))
  {
    var n := |chunks| - 1;
    if chunks == [] || |chunks[n]| == EL_CAPACITY {
      FlattenSnoc(chunks, [rg]);
    } else {
      assert chunks == chunks[..n] + [chunks[n]] && Added(chunks, rg) == chunks[..n] + [chunks[n] + [rg]];
      FlattenSnoc(chunks[..n], chunks[n]);
      FlattenSnoc(chunks[..n], chunks[n] + [rg]);
    }
  }

  /** The vector after adding the ranges of a list one by one. */
  function AddedAll(list: seq<Range>): Chunks {
    if list == [] then [] else Added(AddedAll(list[..|list| - 1]), list[|list| - 1])
  }

  /** Packed chunks are what adding their ranges builds. */
  lemma {:induction false} PackedIsBuilt(chunks: Chunks)
    requires Packed(chunks)
    ensures AddedAll(Flatten(chunks)) == chunks
    decreases |Flatten(chunks)|
  {
    if chunks != [] {
      var n := |chunks| - 1;
      var last := chunks[n];
      var rest, rg := last[..|last| - 1], last[|last| - 1];
      var front := if rest == [] then chunks[..n] else chunks[..n] + [rest];
      assert chunks == chunks[..n] + [last] && last == rest + [rg];
      assert Packed(front) && Added(front, rg) == chunks;
      AddedAppends(front, rg);
      assert Flatten(chunks)[..|Flatten(chunks)| - 1] == Flatten(front);
      PackedIsBuilt(front);
    }
  }

  /** As many ranges of 8 sectors as a chunk takes, one behind the other. */
  function Row(): seq<Range> {
    seq(EL_CAPACITY, i requires 0 <= i < EL_CAPACITY => Range(8 * i, 8))
  }

  lemma TwoChunks(row: seq<Range>, r: Range)
    requires |row| == EL_CAPACITY
    ensures AddedAll(row + [r]) == [row, [r]] && Flatten([row, [r]]) == row + [r]
  {
    FlattenSnoc([], row);
    FlattenSnoc([row], [r]);
    assert [] + [row] == [row] && [row] + [[r]] == [row, [r]] && [] + row == row;
    PackedIsBuilt([row, [r]]);
  }

  lemma LooksInLast(row: seq<Range>, r: Range)
    requires |row| == EL_CAPACITY && row[0] == Range(0, 8) && r.cnt == 8
    ensures V2P([row, [r]], 0, 8) == Some(Phys(r.ofs, 8)) && Locate(row + [r], 0, 8) == Some(Phys(0, 8))
  {
    V2PContinues([], row, [[r]], 0, 8);
    assert [] + ([row] + [[r]]) == [row, [r]];
    assert [r][1..] == [] && [[r]][1..] == [];
    assert ScanChunks([[r]], 0, 0, 8, Locate(row, 0, 8)) == Some(Phys(r.ofs, 8));
  }

  /** With one range more than a chunk takes, the first sector is looked up in the last range. */
  lemma V2PExample()
    ensures var chunks := AddedAll(Row() + [Range(100000, 8)]);
            && V2P(chunks, 0, 8) == Some(Phys(100000, 8))
            && Locate(Flatten(chunks), 0, 8) == Some(Phys(0, 8))
  {
    TwoChunks(Row(), Range(100000, 8));
    LooksInLast(Row(), Range(100000, 8));
  }

  lemma {:induction false} SameSizesSameIndex(a: Chunks, b: Chunks, i: nat, j: nat)
    requires Lengths(a) == Lengths(b) && i <= |a|
    ensures |a| == |b| && FlatIndex(a, i, j) == FlatIndex(b, i, j)
  {
    assert |Lengths(a)| == |a| && |Lengths(b)| == |b|;
    if i > 0 {
      SameSizesSameIndex(a, b, i - 1, j);
      assert Lengths(a)[i - 1] == |a[i - 1]| && Lengths(b)[i - 1] == |b[i - 1]|;
      FlatNext(a, i - 1);
      FlatNext(b, i - 1);
    }
  }
}
