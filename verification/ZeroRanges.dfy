/** When a piece of an image read is answered with zeros (`blk_dev_redirect_read_zeroed`). */
module ZeroRanges {
  import opened Basics
  import opened Ranges
  import opened Chunked
  import opened RangeLists
  import opened RangeVectors

  /** The bisection can return range `j` of a chunk as a covering one. */
  predicate Seen(chunk: seq<Range>, j: nat) {
    j > 0 || |chunk| == 1
  }

  /** Some single range the search can see covers the piece. */
  ghost predicate ServedByZeros(chunks: Chunks, from: nat, to: nat) {
    exists i, j :: 0 <= i < |chunks| && 0 <= j < |chunks[i]| && Covers(chunks[i][j], from, to) && Seen(chunks[i], j)
  }

  lemma {:induction false} EarlierChunk(chunks: Chunks, i: nat, j: nat, i': nat)
    requires i < i' <= |chunks| && j < |chunks[i]|
    ensures FlatIndex(chunks, i, j) < FlatIndex(chunks, i', 0)
    decreases i'
  {
    FlatNext(chunks, i' - 1);
    if i < i' - 1 {
      EarlierChunk(chunks, i, j, i' - 1);
    }
  }

  lemma OrderedSlots(chunks: Chunks, i: nat, j: nat, i': nat, j': nat)
    requires Ordered(Flatten(chunks)) && i <= i' < |chunks| && j < |chunks[i]| && j' < |chunks[i']|
    requires i == i' ==> j < j'
    ensures chunks[i][j].ofs + chunks[i][j].cnt <= chunks[i'][j'].ofs
  {
    if i < i' {
      EarlierChunk(chunks, i, j, i');
    }
    FlatSlot(chunks, i, j);
    FlatSlot(chunks, i', j');
  }

  lemma ChunkOrdered(chunks: Chunks, i: nat)
    requires Ordered(Flatten(chunks)) && i < |chunks|
    ensures Ordered(chunks[i])
  {
    forall j, j' | 0 <= j < j' < |chunks[i]|
      ensures chunks[i][j].ofs + chunks[i][j].cnt <= chunks[i][j'].ofs
    {
      OrderedSlots(chunks, i, j, i, j');
    }
  }

  /** No range of chunks `[0, end)` reaches beyond `from`. */
  ghost predicate AllBefore(chunks: Chunks, end: nat, from: nat)
    requires end <= |chunks|
  {
    forall i, j | 0 <= i < end && 0 <= j < |chunks[i]| :: chunks[i][j].ofs + chunks[i][j].cnt <= from
  }

  lemma ChunkBefore(chunks: Chunks, i: nat, from: nat)
    requires Ordered(Flatten(chunks)) && i < |chunks| && AllBefore(chunks, i, from)
    requires var n := |chunks[i]|; n > 0 ==> chunks[i][n - 1].ofs + chunks[i][n - 1].cnt <= from
    ensures AllBefore(chunks, i + 1, from)
  {
    forall j | 0 <= j < |chunks[i]|
      ensures chunks[i][j].ofs + chunks[i][j].cnt <= from
    {
      var n := |chunks[i]|;
      if j < n - 1 {
        OrderedSlots(chunks, i, j, i, n - 1);
      }
    }
  }

  /** Once a chunk reaches beyond `from`, only that chunk can hold a covering range. */
  lemma OnlyThisChunk(chunks: Chunks, i: nat, from: nat, to: nat, i': nat, j': nat)
    requires Ordered(Flatten(chunks)) && i < |chunks| && AllBefore(chunks, i, from) && from < to
    requires var n := |chunks[i]|; n > 0 && chunks[i][n - 1].ofs + chunks[i][n - 1].cnt > from
    requires i' < |chunks| && j' < |chunks[i']| && Covers(chunks[i'][j'], from, to)
    ensures i' == i && chunks[i][0].ofs < to
  {
    if i' > i {
      OrderedSlots(chunks, i, |chunks[i]| - 1, i', j');
    } else if i' == i && j' > 0 {
      OrderedSlots(chunks, i, 0, i, j');
    }
  }

  /** What the bisection finds in the right chunk decides. */
  lemma FoundDecides(list: seq<Range>, from: nat, to: nat, found: Option<nat>)
    requires Ordered(list) && from < to
    requires found.Some? ==> IsFirstHit(list, from, to, found.value)
    requires found.None? <==> NoHit(list, from, to) || OnlyFirstHit(list, from, to)
    ensures found.Some? && Covers(list[found.value], from, to) ==> Seen(list, found.value)
    ensures forall j | 0 <= j < |list| && Covers(list[j], from, to) && Seen(list, j) :: found == Some(j)
  {
    forall j | 0 <= j < |list| && Covers(list[j], from, to) && Seen(list, j)
      ensures found == Some(j)
    {
      CoveringIsFirstHit(list, from, to, j);
    }
  }

  /**
   * Zeros are served exactly when one zero range covers the whole piece and is not the first of
   * several in its chunk.
   */
  method ZerosCover(zeros: Vector, from: nat, to: nat) returns (covered: bool)
    requires zeros.Valid() && Ordered(zeros.Flat()) && from < to
    ensures covered <==> ServedByZeros(zeros.Chunks(), from, to)
  {
    covered := false;
    ghost var chunks := zeros.Chunks();
    var i := 0;
    while i < |zeros.els|
      invariant 0 <= i <= |zeros.els| && zeros.Chunks() == chunks && !covered
      invariant AllBefore(chunks, i, from)
    {
      var el := zeros.els[i];
      var limit := el.cnt;
      if limit == 0 || el.ranges[limit - 1].ofs + el.ranges[limit - 1].cnt <= from {
        ChunkBefore(chunks, i, from);
        i := i + 1;
        continue;
      }
      forall i', j' | 0 <= i' < |chunks| && 0 <= j' < |chunks[i']| && Covers(chunks[i'][j'], from, to)
        ensures i' == i && chunks[i][0].ofs < to
      {
        OnlyThisChunk(chunks, i, from, to, i', j');
      }
      if el.ranges[0].ofs >= to {
        break;
      }
      ChunkOrdered(chunks, i);
      var found := el.FindFirstHit(from, to);
      FoundDecides(chunks[i], from, to, found);
      if found.Some? && Covers(el.ranges[found.value], from, to) {
        assert Covers(chunks[i][found.value], from, to);
        covered := true;
      }
      break;
    }
  }

  /** A zero range that starts a chunk of several is never used, even where it covers the piece. */
  lemma FirstRangeUnseen(chunks: Chunks, i: nat, from: nat, to: nat)
    requires Ordered(Flatten(chunks)) && from < to && i < |chunks| && |chunks[i]| >= 2 && Covers(chunks[i][0], from, to)
    ensures !ServedByZeros(chunks, from, to)
  {
    forall i', j' | 0 <= i' < |chunks| && 0 <= j' < |chunks[i']| && Covers(chunks[i'][j'], from, to)
      ensures i' == i && j' == 0
    {
      if i < i' || (i == i' && j' > 0) {
        OrderedSlots(chunks, i, 0, i', j');
      } else if i' < i {
        OrderedSlots(chunks, i', j', i, 0);
      }
    }
  }

  // ---- the zero ranges of a snapshot ----

  /** `zerosectors_add_ranges`; `zeroing` is the module parameter that turns the zero ranges on. */
  method AddZeroRanges(zeros: Vector, ranges: seq<Range>, zeroing: bool) returns (st: Status)
    requires zeros.Valid()
    modifies zeros, zeros.Elements(), zeros.Arrays()
    ensures zeros.Valid() && st == if ranges == [] then EInval else Success
    ensures st == Success && zeroing ==>
              SortedByOfs(zeros.Flat()) && multiset(zeros.Flat()) == multiset(old(zeros.Flat()) + ranges)
    ensures !(st == Success && zeroing) ==> zeros.Chunks() == old(zeros.Chunks())
  {
    if ranges == [] { return EInval; }
    st := Success;
    if zeroing {
      AddEach(zeros, ranges);
      var swaps := zeros.Sort();
    }
  }

  lemma NextAppended(was: seq<Range>, ranges: seq<Range>, inx: nat)
    requires inx < |ranges|
    ensures was + ranges[..inx + 1] == was + ranges[..inx] + [ranges[inx]]
  {
  }

  method AddEach(zeros: Vector, ranges: seq<Range>)
    requires zeros.Valid()
    modifies zeros, zeros.Elements(), zeros.Arrays()
    ensures zeros.Valid() && zeros.Flat() == old(zeros.Flat()) + ranges
    ensures fresh(zeros.Elements() - old(zeros.Elements())) && fresh(zeros.Arrays() - old(zeros.Arrays()))
  {
    ghost var was := zeros.Flat();
    assert was + ranges[..0] == was;
    for inx := 0 to |ranges|
      invariant fresh(zeros.Elements() - old(zeros.Elements())) && fresh(zeros.Arrays() - old(zeros.Arrays()))
      invariant zeros.Valid() && zeros.Flat() == was + ranges[..inx]
    {
      zeros.AddToFlat(ranges[inx]);
      NextAppended(was, ranges, inx);
    }
    assert ranges[..|ranges|] == ranges;
  }

  /** Where the sectors of range `i` stand among those of the list. */
  lemma {:induction false} SectorOf(list: seq<Range>, i: nat, k: nat)
    requires i < |list| && k < list[i].cnt
    ensures var at := |Sectors(list[..i])| + k; at < |Sectors(list)| && Sectors(list)[at] == list[i].ofs + k
  {
    assert list == list[..i] + list[i..];
    SectorsAppend(list[..i], list[i..]);
    assert Sectors(list[i..]) == Span(list[i]) + Sectors(list[i..][1..]);
  }

  lemma SectorsBefore(list: seq<Range>, i: nat, j: nat)
    requires i < j <= |list|
    ensures |Sectors(list[..i])| + list[i].cnt <= |Sectors(list[..j])|
  {
    var upTo := list[..i] + [list[i]];
    assert list[..j] == upTo + list[i + 1..j];
    SectorsSnoc(list[..i], list[i]);
    SectorsAppend(upTo, list[i + 1..j]);
  }

  /** Ranges in order of their offsets lie one behind the other exactly when they share no sector. */
  lemma SortedIsOrderedIff(list: seq<Range>)
    requires SortedByOfs(list) && forall i | 0 <= i < |list| :: list[i].cnt > 0
    ensures Ordered(list) <==> NoRepeats(Sectors(list))
  {
    if NoRepeats(Sectors(list)) {
      forall i, j | 0 <= i < j < |list|
        ensures list[i].ofs + list[i].cnt <= list[j].ofs
      {
        if list[i].ofs + list[i].cnt > list[j].ofs {
          SectorOf(list, i, list[j].ofs - list[i].ofs);
          SectorOf(list, j, 0);
          SectorsBefore(list, i, j);
        }
      }
    }
    if Ordered(list) {
      OrderedHasNoRepeats(list);
    }
  }

  lemma {:induction false} OrderedHasNoRepeats(list: seq<Range>)
    requires Ordered(list)
    ensures NoRepeats(Sectors(list))
    ensures forall x | x in Sectors(list) :: exists i :: 0 <= i < |list| && InRange(list[i], x)
  {
    if list != [] {
      OrderedHasNoRepeats(list[1..]);
      forall x | x in Sectors(list)
        ensures exists i :: 0 <= i < |list| && InRange(list[i], x)
      {
        if x in Span(list[0]) {
          assert InRange(list[0], x);
        } else {
          var i :| 0 <= i < |list[1..]| && InRange(list[1..][i], x);
          assert list[1..][i] == list[i + 1];
        }
      }
      forall a, b | 0 <= a < b < |Sectors(list)|
        ensures Sectors(list)[a] != Sectors(list)[b]
      {
        var n := |Span(list[0])|;
        if a < n <= b {
          var x := Sectors(list[1..])[b - n];
          assert x in Sectors(list[1..]);
          var i :| 0 <= i < |list[1..]| && InRange(list[1..][i], x);
          assert list[1..][i] == list[i + 1];
        }
      }
    }
  }

  predicate InRange(r: Range, x: nat) {
    r.ofs <= x < r.ofs + r.cnt
  }
}
