/** What a vector of ranges means (`rangevector.c`): the specifications its methods are proved against. */
module RangeLists {
  import opened Basics
  import opened Ranges
  import opened Chunked

  type Chunks = seq<seq<Range>>

  function Total(list: seq<Range>): nat {
    if list == [] then 0 else list[0].cnt + Total(list[1..])
  }

  lemma {:induction false} TotalAppend(a: seq<Range>, b: seq<Range>)
    ensures Total(a + b) == Total(a) + Total(b)
  {
    if a == [] {
      assert a + b == b;
    } else {
      assert (a + b)[1..] == a[1..] + b;
      TotalAppend(a[1..], b);
    }
  }

  // ---- virtual to physical ----

  /** A run of physical sectors. */
  datatype Phys = Phys(ofs: nat, length: nat)

  /** The reference: where the sectors of a range list continue at virtual offset `ofs`. */
  function Locate(list: seq<Range>, ofs: nat, length: nat): Option<Phys> {
    if list == [] then None
    else if ofs < list[0].cnt then Some(Phys(list[0].ofs + ofs, Min(length, list[0].cnt - ofs)))
    else Locate(list[1..], ofs - list[0].cnt, length)
  }

  /** `Locate` names consecutive sectors of the list, in order. */
  lemma {:induction false} LocateNamesSectors(list: seq<Range>, ofs: nat, length: nat)
    ensures Locate(list, ofs, length).Some? <==> ofs < |Sectors(list)|
    ensures var p := Locate(list, ofs, length);
            p.Some? ==>
              p.value.length <= length && (length > 0 ==> p.value.length > 0) && ofs + p.value.length <= |Sectors(list)|
                        && forall i | ofs <= i < ofs + p.value.length :: Sectors(list)[i] == p.value.ofs + (i - ofs)
  {
    if list != [] && ofs >= list[0].cnt {
      var rest, skipped := Sectors(list[1..]), list[0].cnt;
      LocateNamesSectors(list[1..], ofs - skipped, length);
      var p := Locate(list, ofs, length);
      if p.Some? {
        forall i | ofs <= i < ofs + p.value.length
          ensures Sectors(list)[i] == p.value.ofs + (i - ofs)
        {
          assert Sectors(list)[i] == rest[i - skipped];
        }
      }
    }
  }

  /** The loop over one chunk: the virtual offset it ends with, and what it found. */
  function ScanChunk(chunk: seq<Range>, left: nat, ofs: nat, length: nat, found: Option<Phys>): (nat, Option<Phys>) {
    if chunk == [] then (left, found)
    else
      var right := left + chunk[0].cnt;
      if left <= ofs < right
      then (left, Some(Phys(chunk[0].ofs + (ofs - left), Min(length, right - ofs))))
      else ScanChunk(chunk[1..], right, ofs, length, found)
  }

  /** Leaving the loop over one chunk does not leave the loop over the chunks. */
  function ScanChunks(chunks: Chunks, left: nat, ofs: nat, length: nat, found: Option<Phys>): Option<Phys> {
    if chunks == [] then found
    else
      var (left1, found1) := ScanChunk(chunks[0], left, ofs, length, found);
      ScanChunks(chunks[1..], left1, ofs, length, found1)
  }

  /** `rangevector_v2p`. */
  function V2P(chunks: Chunks, ofs: nat, length: nat): Option<Phys> {
    ScanChunks(chunks, 0, ofs, length, None)
  }

  /** How far into its range a virtual offset lies. */
  function Within(list: seq<Range>, ofs: nat): nat {
    if list == [] then 0 else if ofs < list[0].cnt then ofs else Within(list[1..], ofs - list[0].cnt)
  }

  lemma {:induction false} ScanChunkLocates(chunk: seq<Range>, left: nat, ofs: nat, length: nat, found: Option<Phys>)
    requires left <= ofs
    ensures ScanChunk(chunk, left, ofs, length, found) ==
            if ofs - left < Total(chunk) then (ofs - Within(chunk, ofs - left), Locate(chunk, ofs - left, length))
            else (left + Total(chunk), found)
    ensures Within(chunk, ofs - left) <= ofs - left
    ensures ofs - left < Total(chunk) <==> Locate(chunk, ofs - left, length).Some?
  {
    if chunk != [] && ofs - left >= chunk[0].cnt {
      ScanChunkLocates(chunk[1..], left + chunk[0].cnt, ofs, length, found);
    }
  }

  lemma {:induction false} LocateSkips(a: seq<Range>, b: seq<Range>, ofs: nat, length: nat)
    ensures Locate(a + b, ofs, length)
            == if ofs < Total(a) then Locate(a, ofs, length) else Locate(b, ofs - Total(a), length)
  {
    if a == [] {
      assert a + b == b;
    } else {
      assert (a + b)[1..] == a[1..] + b;
      if ofs >= a[0].cnt {
        LocateSkips(a[1..], b, ofs - a[0].cnt, length);
      }
    }
  }

  lemma {:induction false} ScanPast(before: Chunks, rest: Chunks, left: nat, ofs: nat, length: nat, found: Option<Phys>)
    requires left + Total(Flatten(before)) <= ofs
    ensures ScanChunks(before + rest, left, ofs, length, found) ==
            ScanChunks(rest, left + Total(Flatten(before)), ofs, length, found)
  {
    if before == [] {
      assert before + rest == rest;
    } else {
      assert (before + rest)[1..] == before[1..] + rest;
      TotalAppend(before[0], Flatten(before[1..]));
      ScanChunkLocates(before[0], left, ofs, length, found);
      ScanPast(before[1..], rest, left + Total(before[0]), ofs, length, found);
    }
  }

  /** What is left to scan after a hit overrides the hit as soon as it is long enough. */
  lemma {:induction false} ScanOverrides(after: Chunks, left: nat, ofs: nat, length: nat, found: Option<Phys>)
    requires left <= ofs
    ensures var p := ScanChunks(after, left, ofs, length, found);
            if ofs - left < Total(Flatten(after)) then p.Some? && p.value.ofs in Sectors(Flatten(after)) else p == found
  {
    if after != [] {
      ScanChunkLocates(after[0], left, ofs, length, found);
      TotalAppend(after[0], Flatten(after[1..]));
      SectorsAppend(after[0], Flatten(after[1..]));
      var (left1, found1) := ScanChunk(after[0], left, ofs, length, found);
      ScanOverrides(after[1..], left1, ofs, length, found1);
      if ofs - left < Total(after[0]) {
        LocatedInList(after[0], ofs - left, length);
      }
    }
  }

  lemma {:induction false} LocatedInList(list: seq<Range>, ofs: nat, length: nat)
    requires ofs < Total(list)
    ensures Locate(list, ofs, length).Some? && Locate(list, ofs, length).value.ofs in Sectors(list)
  {
    if ofs < list[0].cnt {
      assert Span(list[0])[ofs] == list[0].ofs + ofs;
    } else {
      LocatedInList(list[1..], ofs - list[0].cnt, length);
    }
  }

  /** With a single chunk every offset is placed right. */
  lemma OneChunkV2P(chunk: seq<Range>, ofs: nat, length: nat)
    ensures V2P([chunk], ofs, length) == Locate(chunk, ofs, length)
  {
    ScanChunkLocates(chunk, 0, ofs, length, None);
    var (left, found) := ScanChunk(chunk, 0, ofs, length, None);
    assert ScanChunks([chunk][1..], left, ofs, length, found) == found;
  }

  lemma NoCommonSector(a: seq<Range>, b: seq<Range>, c: seq<Range>, x: nat)
    requires NoRepeats(Sectors(a + b + c)) && x in Sectors(b)
    ensures x !in Sectors(c)
  {
    SectorsAppend(a + b, c);
    SectorsAppend(a, b);
    var i :| 0 <= i < |Sectors(b)| && Sectors(b)[i] == x;
    forall j | 0 <= j < |Sectors(c)|
      ensures Sectors(c)[j] != x
    {
      var s := Sectors(a + b + c);
      assert s[|Sectors(a)| + i] == x && s[|Sectors(a + b)| + j] == Sectors(c)[j];
    }
  }

  lemma V2PContinues(before: Chunks, chunk: seq<Range>, after: Chunks, ofs: nat, length: nat)
    requires Total(Flatten(before)) <= ofs < Total(Flatten(before)) + Total(chunk)
    ensures var inChunk := ofs - Total(Flatten(before));
            && Within(chunk, inChunk) <= ofs
            && V2P(before + ([chunk] + after), ofs, length) ==
               ScanChunks(after, ofs - Within(chunk, inChunk), ofs, length, Locate(chunk, inChunk, length))
  {
    var skipped := Total(Flatten(before));
    ScanPast(before, [chunk] + after, 0, ofs, length, None);
    ScanChunkLocates(chunk, skipped, ofs, length, None);
    assert ([chunk] + after)[1..] == after;
  }

  lemma LocateMiddle(a: seq<Range>, b: seq<Range>, c: seq<Range>, ofs: nat, length: nat)
    requires Total(a) <= ofs < Total(a) + Total(b)
    ensures Locate(a + b + c, ofs, length) == Locate(b, ofs - Total(a), length)
  {
    TotalAppend(a, b);
    LocateSkips(a + b, c, ofs, length);
    LocateSkips(a, b, ofs, length);
  }

  /**
   * With several chunks of disjoint ranges the offset is placed right exactly when the chunks
   * behind its own hold no more sectors than lie before it in its range.
   */
  lemma V2PRightIff(before: Chunks, chunk: seq<Range>, after: Chunks, ofs: nat, length: nat)
    requires Total(Flatten(before)) <= ofs < Total(Flatten(before)) + Total(chunk)
    requires NoRepeats(Sectors(Flatten(before + ([chunk] + after))))
    ensures V2P(before + ([chunk] + after), ofs, length) == Locate(Flatten(before + ([chunk] + after)), ofs, length)
       <==> Total(Flatten(after)) <= Within(chunk, ofs - Total(Flatten(before)))
  {
    var a, c := Flatten(before), Flatten(after);
    var inChunk := ofs - Total(a);
    FlattenAppend(before, [chunk] + after);
    assert ([chunk] + after)[1..] == after;
    assert a + (chunk + c) == a + chunk + c;
    LocateMiddle(a, chunk, c, ofs, length);
    V2PContinues(before, chunk, after, ofs, length);
    ScanOverrides(after, ofs - Within(chunk, inChunk), ofs, length, Locate(chunk, inChunk, length));
    LocatedInList(chunk, inChunk, length);
    NoCommonSector(a, chunk, c, Locate(chunk, inChunk, length).value.ofs);
  }

  // ---- order ----

  predicate SortedByOfs(list: seq<Range>) {
    forall i, j | 0 <= i < j < |list| :: list[i].ofs <= list[j].ofs
  }

  function CountAbove(list: seq<Range>, ofs: nat): nat {
    if list == [] then 0 else CountAbove(list[..|list| - 1], ofs) + if list[|list| - 1].ofs > ofs then 1 else 0
  }

  /** Pairs in the wrong order. */
  function Inversions(list: seq<Range>): nat {
    if list == [] then 0
    else Inversions(list[..|list| - 1]) + CountAbove(list[..|list| - 1], list[|list| - 1].ofs)
  }

  function Swapped(list: seq<Range>, p: nat): (r: seq<Range>)
    requires 0 < p < |list|
    ensures |r| == |list|
  {
    list[p - 1 := list[p]][p := list[p - 1]]
  }

  lemma {:induction false} CountAboveSwap(list: seq<Range>, p: nat, ofs: nat)
    requires 0 < p < |list|
    ensures CountAbove(Swapped(list, p), ofs) == CountAbove(list, ofs)
    decreases |list|
  {
    var n := |list| - 1;
    var swapped := Swapped(list, p);
    if p < n {
      assert swapped[..n] == Swapped(list[..n], p);
      CountAboveSwap(list[..n], p, ofs);
    } else {
      var front := list[..n - 1];
      assert list[..n][..n - 1] == front && swapped[..n][..n - 1] == front;
    }
  }

  /** Swapping a wrongly ordered neighbouring pair removes exactly one inversion. */
  lemma {:induction false} SwapRemovesOne(list: seq<Range>, p: nat)
    requires 0 < p < |list| && list[p - 1].ofs > list[p].ofs
    ensures Inversions(Swapped(list, p)) + 1 == Inversions(list)
    decreases |list|
  {
    var n := |list| - 1;
    var swapped := Swapped(list, p);
    if p < n {
      assert swapped[..n] == Swapped(list[..n], p);
      SwapRemovesOne(list[..n], p);
      CountAboveSwap(list[..n], p, list[n].ofs);
    } else {
      var front := list[..n - 1];
      assert list[..n][..n - 1] == front && swapped[..n][..n - 1] == front;
    }
  }

  lemma {:induction false} NeighboursSort(list: seq<Range>)
    requires forall p | 0 < p < |list| :: list[p - 1].ofs <= list[p].ofs
    ensures SortedByOfs(list)
    decreases |list|
  {
    if list != [] {
      var n := |list| - 1;
      forall p | 0 < p < n
        ensures list[..n][p - 1].ofs <= list[..n][p].ofs
      {
        assert list[p - 1].ofs <= list[p].ofs;
      }
      NeighboursSort(list[..n]);
      forall i | 0 <= i < n
        ensures list[i].ofs <= list[n].ofs
      {
        assert list[..n][i].ofs <= list[..n][n - 1].ofs && list[n - 1].ofs <= list[n].ofs;
      }
      forall i, j | 0 <= i < j < |list|
        ensures list[i].ofs <= list[j].ofs
      {
        if j < n {
          assert list[..n][i].ofs <= list[..n][j].ofs;
        }
      }
    }
  }

  lemma SwapPermutes(list: seq<Range>, p: nat)
    requires 0 < p < |list|
    ensures multiset(Swapped(list, p)) == multiset(list)
  {
  }

  lemma {:induction false} SwapKeepsTotal(list: seq<Range>, p: nat)
    requires 0 < p < |list|
    ensures Total(Swapped(list, p)) == Total(list)
  {
    if p == 1 {
      assert Swapped(list, 1)[1..][1..] == list[1..][1..];
    } else {
      assert Swapped(list, p)[1..] == Swapped(list[1..], p - 1);
      SwapKeepsTotal(list[1..], p - 1);
    }
  }

  predicate WrongOrder(list: seq<Range>, p: nat) {
    0 < p < |list| && list[p - 1].ofs > list[p].ofs
  }

  function Visited(list: seq<Range>, p: nat): (r: seq<Range>)
    ensures |r| == |list|
  {
    if WrongOrder(list, p) then Swapped(list, p) else list
  }

  /**
   * A permutation reached by `swaps` exchanges, each of which removed one inversion; without
   * any, the first `p` ranges were found in order.
   */
  ghost predicate Improved(was: seq<Range>, now: seq<Range>, swaps: nat, p: nat) {
    && |now| == |was| && multiset(now) == multiset(was) && Total(now) == Total(was)
    && Inversions(now) + swaps == Inversions(was)
    && (swaps == 0 ==> forall q | 0 < q < p && q < |now| :: now[q - 1].ofs <= now[q].ofs)
  }

  lemma VisitImproves(was: seq<Range>, now: seq<Range>, swaps: nat, p: nat)
    requires Improved(was, now, swaps, p)
    ensures Improved(was, Visited(now, p), swaps + if WrongOrder(now, p) then 1 else 0, p + 1)
  {
    if WrongOrder(now, p) {
      SwapRemovesOne(now, p);
      SwapPermutes(now, p);
      SwapKeepsTotal(now, p);
    }
  }

  lemma {:induction false} NoneAbove(list: seq<Range>, ofs: nat)
    requires forall i | 0 <= i < |list| :: list[i].ofs <= ofs
    ensures CountAbove(list, ofs) == 0
    decreases |list|
  {
    if list != [] {
      NoneAbove(list[..|list| - 1], ofs);
    }
  }

  lemma {:induction false} SortedHasNoInversions(list: seq<Range>)
    requires SortedByOfs(list)
    ensures Inversions(list) == 0
    decreases |list|
  {
    if list != [] {
      SortedHasNoInversions(list[..|list| - 1]);
      NoneAbove(list[..|list| - 1], list[|list| - 1].ofs);
    }
  }

  // ---- searching ----

  predicate Hit(r: Range, from: nat, to: nat) {
    r.ofs + r.cnt > from && r.ofs < to
  }

  predicate Ordered(list: seq<Range>) {
    forall i, j | 0 <= i < j < |list| :: list[i].ofs + list[i].cnt <= list[j].ofs
  }

  /** `k` is the first range that the request meets. */
  predicate IsFirstHit(list: seq<Range>, from: nat, to: nat, k: nat) {
    k < |list| && Hit(list[k], from, to) && forall i | 0 <= i < k :: !Hit(list[i], from, to)
  }

  predicate NoHit(list: seq<Range>, from: nat, to: nat) {
    forall i | 0 <= i < |list| :: !Hit(list[i], from, to)
  }

  /** The only hit is the first range and there are others: the one place the search does not look. */
  predicate OnlyFirstHit(list: seq<Range>, from: nat, to: nat) {
    |list| >= 2 && Hit(list[0], from, to) && !Hit(list[1], from, to)
  }

  predicate Covers(r: Range, from: nat, to: nat) {
    r.ofs <= from && to <= r.ofs + r.cnt
  }

  lemma CoveringIsFirstHit(list: seq<Range>, from: nat, to: nat, k: nat)
    requires Ordered(list) && from < to && k < |list| && Covers(list[k], from, to)
    ensures IsFirstHit(list, from, to, k) && (k + 1 < |list| ==> !Hit(list[k + 1], from, to))
    ensures forall i | 0 <= i < |list| && Covers(list[i], from, to) :: i == k
  {
  }
}
