/**
 * How a block lies on the snapstore device (`snapstore.c`, `blk_deferred.c`): storing a buffer
 * through the block's ranges, walking the ranges for a piece of a request, and cutting the ranges
 * of a file into blocks.
 */
module Layout {
  import opened Basics
  import opened Ranges
  import opened CowEngine
  import opened BioWalk

  // ---- storing through ranges ----

  lemma {:induction false} ScatterSpan(s: seq<Sector>, ofs: nat, data: seq<Sector>)
    requires ofs + |data| <= |s|
    ensures Scatter(s, Span(Range(ofs, |data|)), data) == Overwrite(s, ofs, data)
    decreases |data|
  {
    var span := Span(Range(ofs, |data|));
    if data == [] {
      assert Overwrite(s, ofs, data) == s;
    } else {
      assert span[1..] == Span(Range(ofs + 1, |data| - 1));
      ScatterSpan(Put(s, ofs, data[0]), ofs + 1, data[1..]);
      OverwriteFirst(s, ofs, data);
    }
  }

  lemma OverwriteFirst(s: seq<Sector>, ofs: nat, data: seq<Sector>)
    requires data != [] && ofs + |data| <= |s|
    ensures Overwrite(Put(s, ofs, data[0]), ofs + 1, data[1..]) == Overwrite(s, ofs, data)
  {
  }

  // ---- walking the ranges for a piece ----

  /** Part of a piece: `len` sectors from device sector `pos`, at sector `ofs` of the request. */
  datatype Part = Part(pos: nat, ofs: nat, len: nat)

  function PartMoves(parts: seq<Part>): seq<Move> {
    var n := |parts| - 1;
    if n < 0 then [] else PartMoves(parts[..n]) + Straight(parts[n].ofs, parts[n].pos, parts[n].len)
  }

  /** Sectors `places` move, in order, from or to request sectors `ofs`, `ofs + 1`, … */
  function MovesTo(places: seq<nat>, ofs: nat): (r: seq<Move>)
    ensures |r| == |places|
  {
    seq(|places|, j requires 0 <= j < |places| => Move(ofs + j, places[j]))
  }

  function Slice(places: seq<nat>, from: nat, cnt: nat): seq<nat> {
    if from >= |places| then [] else if from + cnt <= |places| then places[from..from + cnt] else places[from..]
  }

  lemma PartMovesSnoc(parts: seq<Part>, p: Part)
    ensures PartMoves(parts + [p]) == PartMoves(parts) + Straight(p.ofs, p.pos, p.len)
  {
  }

  lemma StraightIsSpan(pos: nat, ofs: nat, len: nat)
    ensures Straight(ofs, pos, len) == MovesTo(Span(Range(pos, len)), ofs)
  {
  }

  lemma PartAdded(parts: seq<Part>, got: seq<nat>, rqOfs: nat, p: Part)
    requires PartMoves(parts) == MovesTo(got, rqOfs) && p.ofs == rqOfs + |got|
    ensures PartMoves(parts + [p]) == MovesTo(got + Span(Range(p.pos, p.len)), rqOfs)
  {
  }

  /** The sectors the walk takes, range after range. */
  function Walked(ranges: seq<Range>, from: nat, cnt: nat): seq<nat> {
    if ranges == [] || cnt == 0 then []
    else if ranges[0].cnt > from then
      var len := if ranges[0].cnt - from < cnt then ranges[0].cnt - from else cnt;
      Span(Range(ranges[0].ofs + from, len)) + Walked(ranges[1..], 0, cnt - len)
    else Walked(ranges[1..], from - ranges[0].cnt, cnt)
  }

  /** The walk takes the block's sectors from `from` on. */
  lemma {:induction false} WalkedIsSlice(ranges: seq<Range>, from: nat, cnt: nat)
    ensures Walked(ranges, from, cnt) == Slice(Sectors(ranges), from, cnt)
  {
    if ranges != [] && cnt > 0 {
      if ranges[0].cnt > from {
        var len := if ranges[0].cnt - from < cnt then ranges[0].cnt - from else cnt;
        WalkedIsSlice(ranges[1..], 0, cnt - len);
        SliceTaken(ranges[0], Sectors(ranges[1..]), from, cnt, len);
      } else {
        WalkedIsSlice(ranges[1..], from - ranges[0].cnt, cnt);
        SliceSkipped(ranges[0], Sectors(ranges[1..]), from, cnt);
      }
    }
  }

  lemma WalkStep(ranges: seq<Range>, i: nat, from: nat, cnt: nat, len: nat, got: seq<nat>) returns (rest: seq<nat>)
    requires i < |ranges| && cnt > 0 && ranges[i].cnt > from
    requires len == if ranges[i].cnt - from < cnt then ranges[i].cnt - from else cnt
    ensures rest == Walked(ranges[i + 1..], 0, cnt - len)
    ensures got + Walked(ranges[i..], from, cnt) == got + Span(Range(ranges[i].ofs + from, len)) + rest
  {
    rest := Walked(ranges[i + 1..], 0, cnt - len);
    assert ranges[i..][1..] == ranges[i + 1..];
  }

  lemma SkipStep(ranges: seq<Range>, i: nat, from: nat, cnt: nat) returns (rest: seq<nat>)
    requires i < |ranges| && cnt > 0 && ranges[i].cnt <= from
    ensures rest == Walked(ranges[i + 1..], from - ranges[i].cnt, cnt) == Walked(ranges[i..], from, cnt)
  {
    rest := Walked(ranges[i + 1..], from - ranges[i].cnt, cnt);
    assert ranges[i..][1..] == ranges[i + 1..];
  }

  /**
   * The loop of `snapstore_redirect_read` and `snapstore_redirect_write`: request sectors
   * `[rqOfs, rqOfs + rqCount)` meet the block's sectors from `blockOfs` on, each once and in order.
   */
  method WalkRanges(ranges: seq<Range>, blockOfs: nat, rqOfs: nat, rqCount: nat) returns (parts: seq<Part>)
    ensures PartMoves(parts) == MovesTo(Slice(Sectors(ranges), blockOfs, rqCount), rqOfs)
  {
    parts := [];
    var currentOfs, i := 0, 0;
    var blockLeft: nat := blockOfs;
    ghost var got: seq<nat> := [];
    ghost var want, left: nat := Walked(ranges, blockOfs, rqCount), rqCount;
    ghost var rest := want;
    assert ranges[0..] == ranges;
    while i < |ranges|
      invariant 0 <= i <= |ranges| && currentOfs + left == rqCount && |got| == currentOfs
      invariant PartMoves(parts) == MovesTo(got, rqOfs)
      invariant got + rest == want && rest == Walked(ranges[i..], blockLeft, left)
    {
      if currentOfs >= rqCount { break; }
      var rg := ranges[i];
      if rg.cnt > blockLeft {
        var len := if rg.cnt - blockLeft < rqCount - currentOfs then rg.cnt - blockLeft else rqCount - currentOfs;
        rest := WalkStep(ranges, i, blockLeft, left, len, got);
        parts, got := AddPart(parts, got, Part(rg.ofs + blockLeft, rqOfs + currentOfs, len), rqOfs);
        currentOfs, blockLeft, left := currentOfs + len, 0, left - len;
      } else {
        rest := SkipStep(ranges, i, blockLeft, left);
        blockLeft := blockLeft - rg.cnt;
      }
      i := i + 1;
    }
    assert got + [] == got;
    WalkedIsSlice(ranges, blockOfs, rqCount);
  }

  method AddPart(parts: seq<Part>, ghost got: seq<nat>, p: Part, ghost rqOfs: nat)
    returns (parts1: seq<Part>, ghost got1: seq<nat>)
    requires PartMoves(parts) == MovesTo(got, rqOfs) && p.ofs == rqOfs + |got|
    ensures got1 == got + Span(Range(p.pos, p.len)) && PartMoves(parts1) == MovesTo(got1, rqOfs)
  {
    PartAdded(parts, got, rqOfs, p);
    parts1, got1 := parts + [p], got + Span(Range(p.pos, p.len));
  }

  lemma SliceTaken(rg: Range, rest: seq<nat>, from: nat, cnt: nat, len: nat)
    requires rg.cnt > from && len == if rg.cnt - from < cnt then rg.cnt - from else cnt
    ensures Slice(Span(rg) + rest, from, cnt) == Span(Range(rg.ofs + from, len)) + Slice(rest, 0, cnt - len)
  {
  }

  lemma SliceSkipped(rg: Range, rest: seq<nat>, from: nat, cnt: nat)
    requires rg.cnt <= from
    ensures Slice(Span(rg) + rest, from, cnt) == Slice(rest, from - rg.cnt, cnt)
  {
  }

  // ---- what moves do ----

  /** Reading: each request sector gets its device sector. */
  function Loaded(buf: seq<Sector>, dev: seq<Sector>, moves: seq<Move>): (r: seq<Sector>)
    ensures |r| == |buf|
  {
    var n := |moves| - 1;
    if n < 0 then buf else Put(Loaded(buf, dev, moves[..n]), moves[n].bio, At(dev, moves[n].dev))
  }

  /** Writing: each device sector gets its request sector. */
  function Sent(dev: seq<Sector>, buf: seq<Sector>, moves: seq<Move>): (r: seq<Sector>)
    ensures |r| == |dev|
  {
    var n := |moves| - 1;
    if n < 0 then dev else Put(Sent(dev, buf, moves[..n]), moves[n].dev, At(buf, moves[n].bio))
  }

  lemma {:induction false} LoadedMoves(buf: seq<Sector>, dev: seq<Sector>, places: seq<nat>, ofs: nat)
    requires ofs + |places| <= |buf|
    ensures Loaded(buf, dev, MovesTo(places, ofs)) == Overwrite(buf, ofs, Fetched(dev, places))
    decreases |places|
  {
    var moves := MovesTo(places, ofs);
    if places == [] {
      assert Overwrite(buf, ofs, Fetched(dev, places)) == buf;
    } else {
      var n := |places| - 1;
      assert moves[..n] == MovesTo(places[..n], ofs);
      LoadedMoves(buf, dev, places[..n], ofs);
    }
  }

  /** The contents of sectors `places`. */
  function Fetched(dev: seq<Sector>, places: seq<nat>): (r: seq<Sector>)
    ensures |r| == |places|
  {
    seq(|places|, j requires 0 <= j < |places| => At(dev, places[j]))
  }

  lemma ScatterSnoc(s: seq<Sector>, places: seq<nat>, data: seq<Sector>)
    requires |places| == |data| > 0
    ensures var n := |places| - 1;
            Scatter(s, places, data) == Put(Scatter(s, places[..n], data[..n]), places[n], data[n])
  {
    var n := |places| - 1;
    assert places == places[..n] + [places[n]] && data == data[..n] + [data[n]];
    ScatterAppend(s, places[..n], data[..n], [places[n]], [data[n]]);
    var t := Scatter(s, places[..n], data[..n]);
    assert Scatter(t, [places[n]], [data[n]]) == Scatter(Put(t, places[n], data[n]), [places[n]][1..], [data[n]][1..]);
  }

  lemma {:induction false} SentMoves(dev: seq<Sector>, buf: seq<Sector>, places: seq<nat>, ofs: nat, data: seq<Sector>)
    requires |data| == |places| && ofs + |data| <= |buf| && forall j | 0 <= j < |data| :: data[j] == buf[ofs + j]
    ensures Sent(dev, buf, MovesTo(places, ofs)) == Scatter(dev, places, data)
    decreases |places|
  {
    if places != [] {
      var n := |places| - 1;
      SentMoves(dev, buf, places[..n], ofs, data[..n]);
      ScatterSnoc(dev, places, data);
      SentSnoc(dev, buf, places, ofs);
    }
  }

  lemma SentSnoc(dev: seq<Sector>, buf: seq<Sector>, places: seq<nat>, ofs: nat)
    requires places != []
    ensures var n := |places| - 1;
            Sent(dev, buf, MovesTo(places, ofs))
            == Put(Sent(dev, buf, MovesTo(places[..n], ofs)), places[n], At(buf, ofs + n))
  {
    var n := |places| - 1;
    assert MovesTo(places, ofs)[..n] == MovesTo(places[..n], ofs);
  }

  // ---- round trips ----

  lemma FetchedAfterScatter(dev: seq<Sector>, places: seq<nat>, data: seq<Sector>)
    requires |places| == |data| && NoRepeats(places) && forall k | 0 <= k < |places| :: places[k] < |dev|
    ensures Fetched(Scatter(dev, places, data), places) == data
  {
    forall k | 0 <= k < |places|
      ensures Fetched(Scatter(dev, places, data), places)[k] == data[k]
    {
      ScatterHit(dev, places, data, k);
    }
  }

  /** A block whose sectors are distinct and lie on the device. */
  ghost predicate LiesOn(places: seq<nat>, size: nat) {
    NoRepeats(places) && forall k | 0 <= k < |places| :: places[k] < size
  }

  /**
   * After a buffer was stored through a block's ranges, walking the ranges from block offset `o`
   * for `n` sectors loads buffer sectors `[o, o + n)`.
   */
  lemma StoreThenRead(dev: seq<Sector>, d: BlkDescr, data: seq<Sector>, buf: seq<Sector>, rqOfs: nat, o: nat, n: nat)
    requires LiesOn(Place(d), |dev|) && |data| == |Place(d)| && o + n <= |data| && rqOfs + n <= |buf|
    ensures Loaded(buf, Scatter(dev, Place(d), data), MovesTo(Slice(Place(d), o, n), rqOfs))
            == Overwrite(buf, rqOfs, data[o..o + n])
  {
    var stored, w := Scatter(dev, Place(d), data), Slice(Place(d), o, n);
    assert Fetched(stored, w) == data[o..o + n] by {
      FetchedAfterScatter(dev, Place(d), data);
      FetchedWindow(stored, Place(d), w, o);
    }
    LoadedMoves(buf, stored, w, rqOfs);
  }

  lemma FetchedWindow(dev: seq<Sector>, places: seq<nat>, w: seq<nat>, o: nat)
    requires Window(w, places, o)
    ensures Fetched(dev, w) == Fetched(dev, places)[o..o + |w|]
  {
  }

  /** Writing sectors `[o, o + n)` of a block and reading the block gives them back and changes no others. */
  lemma WriteThenRead(dev: seq<Sector>, d: BlkDescr, buf: seq<Sector>, rqOfs: nat, o: nat, n: nat)
    requires LiesOn(Place(d), |dev|) && o + n <= |Place(d)| && rqOfs + n <= |buf|
    ensures Fetched(Sent(dev, buf, MovesTo(Slice(Place(d), o, n), rqOfs)), Place(d))
         == Overwrite(Fetched(dev, Place(d)), o, buf[rqOfs..rqOfs + n])
  {
    var w, part := Slice(Place(d), o, n), buf[rqOfs..rqOfs + n];
    SentMoves(dev, buf, w, rqOfs, part);
    WrittenBlock(dev, Place(d), w, part, o);
  }

  lemma WrittenBlock(dev: seq<Sector>, places: seq<nat>, w: seq<nat>, part: seq<Sector>, o: nat)
    requires LiesOn(places, |dev|) && Window(w, places, o) && |w| == |part|
    ensures Fetched(Scatter(dev, w, part), places) == Overwrite(Fetched(dev, places), o, part)
  {
    forall k | 0 <= k < |places|
      ensures At(Scatter(dev, w, part), places[k]) == if o <= k < o + |part| then part[k - o] else At(dev, places[k])
    {
      WrittenSector(dev, places, w, part, o, k);
    }
    Assembled(dev, Scatter(dev, w, part), places, part, o);
  }

  lemma Assembled(dev: seq<Sector>, now: seq<Sector>, places: seq<nat>, part: seq<Sector>, o: nat)
    requires forall k | 0 <= k < |places| ::
               At(now, places[k]) == if o <= k < o + |part| then part[k - o] else At(dev, places[k])
    ensures Fetched(now, places) == Overwrite(Fetched(dev, places), o, part)
  {
  }

  /** `w` is the part of `places` from `o` on. */
  ghost predicate Window(w: seq<nat>, places: seq<nat>, o: nat) {
    o + |w| <= |places| && forall j | 0 <= j < |w| :: w[j] == places[o + j]
  }

  lemma WindowLies(w: seq<nat>, places: seq<nat>, o: nat, size: nat)
    requires Window(w, places, o) && LiesOn(places, size)
    ensures LiesOn(w, size)
  {
  }

  lemma WrittenHit(dev: seq<Sector>, places: seq<nat>, w: seq<nat>, part: seq<Sector>, o: nat, k: nat)
    requires Window(w, places, o) && LiesOn(w, |dev|) && |w| == |part| && o <= k < o + |w|
    ensures At(Scatter(dev, w, part), places[k]) == part[k - o]
  {
    assert w[k - o] == places[k];
    ScatterHit(dev, w, part, k - o);
  }

  lemma WrittenMiss(dev: seq<Sector>, places: seq<nat>, w: seq<nat>, part: seq<Sector>, o: nat, k: nat)
    requires Window(w, places, o) && NoRepeats(places) && k < |places| && !(o <= k < o + |w|)
    ensures At(Scatter(dev, w, part), places[k]) == At(dev, places[k])
  {
    forall j | 0 <= j < |w|
      ensures w[j] != places[k]
    {
      assert w[j] == places[o + j];
    }
    ScatterMiss(dev, w, part, places[k]);
  }

  lemma WrittenSector(dev: seq<Sector>, places: seq<nat>, w: seq<nat>, part: seq<Sector>, o: nat, k: nat)
    requires LiesOn(places, |dev|) && Window(w, places, o) && |w| == |part| && k < |places|
    ensures At(Scatter(dev, w, part), places[k]) == if o <= k < o + |part| then part[k - o] else At(dev, places[k])
  {
    if o <= k < o + |part| {
      WindowLies(w, places, o, |dev|);
      WrittenHit(dev, places, w, part, o, k);
    } else {
      WrittenMiss(dev, places, w, part, o, k);
    }
  }
}
