/**
 * Requests of the snapshot image (`snapstore_device_read`, `snapstore_device_write`): cut into
 * pieces inside one block each, turned into bios on the original or the snapstore device, and
 * submitted together at the end.
 */
module ImageRequests {
  import opened Basics
  import opened Ranges
  import opened CowEngine
  import opened BioWalk
  import opened Layout

  // ---- pieces ----

  /** Sectors of the request in front of block `block`. */
  function PieceStart(blk: BlockSize, ofs: nat, block: nat): nat {
    if block * blk <= ofs then 0 else block * blk - ofs
  }

  /** Up to the end of the block or of the request. */
  function PieceCount(blk: BlockSize, ofs: nat, cnt: nat, block: nat, start: nat): int {
    var left := (block + 1) * blk - (ofs + start);
    if left < cnt - start then left else cnt - start
  }

  /** Where block `block` meets the request. */
  lemma BlockMeets(blk: BlockSize, ofs: nat, cnt: nat, block: nat)
    requires Touches(blk, ofs, cnt, block)
    ensures block * blk < ofs + cnt && ofs < (block + 1) * blk
    ensures block > FirstBlock(blk, ofs) ==> ofs < block * blk
    ensures block == FirstBlock(blk, ofs) ==> block * blk <= ofs
    ensures block == LastBlock(blk, ofs, cnt) ==> ofs + cnt <= (block + 1) * blk
    ensures block < LastBlock(blk, ofs, cnt) ==> (block + 1) * blk < ofs + cnt
  {
    var first, last := FirstBlock(blk, ofs), LastBlock(blk, ofs, cnt);
    DivBounds(ofs, blk);
    DivBounds(ofs + cnt - 1, blk);
    MulMonotone(block, last, blk);
    MulMonotone(first + 1, block + 1, blk);
    if block > first {
      MulMonotone(first + 1, block, blk);
    }
    if block < last {
      MulMonotone(block + 1, last, blk);
    }
  }

  /**
   * Request splitting is exact: each piece is not empty, lies inside its block and ends where the
   * next one starts; the last one ends the request.
   */
  lemma PiecesExact(blk: BlockSize, ofs: nat, cnt: nat, block: nat)
    requires Touches(blk, ofs, cnt, block)
    ensures var start := PieceStart(blk, ofs, block);
            && start < cnt && ofs + start < (block + 1) * blk
            && var n := PieceCount(blk, ofs, cnt, block, start);
               && n > 0 && start + n <= cnt && PieceStart(blk, ofs, block + 1) >= start + n
               && (block < LastBlock(blk, ofs, cnt) ==> start + n == PieceStart(blk, ofs, block + 1))
               && (block == LastBlock(blk, ofs, cnt) ==> start + n == cnt)
    ensures block == FirstBlock(blk, ofs) ==> PieceStart(blk, ofs, block) == 0
  {
    BlockMeets(blk, ofs, cnt, block);
    assert (block + 1) * blk == block * blk + blk;
  }

  lemma PieceInBlock(blk: BlockSize, ofs: nat, cnt: nat, block: nat, i: nat)
    requires Touches(blk, ofs, cnt, block)
    requires var start := PieceStart(blk, ofs, block);
             ofs + start <= i < ofs + start + PieceCount(blk, ofs, cnt, block, start)
    ensures i / blk == block && i % blk == i - block * blk
  {
    BlockMeets(blk, ofs, cnt, block);
    assert (block + 1) * blk == block * blk + blk;
    DivUnique(i, block, blk);
  }

  // ---- bios on two devices ----

  datatype Io = Io(onStore: bool, bio: NewBio)

  function Ios(onStore: bool, bios: seq<NewBio>): (r: seq<Io>)
    ensures |r| == |bios|
  {
    seq(|bios|, k requires 0 <= k < |bios| => Io(onStore, bios[k]))
  }

  /** The buffer once all bios were read. */
  function LoadedIos(buf: seq<Sector>, orig: seq<Sector>, store: seq<Sector>, segs: seq<nat>,
          ios: seq<Io>): (r: seq<Sector>)
    ensures |r| == |buf|
  {
    var n := |ios| - 1;
    if n < 0 then buf
    else
      var src := if ios[n].onStore then store else orig;
      Loaded(LoadedIos(buf, orig, store, segs, ios[..n]), src, BioMoves(segs, ios[n].bio))
  }

  /** The snapstore device once all bios were written. */
  function SentBios(store: seq<Sector>, buf: seq<Sector>, segs: seq<nat>, bios: seq<NewBio>): (r: seq<Sector>)
    ensures |r| == |store|
  {
    var n := |bios| - 1;
    if n < 0 then store else Sent(SentBios(store, buf, segs, bios[..n]), buf, BioMoves(segs, bios[n]))
  }

  lemma {:induction false} LoadedAppend(buf: seq<Sector>, dev: seq<Sector>, a: seq<Move>, b: seq<Move>)
    ensures Loaded(buf, dev, a + b) == Loaded(Loaded(buf, dev, a), dev, b)
    decreases |b|
  {
    if b == [] {
      assert a + b == a;
    } else {
      var n := |b| - 1;
      assert (a + b)[..|a + b| - 1] == a + b[..n];
      LoadedAppend(buf, dev, a, b[..n]);
    }
  }

  lemma {:induction false} SentAppend(dev: seq<Sector>, buf: seq<Sector>, a: seq<Move>, b: seq<Move>)
    ensures Sent(dev, buf, a + b) == Sent(Sent(dev, buf, a), buf, b)
    decreases |b|
  {
    if b == [] {
      assert a + b == a;
    } else {
      var n := |b| - 1;
      assert (a + b)[..|a + b| - 1] == a + b[..n];
      SentAppend(dev, buf, a, b[..n]);
    }
  }

  /** Reading bios of one device is reading all they move. */
  lemma {:induction false} LoadedMore(buf: seq<Sector>, orig: seq<Sector>, store: seq<Sector>, segs: seq<nat>,
          ios: seq<Io>,
      onStore: bool, bios: seq<NewBio>)
    ensures LoadedIos(buf, orig, store, segs, ios + Ios(onStore, bios))
         == Loaded(LoadedIos(buf, orig, store, segs, ios), if onStore then store else orig, AllMoves(segs, bios))
    decreases |bios|
  {
    if bios == [] {
      assert ios + Ios(onStore, bios) == ios;
    } else {
      var n := |bios| - 1;
      var all := ios + Ios(onStore, bios);
      assert all[..|all| - 1] == ios + Ios(onStore, bios[..n]) && all[|all| - 1] == Io(onStore, bios[n]);
      LoadedMore(buf, orig, store, segs, ios, onStore, bios[..n]);
      var src := if onStore then store else orig;
      LoadedAppend(LoadedIos(buf, orig, store, segs, ios), src, AllMoves(segs, bios[..n]), BioMoves(segs, bios[n]));
    }
  }

  lemma {:induction false} SentMore(store: seq<Sector>, buf: seq<Sector>, segs: seq<nat>, a: seq<NewBio>,
          b: seq<NewBio>)
    ensures SentBios(store, buf, segs, a + b) == Sent(SentBios(store, buf, segs, a), buf, AllMoves(segs, b))
    decreases |b|
  {
    if b == [] {
      assert a + b == a;
    } else {
      var n := |b| - 1;
      assert (a + b)[..|a + b| - 1] == a + b[..n];
      SentMore(store, buf, segs, a, b[..n]);
      SentAppend(SentBios(store, buf, segs, a), buf, AllMoves(segs, b[..n]), BioMoves(segs, b[n]));
    }
  }

  // ---- bios of one piece ----

  /** The segments of a bio make up its size. */
  predicate Sized(segs: seq<nat>, cnt: nat) {
    SegStart(segs, |segs|) == cnt
  }

  /** No segment is empty, and every bio takes at least one part. */
  ghost predicate Willing(segs: seq<nat>, room: Room) {
    && (forall i | 0 <= i < |segs| :: segs[i] > 0)
    && forall s: nat, n: nat :: room(NewBio(s, []), n)
  }

  lemma AllBefore(segs: seq<nat>, ofs: nat, cnt: nat)
    requires ofs + cnt <= SegStart(segs, |segs|)
    ensures Before(segs, |segs|, ofs, cnt) == cnt
  {
  }

  lemma {:induction false} AllMovesAppend(segs: seq<nat>, a: seq<NewBio>, b: seq<NewBio>)
    ensures AllMoves(segs, a + b) == AllMoves(segs, a) + AllMoves(segs, b)
    decreases |b|
  {
    if b == [] {
      assert a + b == a;
    } else {
      var n := |b| - 1;
      assert (a + b)[..|a + b| - 1] == a + b[..n];
      AllMovesAppend(segs, a, b[..n]);
      AppendAssociates(AllMoves(segs, a), AllMoves(segs, b[..n]), BioMoves(segs, b[n]));
    }
  }

  /** The bios of one part; an empty part has none. */
  method RedirectOne(segs: seq<nat>, room: Room, part: Part, bios0: seq<NewBio>)
    returns (res: Status, bios: seq<NewBio>)
    requires part.len > 0 ==> part.ofs + part.len <= SegStart(segs, |segs|)
    ensures (res == Success || res == EIO) && (Willing(segs, room) ==> res == Success)
    ensures res == Success ==>
              AllMoves(segs, bios) == AllMoves(segs, bios0) + Straight(part.ofs, part.pos, part.len)
  {
    if part.len == 0 { return Success, bios0; }
    var more;
    res, more := RedirectPart(segs, part.pos, part.ofs, part.len, room);
    AllBefore(segs, part.ofs, part.len);
    AllMovesAppend(segs, bios0, more);
    bios := bios0 + more;
  }

  /**
   * Bios for a piece in the snapstore: walk the block's ranges, and redirect part after part, until
   * one cannot be added.
   */
  method RedirectStore(segs: seq<nat>, room: Room, d: BlkDescr, blockOfs: nat, rqOfs: nat, rqCount: nat)
    returns (res: Status, bios: seq<NewBio>)
    requires rqOfs + rqCount <= SegStart(segs, |segs|) && blockOfs + rqCount <= |Place(d)|
    ensures res == Success || res == EIO
    ensures res == Success ==> AllMoves(segs, bios) == MovesTo(Place(d)[blockOfs..blockOfs + rqCount], rqOfs)
    ensures Willing(segs, room) ==> res == Success
  {
    var parts := WalkRanges(d.ranges, blockOfs, rqOfs, rqCount);
    res, bios := Success, [];
    var k := 0;
    ghost var moved: seq<Part> := [];
    while k < |parts|
      invariant 0 <= k <= |parts| && res == Success && moved == parts[..k] && AllMoves(segs, bios) == PartMoves(moved)
    {
      PartMovesSnoc(moved, parts[k]);
      PartWithin(parts, k, rqOfs, Slice(Place(d), blockOfs, rqCount));
      res, bios := RedirectOne(segs, room, parts[k], bios);
      if res != Success { return; }
      moved := moved + [parts[k]];
      k := k + 1;
    }
    assert moved == parts;
  }

  /** Parts stay inside the piece. */
  lemma PartWithin(parts: seq<Part>, k: nat, rqOfs: nat, places: seq<nat>)
    requires k < |parts| && PartMoves(parts) == MovesTo(places, rqOfs)
    ensures parts[k].len > 0 ==> parts[k].ofs + parts[k].len <= rqOfs + |places|
  {
    var at := PartAt(parts, k);
    if parts[k].len > 0 {
      var j := parts[k].len - 1;
      assert PartMoves(parts)[at + j].bio == parts[k].ofs + j;
      assert MovesTo(places, rqOfs)[at + j].bio == rqOfs + (at + j);
    }
  }

  lemma {:induction false} PartAt(parts: seq<Part>, k: nat) returns (at: nat)
    requires k < |parts|
    ensures at + parts[k].len <= |PartMoves(parts)|
    ensures forall j | at <= j < at + parts[k].len ::
              PartMoves(parts)[j] == Move(parts[k].ofs + (j - at), parts[k].pos + (j - at))
    decreases |parts|
  {
    var n := |parts| - 1;
    if k == n {
      at := |PartMoves(parts[..n])|;
    } else {
      at := PartAt(parts[..n], k);
    }
  }

  // ---- what the pieces add up to ----

  /** The first `n` sectors of an image read. */
  function ShownPart(e: Engine, ofs: nat, n: nat): (r: seq<Sector>)
    ensures |r| == n
  {
    seq(n, k requires 0 <= k < n => Shown(e, {}, ofs + k))
  }

  lemma OverwriteMore(buf: seq<Sector>, now: seq<Sector>, a: seq<Sector>, b: seq<Sector>)
    requires now == Overwrite(buf, 0, a)
    ensures Overwrite(now, |a|, b) == Overwrite(buf, 0, a + b)
  {
  }

  lemma ShownMore(e: Engine, ofs: nat, start: nat, b: seq<Sector>)
    requires IsShown(e, ofs + start, b)
    ensures ShownPart(e, ofs, start) + b == ShownPart(e, ofs, start + |b|)
  {
  }

  function BlockIn(blk: BlockSize, i: nat): nat { i / blk }
  function OffsetIn(blk: BlockSize, i: nat): nat { i % blk }

  /** Device sectors `[at, at + count)` are those of block `block` from offset `o` on. */
  ghost predicate PieceOf(blk: BlockSize, at: nat, count: nat, block: nat, o: nat) {
    && o + count <= blk
    && forall i | at <= i < at + count :: BlockIn(blk, i) == block && OffsetIn(blk, i) == o + (i - at)
  }

  lemma PieceIs(blk: BlockSize, ofs: nat, cnt: nat, block: nat)
    requires Touches(blk, ofs, cnt, block)
    ensures var start := PieceStart(blk, ofs, block);
            var count := PieceCount(blk, ofs, cnt, block, start);
            count > 0 && start + count <= cnt && PieceOf(blk, ofs + start, count, block, OffsetIn(blk, ofs + start))
  {
    var start := PieceStart(blk, ofs, block);
    var count := PieceCount(blk, ofs, cnt, block, start);
    PiecesExact(blk, ofs, cnt, block);
    PieceInBlock(blk, ofs, cnt, block, ofs + start);
    PieceEnds(blk, ofs + start, count, block);
    forall i | ofs + start <= i < ofs + start + count
      ensures BlockIn(blk, i) == block && OffsetIn(blk, i) == OffsetIn(blk, ofs + start) + (i - (ofs + start))
    {
      PieceInBlock(blk, ofs, cnt, block, i);
    }
  }

  lemma PieceEnds(blk: BlockSize, at: nat, count: nat, block: nat)
    requires at + count <= (block + 1) * blk && at % blk == at - block * blk
    ensures at % blk + count <= blk
  {
  }

  /** What image sectors `[at, at + |b|)` show. */
  ghost predicate IsShown(e: Engine, at: nat, b: seq<Sector>) {
    forall j | 0 <= j < |b| :: b[j] == Shown(e, {}, at + j)
  }

  lemma StoredShown(e: Engine, at: nat, count: nat, block: nat, o: nat)
    requires PieceOf(e.blk, at, count, block, o) && block in e.blocks && |Place(e.blocks[block])| == e.blk
    ensures IsShown(e, at, Fetched(e.store, Place(e.blocks[block])[o..o + count]))
  {
    var places := Place(e.blocks[block])[o..o + count];
    var b := Fetched(e.store, places);
    forall j | 0 <= j < |b|
      ensures b[j] == Shown(e, {}, at + j)
    {
      assert BlockIn(e.blk, at + j) == block && OffsetIn(e.blk, at + j) == o + j;
      assert places[j] == Cell(e.blocks[block], o + j);
    }
  }

  lemma OriginalShown(e: Engine, at: nat, count: nat, block: nat, o: nat)
    requires PieceOf(e.blk, at, count, block, o) && block !in e.blocks
    ensures IsShown(e, at, Fetched(e.orig, Span(Range(at, count))))
  {
    var b := Fetched(e.orig, Span(Range(at, count)));
    forall j | 0 <= j < |b|
      ensures b[j] == Shown(e, {}, at + j)
    {
      assert BlockIn(e.blk, at + j) == block;
    }
  }

  /** One more piece read. */
  lemma PieceLoaded(e: Engine, buf: seq<Sector>, segs: seq<nat>, ios: seq<Io>, onStore: bool, bios: seq<NewBio>,
      ofs: nat, start: nat, places: seq<nat>)
    requires start + |places| <= |buf| && AllMoves(segs, bios) == MovesTo(places, start)
    requires LoadedIos(buf, e.orig, e.store, segs, ios) == Overwrite(buf, 0, ShownPart(e, ofs, start))
    requires IsShown(e, ofs + start, Fetched(if onStore then e.store else e.orig, places))
    ensures LoadedIos(buf, e.orig, e.store, segs, ios + Ios(onStore, bios))
            == Overwrite(buf, 0, ShownPart(e, ofs, start + |places|))
  {
    var now := LoadedIos(buf, e.orig, e.store, segs, ios);
    var b := Fetched(if onStore then e.store else e.orig, places);
    LoadedMore(buf, e.orig, e.store, segs, ios, onStore, bios);
    LoadedMoves(now, if onStore then e.store else e.orig, places, start);
    OverwriteMore(buf, now, ShownPart(e, ofs, start), b);
    ShownMore(e, ofs, start, b);
  }

  lemma Prefixes(data: seq<Sector>, n: nat, m: nat)
    requires n + m <= |data|
    ensures data[..n] + data[n..n + m] == data[..n + m]
  {
  }

  lemma ScatterNext(store: seq<Sector>, data: seq<Sector>, places: seq<nat>, more: seq<nat>)
    requires |places| + |more| <= |data|
    ensures Scatter(Scatter(store, places, data[..|places|]), more, data[|places|..|places| + |more|])
         == Scatter(store, places + more, data[..|places| + |more|])
  {
    ScatterAppend(store, places, data[..|places|], more, data[|places|..|places| + |more|]);
    Prefixes(data, |places|, |more|);
  }

  lemma {:induction false} SentSlice(dev: seq<Sector>, buf: seq<Sector>, places: seq<nat>, ofs: nat)
    requires ofs + |places| <= |buf|
    ensures Sent(dev, buf, MovesTo(places, ofs)) == Scatter(dev, places, buf[ofs..ofs + |places|])
  {
    SentMoves(dev, buf, places, ofs, buf[ofs..ofs + |places|]);
  }

  /** One more piece written. */
  lemma {:induction false} PieceSent(e: Engine, data: seq<Sector>, segs: seq<nat>, a: seq<NewBio>, b: seq<NewBio>,
          places: seq<nat>, more: seq<nat>)
    requires |places| + |more| <= |data| && AllMoves(segs, b) == MovesTo(more, |places|)
    requires SentBios(e.store, data, segs, a) == Scatter(e.store, places, data[..|places|])
    ensures SentBios(e.store, data, segs, a + b) == Scatter(e.store, places + more, data[..|places| + |more|])
  {
    SentMore(e.store, data, segs, a, b);
    SentSlice(Scatter(e.store, places, data[..|places|]), data, more, |places|);
    ScatterNext(e.store, data, places, more);
  }

  /** The piece of a mapped block extends the targets of an image write. */
  lemma TargetsMore(e: Engine, ofs: nat, start: nat, count: nat, block: nat, o: nat)
    requires AllMapped(e, ofs, start) && PieceOf(e.blk, ofs + start, count, block, o)
    requires block in e.blocks && |Place(e.blocks[block])| == e.blk
    ensures AllMapped(e, ofs, start + count)
    ensures Targets(e, ofs, start + count) == Targets(e, ofs, start) + Place(e.blocks[block])[o..o + count]
  {
    forall i | ofs <= i < ofs + start + count
      ensures Mapped(e, i)
    {
      assert i >= ofs + start ==> BlockIn(e.blk, i) == block;
    }
    var more := Place(e.blocks[block])[o..o + count];
    forall j | 0 <= j < count
      ensures Mapped(e, ofs + start + j) && Target(e, ofs + start + j) == more[j]
    {
      TargetIs(e, ofs + start, count, block, o, j);
    }
    TargetsJoin(e, ofs, start, more);
  }

  lemma TargetIs(e: Engine, at: nat, count: nat, block: nat, o: nat, j: nat)
    requires PieceOf(e.blk, at, count, block, o) && block in e.blocks && |Place(e.blocks[block])| == e.blk && j < count
    ensures Mapped(e, at + j) && Target(e, at + j) == Place(e.blocks[block])[o..o + count][j]
  {
    assert BlockIn(e.blk, at + j) == block && OffsetIn(e.blk, at + j) == o + j;
  }

  lemma TargetsJoin(e: Engine, ofs: nat, start: nat, more: seq<nat>)
    requires AllMapped(e, ofs, start) && AllMapped(e, ofs, start + |more|)
    requires forall j | 0 <= j < |more| :: Mapped(e, ofs + start + j) && Target(e, ofs + start + j) == more[j]
    ensures Targets(e, ofs, start + |more|) == Targets(e, ofs, start) + more
  {
  }
}
