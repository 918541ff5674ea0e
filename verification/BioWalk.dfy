/**
 * Walking the segments of a bio for one piece of a request (`blk_redirect.c`): building the bios
 * that move the piece, copying it from or to memory, and filling it with zeros.
 */
module BioWalk {
  import opened Basics
  import opened Chunked
  import opened CowEngine

  /** Part of a segment, in sectors. */
  datatype Vec = Vec(seg: nat, start: nat, len: nat)

  /** A bio under construction: where it goes on the device, and what it carries. */
  datatype NewBio = NewBio(sector: nat, vecs: seq<Vec>)

  /** Sector `bio` of the request moves from or to sector `dev` of the device. */
  datatype Move = Move(bio: nat, dev: nat)

  /** Whether `bio_add_page` takes another `len` sectors: any function of the bio so far. */
  type Room = (NewBio, nat) -> bool

  function SegStart(segs: seq<nat>, i: nat): nat
    requires i <= |segs|
  {
    if i == 0 then 0 else SegStart(segs, i - 1) + segs[i - 1]
  }

  function Len(vecs: seq<Vec>): nat {
    if vecs == [] then 0 else Len(vecs[..|vecs| - 1]) + vecs[|vecs| - 1].len
  }

  /** Sector after sector, from `bio` and `dev` on. */
  function Straight(bio: nat, dev: nat, cnt: nat): (r: seq<Move>)
    ensures |r| == cnt
  {
    seq(cnt, j requires 0 <= j < cnt => Move(bio + j, dev + j))
  }

  function SegOf(segs: seq<nat>, v: Vec): nat {
    if v.seg <= |segs| then SegStart(segs, v.seg) else 0
  }

  /** What a bio moves once it is submitted. */
  function BioMoves(segs: seq<nat>, b: NewBio): seq<Move>
    decreases |b.vecs|
  {
    var n := |b.vecs| - 1;
    if n < 0 then []
    else
      var front := b.(vecs := b.vecs[..n]);
      BioMoves(segs, front)
      + Straight(SegOf(segs, b.vecs[n]) + b.vecs[n].start, b.sector + Len(front.vecs), b.vecs[n].len)
  }

  function AllMoves(segs: seq<nat>, bios: seq<NewBio>): seq<Move> {
    var n := |bios| - 1;
    if n < 0 then [] else AllMoves(segs, bios[..n]) + BioMoves(segs, bios[n])
  }

  lemma StraightAppend(bio: nat, dev: nat, a: nat, b: nat)
    ensures Straight(bio, dev, a) + Straight(bio + a, dev + a, b) == Straight(bio, dev, a + b)
  {
  }

  lemma AllMovesSnoc(segs: seq<nat>, bios: seq<NewBio>, b: NewBio)
    ensures AllMoves(segs, bios + [b]) == AllMoves(segs, bios) + BioMoves(segs, b)
  {
  }

  lemma BioMovesSnoc(segs: seq<nat>, b: NewBio, v: Vec)
    ensures var b1 := b.(vecs := b.vecs + [v]);
            && Len(b1.vecs) == Len(b.vecs) + v.len
            && BioMoves(segs, b1)
               == BioMoves(segs, b) + Straight(SegOf(segs, v) + v.start, b.sector + Len(b.vecs), v.len)
  {
  }

  /** How much of the piece lies before segment `i`. */
  function Before(segs: seq<nat>, i: nat, ofs: nat, cnt: nat): nat
    requires i <= |segs|
  {
    var start := SegStart(segs, i);
    if start <= ofs then 0 else if start < ofs + cnt then start - ofs else cnt
  }

  /** The bios finished so far and the one under construction move the first `done` sectors of the piece. */
  ghost predicate Moved(segs: seq<nat>, bios: seq<NewBio>, open: Option<NewBio>, ofs: nat, pos: nat, done: nat) {
    match open
    case None => AllMoves(segs, bios) == Straight(ofs, pos, done)
    case Some(b) =>
      b.vecs != [] && b.sector + Len(b.vecs) == pos + done
      && AllMoves(segs, bios) + BioMoves(segs, b) == Straight(ofs, pos, done)
  }

  lemma MovedMore(segs: seq<nat>, bios: seq<NewBio>, b: NewBio, ofs: nat, pos: nat, done: nat, v: Vec)
    requires b.vecs != [] ==> Moved(segs, bios, Some(b), ofs, pos, done)
    requires b.vecs == [] ==> Moved(segs, bios, None, ofs, pos, done) && b.sector == pos + done
    requires SegOf(segs, v) + v.start == ofs + done
    ensures Moved(segs, bios, Some(b.(vecs := b.vecs + [v])), ofs, pos, done + v.len)
  {
    BioMovesSnoc(segs, b, v);
    StraightAppend(ofs, pos, done, v.len);
    var more := Straight(ofs + done, pos + done, v.len);
    assert AllMoves(segs, bios) + (BioMoves(segs, b) + more) == AllMoves(segs, bios) + BioMoves(segs, b) + more;
    if b.vecs == [] {
      assert BioMoves(segs, b) == [] && AllMoves(segs, bios) + [] == AllMoves(segs, bios);
    }
  }

  /** Add a part to the open bio, or, when that is full, to a new one; `EIO` if an empty bio refuses. */
  method AddVec(segs: seq<nat>, bios: seq<NewBio>, open: Option<NewBio>, sector: nat, v: Vec, room: Room,
      ghost ofs: nat, ghost pos: nat, ghost done: nat)
    returns (res: Status, bios1: seq<NewBio>, open1: Option<NewBio>)
    requires Moved(segs, bios, open, ofs, pos, done) && sector == pos + done && SegOf(segs, v) + v.start == ofs + done
    ensures res == Success || res == EIO
    ensures res == Success ==> open1.Some? && Moved(segs, bios1, open1, ofs, pos, done + v.len)
    ensures room(NewBio(sector, []), v.len) ==> res == Success
  {
    bios1, open1 := bios, open;
    while true
      invariant Moved(segs, bios1, open1, ofs, pos, done)
      decreases open1.Some?
    {
      var bio := if open1.None? then NewBio(sector, []) else open1.value;
      if room(bio, v.len) {
        MovedMore(segs, bios1, bio, ofs, pos, done, v);
        return Success, bios1, Some(bio.(vecs := bio.vecs + [v]));
      }
      if bio.vecs == [] { return EIO, bios1, open1; }
      AllMovesSnoc(segs, bios1, bio);
      bios1, open1 := bios1 + [bio], None;
    }
  }

  /**
   * `_blk_dev_redirect_part_fast`: whatever the segment sizes and wherever bios fill up, the bios
   * built move each sector of the piece once, in order, to or from the sectors behind `targetPos`.
   */
  method RedirectPart(segs: seq<nat>, targetPos: nat, rqOfs: nat, rqCount: nat, room: Room)
    returns (res: Status, bios: seq<NewBio>)
    requires rqCount > 0
    ensures res == Success || res == EIO
    ensures res == Success ==> AllMoves(segs, bios) == Straight(rqOfs, targetPos, Before(segs, |segs|, rqOfs, rqCount))
    ensures (forall i | 0 <= i < |segs| :: segs[i] > 0) && (forall s: nat, n: nat :: room(NewBio(s, []), n)) ==>
              res == Success
  {
    var open: Option<NewBio> := None;
    bios := [];
    var sectOfs, processed, i := 0, 0, 0;
    while i < |segs|
      invariant 0 <= i <= |segs| && sectOfs == SegStart(segs, i) && processed == Before(segs, i, rqOfs, rqCount)
      invariant Moved(segs, bios, open, rqOfs, targetPos, processed)
    {
      if sectOfs + segs[i] <= rqOfs {
        sectOfs := sectOfs + segs[i];
        i := i + 1;
        continue;
      }
      if sectOfs >= rqOfs + rqCount {
        NothingBehind(segs, i, rqOfs, rqCount);
        break;
      }
      var bvecOfs := if sectOfs < rqOfs then rqOfs - sectOfs else 0;
      var bvecSectors := segs[i] - bvecOfs;
      if bvecSectors > rqCount - processed {
        bvecSectors := rqCount - processed;
      }
      if bvecSectors == 0 { return EIO, bios; }
      res, bios, open := AddVec(segs, bios, open, targetPos + processed, Vec(i, bvecOfs, bvecSectors), room,
        rqOfs, targetPos, processed);
      if res != Success { return; }
      processed := processed + bvecSectors;
      sectOfs := sectOfs + segs[i];
      i := i + 1;
    }
    if open.Some? {
      AllMovesSnoc(segs, bios, open.value);
      bios := bios + [open.value];
    }
    res := Success;
  }

  /** Once the piece is complete, later segments add nothing. */
  lemma {:induction false} NothingBehind(segs: seq<nat>, i: nat, ofs: nat, cnt: nat)
    requires i <= |segs| && SegStart(segs, i) >= ofs + cnt
    ensures Before(segs, |segs|, ofs, cnt) == Before(segs, i, ofs, cnt)
    decreases |segs| - i
  {
    if i < |segs| {
      NothingBehind(segs, i + 1, ofs, cnt);
    }
  }

  /** What the walk takes from a segment that meets the piece. */
  lemma PartTaken(segs: seq<nat>, i: nat, ofs: nat, cnt: nat, start: nat, len: nat)
    requires i < |segs| && SegStart(segs, i) < ofs + cnt && SegStart(segs, i) + segs[i] > ofs
    requires start == if SegStart(segs, i) < ofs then ofs - SegStart(segs, i) else 0
    requires var left := cnt - Before(segs, i, ofs, cnt);
             len == if segs[i] - start > left then left else segs[i] - start
    ensures start + len <= segs[i] && SegStart(segs, i) + start == ofs + Before(segs, i, ofs, cnt)
    ensures Before(segs, i + 1, ofs, cnt) == Before(segs, i, ofs, cnt) + len <= cnt
    ensures SegStart(segs, i + 1) == SegStart(segs, i) + segs[i]
  {
  }

  /** Which part of a segment belongs to the piece, and how much of it is left to move. */
  method NextPart(len: nat, sectOfs: nat, processed: nat, rqOfs: nat, rqCount: nat, ghost segs: seq<nat>, ghost i: nat)
    returns (bvecOfs: nat, bvecSectors: nat)
    requires i < |segs| && len == segs[i] && sectOfs == SegStart(segs, i)
    requires processed == Before(segs, i, rqOfs, rqCount)
    requires sectOfs < rqOfs + rqCount && rqOfs < sectOfs + len
    ensures bvecOfs + bvecSectors <= len && sectOfs + bvecOfs == rqOfs + processed
    ensures processed + bvecSectors == Before(segs, i + 1, rqOfs, rqCount) <= rqCount
    ensures sectOfs + len == SegStart(segs, i + 1)
  {
    bvecOfs := if sectOfs < rqOfs then rqOfs - sectOfs else 0;
    bvecSectors := len - bvecOfs;
    if bvecSectors > rqCount - processed {
      bvecSectors := rqCount - processed;
    }
    PartTaken(segs, i, rqOfs, rqCount, bvecOfs, bvecSectors);
  }

  /** A segment ahead of the piece has no part in it. */
  lemma SegmentSkipped(segs: seq<nat>, i: nat, ofs: nat, cnt: nat)
    requires i < |segs| && SegStart(segs, i) + segs[i] <= ofs
    ensures SegStart(segs, i + 1) == SegStart(segs, i) + segs[i]
    ensures Before(segs, i + 1, ofs, cnt) == Before(segs, i, ofs, cnt)
  {
  }

  // ---- copying into and out of a bio ----

  ghost predicate Apart(segs: seq<array<Sector>>) {
    forall i, j | 0 <= i < j < |segs| :: segs[i] != segs[j]
  }

  ghost function Contents(segs: seq<array<Sector>>): (c: seq<seq<Sector>>)
    reads segs
    ensures |c| == |segs| && forall i :: 0 <= i < |segs| ==> c[i] == segs[i][..]
  {
    seq(|segs|, i requires 0 <= i < |segs| reads segs => segs[i][..])
  }

  /** The sectors of a bio in order. */
  ghost function Data(segs: seq<array<Sector>>): seq<Sector>
    reads segs
  {
    Flatten(Contents(segs))
  }

  lemma {:induction false} SegStarts(chunks: seq<seq<Sector>>, i: nat)
    requires i <= |chunks|
    ensures SegStart(Lengths(chunks), i) == FlatIndex(chunks, i, 0) <= |Flatten(chunks)|
  {
    if i > 0 {
      SegStarts(chunks, i - 1);
      FlatNext(chunks, i - 1);
    }
  }

  lemma OverwriteMiddle(a: seq<Sector>, b: seq<Sector>, c: seq<Sector>, start: nat, part: seq<Sector>)
    requires start + |part| <= |b|
    ensures a + Overwrite(b, start, part) + c == Overwrite(a + b + c, |a| + start, part)
  {
  }

  lemma LengthsStay(chunks: seq<seq<Sector>>, i: nat, c: seq<Sector>)
    requires i < |chunks| && |c| == |chunks[i]|
    ensures Lengths(chunks[i := c]) == Lengths(chunks)
  {
  }

  /** Overwriting part of one segment overwrites the same sectors of the bio. */
  lemma {:induction false} OverwriteSegment(chunks: seq<seq<Sector>>, i: nat, start: nat, part: seq<Sector>)
    requires i < |chunks| && start + |part| <= |chunks[i]|
    ensures var updated := chunks[i := Overwrite(chunks[i], start, part)];
            Flatten(updated) == Overwrite(Flatten(chunks), SegStart(Lengths(chunks), i) + start, part)
  {
    var updated := chunks[i := Overwrite(chunks[i], start, part)];
    FlatSplit(chunks, i);
    FlatSplit(updated, i);
    assert updated[..i] == chunks[..i] && updated[i + 1..] == chunks[i + 1..];
    OverwriteMiddle(Flatten(chunks[..i]), chunks[i], Flatten(chunks[i + 1..]), start, part);
    SegStarts(chunks, i);
  }

  lemma MiddleSlice(s: seq<Sector>, a: seq<Sector>, b: seq<Sector>, c: seq<Sector>, start: nat, cnt: nat)
    requires s == a + b + c && start + cnt <= |b|
    ensures |a| + |b| <= |s| && s[|a| + start..|a| + start + cnt] == b[start..start + cnt]
  {
  }

  lemma {:induction false} SegmentSlice(chunks: seq<seq<Sector>>, i: nat, start: nat, cnt: nat)
    requires i < |chunks| && start + cnt <= |chunks[i]|
    ensures SegStart(Lengths(chunks), i) + start + cnt <= |Flatten(chunks)|
    ensures var at := SegStart(Lengths(chunks), i) + start;
            Flatten(chunks)[at..at + cnt] == chunks[i][start..start + cnt]
  {
    SegStarts(chunks, i);
    FlatSplit(chunks, i);
    assert SegStart(Lengths(chunks), i) == |Flatten(chunks[..i])|;
    MiddleSlice(Flatten(chunks), Flatten(chunks[..i]), chunks[i], Flatten(chunks[i + 1..]), start, cnt);
  }

  lemma Joined(s: seq<Sector>, from: nat, a: nat, b: nat)
    requires from + a + b <= |s|
    ensures s[from..from + a] + s[from + a..from + a + b] == s[from..from + a + b]
    ensures from == 0 ==> s[..a] + s[a..a + b] == s[..a + b]
  {
  }

  /** `memcpy` of part of a buffer into a segment. */
  method CopyIn(segs: seq<array<Sector>>, i: nat, start: nat, buff: seq<Sector>, from: nat, cnt: nat)
    requires Apart(segs) && i < |segs| && start + cnt <= segs[i].Length && from + cnt <= |buff|
    modifies segs[i]
    ensures var was := old(Contents(segs)); Contents(segs) == was[i := Overwrite(was[i], start, buff[from..from + cnt])]
  {
    ghost var was, part := Contents(segs), buff[from..from + cnt];
    var seg := segs[i];
    forall k | start <= k < start + cnt {
      seg[k] := buff[from + (k - start)];
    }
    assert seg[..] == Overwrite(was[i], start, part);
    forall k | 0 <= k < |segs|
      ensures Contents(segs)[k] == if k == i then Overwrite(was[i], start, part) else was[k]
    {
      assert k < i || k > i ==> segs[k] != seg;
    }
  }

  lemma Continued(was: seq<Sector>, now: seq<Sector>, ofs: nat, at: nat, done: seq<Sector>, part: seq<Sector>)
    requires now == Overwrite(was, ofs, done) && at == ofs + |done|
    ensures Overwrite(now, at, part) == Overwrite(was, ofs, done + part)
  {
  }

  lemma {:induction false} CopiedMore(chunks: seq<seq<Sector>>, flat: seq<Sector>, ofs: nat, done: seq<Sector>,
          part: seq<Sector>, i: nat, start: nat)
    requires i < |chunks| && start + |part| <= |chunks[i]|
    requires Flatten(chunks) == Overwrite(flat, ofs, done) && SegStart(Lengths(chunks), i) + start == ofs + |done|
    ensures var updated := chunks[i := Overwrite(chunks[i], start, part)];
            Lengths(updated) == Lengths(chunks) && Flatten(updated) == Overwrite(flat, ofs, done + part)
  {
    LengthsStay(chunks, i, Overwrite(chunks[i], start, part));
    OverwriteSegment(chunks, i, start, part);
    Continued(flat, Flatten(chunks), ofs, SegStart(Lengths(chunks), i) + start, done, part);
  }

  /** The next part of the piece: behind `done` sectors of the buffer, `cnt` more. */
  method CopyInNext(segs: seq<array<Sector>>, i: nat, start: nat, buff: seq<Sector>, done: nat, cnt: nat,
      ghost flat: seq<Sector>, ghost ofs: nat)
    requires Apart(segs) && i < |segs| && start + cnt <= segs[i].Length && done + cnt <= |buff|
    requires Data(segs) == Overwrite(flat, ofs, buff[..done])
    requires SegStart(Lengths(Contents(segs)), i) + start == ofs + done
    modifies segs[i]
    ensures Lengths(Contents(segs)) == old(Lengths(Contents(segs)))
    ensures Data(segs) == Overwrite(flat, ofs, buff[..done + cnt])
  {
    Joined(buff, 0, done, cnt);
    CopiedMore(Contents(segs), flat, ofs, buff[..done], buff[done..done + cnt], i, start);
    CopyIn(segs, i, start, buff, done, cnt);
  }

  /** `blk_dev_redirect_memcpy_part`, reading: the piece of the bio becomes the buffer's first sectors. */
  method MemcpyRead(segs: seq<array<Sector>>, buff: seq<Sector>, rqOfs: nat, rqCount: nat)
    requires Apart(segs) && rqCount <= |buff|
    modifies segs
    ensures var n := Before(old(Lengths(Contents(segs))), |segs|, rqOfs, rqCount);
            Data(segs) == Overwrite(old(Data(segs)), rqOfs, buff[..n])
  {
    var sectOfs, processed, i := 0, 0, 0;
    ghost var flat, lens := Data(segs), Lengths(Contents(segs));
    while i < |segs|
      invariant 0 <= i <= |segs| && sectOfs == SegStart(lens, i) && processed == Before(lens, i, rqOfs, rqCount)
      invariant Lengths(Contents(segs)) == lens && Data(segs) == Overwrite(flat, rqOfs, buff[..processed])
    {
      var len := segs[i].Length;
      assert lens[i] == len;
      if sectOfs + len <= rqOfs {
        SegmentSkipped(lens, i, rqOfs, rqCount);
        sectOfs := sectOfs + len;
        i := i + 1;
        continue;
      }
      if sectOfs >= rqOfs + rqCount {
        NothingBehind(lens, i, rqOfs, rqCount);
        break;
      }
      var bvecOfs, bvecSectors := NextPart(len, sectOfs, processed, rqOfs, rqCount, lens, i);
      CopyInNext(segs, i, bvecOfs, buff, processed, bvecSectors, flat, rqOfs);
      processed := processed + bvecSectors;
      sectOfs := sectOfs + len;
      i := i + 1;
    }
  }

  /** `blk_dev_redirect_zeroed_part`: the piece of the bio becomes zeros. */
  method ZeroedPart(segs: seq<array<Sector>>, rqOfs: nat, rqCount: nat)
    requires Apart(segs)
    modifies segs
    ensures Data(segs) == Overwrite(old(Data(segs)), rqOfs,
              seq(Before(old(Lengths(Contents(segs))), |segs|, rqOfs, rqCount), _ => 0))
  {
    ghost var cnt := Before(Lengths(Contents(segs)), |segs|, rqOfs, rqCount);
    var zeros := seq(rqCount, _ => 0);
    MemcpyRead(segs, zeros, rqOfs, rqCount);
    assert zeros[..cnt] == seq(cnt, _ => 0);
  }

  method CopyFrom(segs: seq<array<Sector>>, i: nat, start: nat, buff: array<Sector>, to: nat, cnt: nat)
    requires i < |segs| && start + cnt <= segs[i].Length && to + cnt <= buff.Length && buff !in segs
    modifies buff
    ensures buff[..] == Overwrite(old(buff[..]), to, Contents(segs)[i][start..start + cnt])
  {
    var seg := segs[i];
    forall k | to <= k < to + cnt {
      buff[k] := seg[start + (k - to)];
    }
    assert buff[..] == Overwrite(old(buff[..]), to, seg[start..start + cnt]);
  }

  lemma {:induction false} CopiedOutMore(chunks: seq<seq<Sector>>, was: seq<Sector>, now: seq<Sector>, ofs: nat,
          done: nat, i: nat, start: nat, cnt: nat)
    requires i < |chunks| && start + cnt <= |chunks[i]| && SegStart(Lengths(chunks), i) + start == ofs + done
    requires ofs + done <= |Flatten(chunks)| && now == Overwrite(was, 0, Flatten(chunks)[ofs..ofs + done])
    ensures ofs + done + cnt <= |Flatten(chunks)|
    ensures Overwrite(now, done, chunks[i][start..start + cnt])
            == Overwrite(was, 0, Flatten(chunks)[ofs..ofs + done + cnt])
  {
    SegmentSlice(chunks, i, start, cnt);
    Joined(Flatten(chunks), ofs, done, cnt);
    Continued(was, now, 0, done, Flatten(chunks)[ofs..ofs + done], chunks[i][start..start + cnt]);
  }

  /** The next part of the piece, into the buffer behind what it got so far. */
  method CopyOutNext(segs: seq<array<Sector>>, i: nat, start: nat, buff: array<Sector>, done: nat, cnt: nat,
      ghost was: seq<Sector>, ghost ofs: nat)
    requires i < |segs| && start + cnt <= segs[i].Length && done + cnt <= buff.Length && buff !in segs
    requires ofs + done <= |Data(segs)| && buff[..] == Overwrite(was, 0, Data(segs)[ofs..ofs + done])
    requires SegStart(Lengths(Contents(segs)), i) + start == ofs + done
    modifies buff
    ensures Contents(segs) == old(Contents(segs)) && ofs + done + cnt <= |Data(segs)|
    ensures buff[..] == Overwrite(was, 0, Data(segs)[ofs..ofs + done + cnt])
  {
    CopiedOutMore(Contents(segs), was, buff[..], ofs, done, i, start, cnt);
    CopyFrom(segs, i, start, buff, done, cnt);
  }

  /** `n` sectors of the bio from `ofs` on, where it has them. */
  function BioSlice(data: seq<Sector>, ofs: nat, n: nat): seq<Sector> {
    if ofs + n <= |data| then data[ofs..ofs + n] else []
  }

  /** One turn over a segment that has part of the piece. */
  method TakePart(segs: seq<array<Sector>>, i: nat, sectOfs: nat, buff: array<Sector>, processed: nat, rqOfs: nat,
      rqCount: nat, ghost was: seq<Sector>)
    returns (taken: nat)
    requires i < |segs| && rqCount <= buff.Length && buff !in segs && rqOfs < sectOfs + segs[i].Length
    requires var lens := Lengths(Contents(segs));
             sectOfs == SegStart(lens, i) < rqOfs + rqCount && processed == Before(lens, i, rqOfs, rqCount)
    requires processed > 0 ==> rqOfs + processed <= |Data(segs)|
    requires buff[..] == Overwrite(was, 0, BioSlice(Data(segs), rqOfs, processed))
    modifies buff
    ensures Contents(segs) == old(Contents(segs)) && taken == Before(Lengths(Contents(segs)), i + 1, rqOfs, rqCount)
    ensures rqOfs + taken <= |Data(segs)| && buff[..] == Overwrite(was, 0, BioSlice(Data(segs), rqOfs, taken))
  {
    var len := segs[i].Length;
    ghost var chunks := Contents(segs);
    ghost var lens := Lengths(chunks);
    assert lens[i] == len;
    var bvecOfs, bvecSectors := NextPart(len, sectOfs, processed, rqOfs, rqCount, lens, i);
    SegmentSlice(chunks, i, bvecOfs, bvecSectors);
    CopyOutNext(segs, i, bvecOfs, buff, processed, bvecSectors, was, rqOfs);
    taken := processed + bvecSectors;
  }

  /**
   * `blk_dev_redirect_memcpy_part`, writing: the buffer's first sectors become the piece of the bio, as
   * far as the bio reaches.
   */
  method MemcpyWrite(segs: seq<array<Sector>>, buff: array<Sector>, rqOfs: nat, rqCount: nat)
    requires rqCount <= buff.Length && buff !in segs
    modifies buff
    ensures var n := Before(Lengths(Contents(segs)), |segs|, rqOfs, rqCount);
            && (n > 0 ==> rqOfs + n <= |Data(segs)|)
            && (n < rqCount ==> |Data(segs)| <= rqOfs + n)
            && buff[..] == Overwrite(old(buff[..]), 0, BioSlice(Data(segs), rqOfs, n))
  {
    var sectOfs, processed, i := 0, 0, 0;
    ghost var chunks, was := Contents(segs), buff[..];
    ghost var lens := Lengths(chunks);
    while i < |segs|
      invariant 0 <= i <= |segs| && sectOfs == SegStart(lens, i) && processed == Before(lens, i, rqOfs, rqCount)
      invariant Contents(segs) == chunks && (processed > 0 ==> rqOfs + processed <= |Data(segs)|)
      invariant buff[..] == Overwrite(was, 0, BioSlice(Data(segs), rqOfs, processed))
    {
      var len := segs[i].Length;
      assert lens[i] == len;
      if sectOfs + len <= rqOfs {
        SegmentSkipped(lens, i, rqOfs, rqCount);
        sectOfs := sectOfs + len;
        i := i + 1;
        continue;
      }
      if sectOfs >= rqOfs + rqCount {
        NothingBehind(lens, i, rqOfs, rqCount);
        break;
      }
      processed := TakePart(segs, i, sectOfs, buff, processed, rqOfs, rqCount, was);
      sectOfs := sectOfs + len;
      i := i + 1;
    }
    SegStarts(chunks, |segs|);
    FlatEnds(chunks);
  }
}
