/**
 * The persistent map as a byte stream over stamped pages (`cbt_storage.c`): the specifications
 * its accessor is proved against, and what they promise about whole streams.
 */
module CbtStream {
  import opened Basics

  const PAGE_SIZE: nat := 4096
  const HEADER: nat := 32   // offsetof(cbt_storage_page_t, data)
  const DATA: nat := 4064   // CBT_PAGE_DATA_SIZE
  const MAGIC: Long := 0x6174_6164_7462_6376 // the characters "vcbtdata", first one lowest
  const TWO32: nat := 0x1_0000_0000

  type Word = x: nat | x < 0x1_0000_0000
  type Long = x: nat | x < 0x1_0000_0000_0000_0000
  type Area = s: seq<byte> | |s| == 4064 witness seq(4064, _ => 0)

  datatype Time = Time(sec: Long, nsec: Word)

  /** `cbt_storage_page_t`. */
  datatype Page = Page(magic: Long, crc: Word, number: Word, time: Time, padding: Word, data: Area)

  /** The CRC-32 of the kernel: any deterministic function of what stands behind the checksum. */
  type Crc = (Word, Time, Word, Area) -> Word

  // ---- pages as bytes ----

  function Word32(n: Word): (r: seq<byte>)
    ensures |r| == 4
  {
    [(n % 256) as byte, (n / 256 % 256) as byte, (n / 65536 % 256) as byte, (n / 16777216) as byte]
  }

  function Word64(n: Long): (r: seq<byte>)
    ensures |r| == 8
  {
    Word32(n % TWO32) + Word32(n / TWO32)
  }

  function Value32(b: seq<byte>): Word
    requires |b| == 4
  {
    b[0] as nat + 256 * b[1] as nat + 65536 * b[2] as nat + 16777216 * b[3] as nat
  }

  function Value64(b: seq<byte>): Long
    requires |b| == 8
  {
    Value32(b[..4]) + TWO32 * Value32(b[4..])
  }

  lemma WordRoundTrip(n: Word)
    ensures Value32(Word32(n)) == n
  {
    assert n / 256 / 256 == n / 65536 && n / 65536 / 256 == n / 16777216;
  }

  lemma LongRoundTrip(n: Long)
    ensures Value64(Word64(n)) == n
  {
    WordRoundTrip(n % TWO32);
    WordRoundTrip(n / TWO32);
    assert Word64(n)[..4] == Word32(n % TWO32) && Word64(n)[4..] == Word32(n / TWO32);
  }

  /** The packed, little-endian layout of the header, and the data behind it. */
  function Encode(p: Page): (r: seq<byte>)
    ensures |r| == PAGE_SIZE
  {
    Word64(p.magic) + Word32(p.crc) + Word32(p.number) + Word64(p.time.sec) + Word32(p.time.nsec)
    + Word32(p.padding) + p.data
  }

  function Decode(b: seq<byte>): Page
    requires |b| == PAGE_SIZE
  {
    Page(Value64(b[..8]), Value32(b[8..12]), Value32(b[12..16]), Time(Value64(b[16..24]), Value32(b[24..28])),
         Value32(b[28..32]), b[32..])
  }

  lemma EncodedFields(p: Page)
    ensures var b := Encode(p);
            && b[..8] == Word64(p.magic) && b[8..12] == Word32(p.crc) && b[12..16] == Word32(p.number)
            && b[16..24] == Word64(p.time.sec) && b[24..28] == Word32(p.time.nsec) && b[28..32] == Word32(p.padding)
            && b[32..] == p.data
  {
  }

  /** A page read back from its bytes is the page that was written. */
  lemma PageRoundTrip(p: Page)
    ensures Decode(Encode(p)) == p
  {
    EncodedFields(p);
    LongRoundTrip(p.magic);
    WordRoundTrip(p.crc);
    WordRoundTrip(p.number);
    LongRoundTrip(p.time.sec);
    WordRoundTrip(p.time.nsec);
    WordRoundTrip(p.padding);
  }

  // ---- page headers ----

  /** The header `_cbt_storage_write_page` gives the page in memory. */
  function Stamp(crc: Crc, p: Page, number: nat, time: Time): Page {
    Page(MAGIC, crc(number % TWO32, time, p.padding, p.data), number % TWO32, time, p.padding, p.data)
  }

  /** What `_cbt_storage_read_page` checks. */
  predicate Checks(crc: Crc, p: Page, number: nat) {
    p.magic == MAGIC && p.crc == crc(p.number, p.time, p.padding, p.data) && p.number == number
  }

  /** A stamped page passes the checks, carries its time mark and keeps its data. */
  lemma StampIsRead(crc: Crc, p: Page, number: nat, time: Time)
    requires number < TWO32
    ensures var q := Stamp(crc, p, number, time); Checks(crc, q, number) && q.time == time && q.data == p.data
  {
  }

  // ---- the accessor ----

  /** `placed[k]` says whether page `k` can be located; `pages[k]` is what the device holds there. */
  datatype Store = Store(
    placed: seq<Status>,
    pages: seq<Page>,
    num: nat,     // page_number
    ofs: nat,     // page_offset
    buf: Page,    // the page in memory
    time: Time)

  predicate Sized(s: Store) {
    |s.placed| == |s.pages| && s.num <= |s.pages| && s.ofs <= DATA
  }

  function WritePage(crc: Crc, s: Store, time: Time): (Store, Status)
    requires Sized(s) && s.num < |s.pages|
  {
    var buf := Stamp(crc, s.buf, s.num, time);
    if s.placed[s.num] == Success then (s.(buf := buf, pages := s.pages[s.num := buf]), Success)
    else (s.(buf := buf), s.placed[s.num])
  }

  function ReadPage(crc: Crc, s: Store): (Store, Status)
    requires Sized(s) && s.num < |s.pages|
  {
    if s.placed[s.num] != Success then (s, s.placed[s.num])
    else (s.(buf := s.pages[s.num]), if Checks(crc, s.pages[s.num], s.num) then Success else EInval)
  }

  /**
   * A page that can be transferred is accepted exactly when it has the magic number, the checksum of its
   * own number, time, padding and data, and the number asked for; any other is refused.
   */
  lemma ReadAcceptsIff(crc: Crc, s: Store)
    requires Sized(s) && s.num < |s.pages|
    ensures var (s1, st) := ReadPage(crc, s);
            var p := s.pages[s.num];
            if s.placed[s.num] != Success then s1 == s && st == s.placed[s.num]
            else
              && s1 == s.(buf := p)
              && (st == Success <==> p.magic == MAGIC && p.crc == crc(p.number, p.time, p.padding, p.data)
                                     && p.number == s.num)
              && (st != Success ==> st == EInval)
  {
  }

  /** `memcpy` into the data of the page in memory. */
  function Filled(p: Page, ofs: nat, part: seq<byte>): Page
    requires ofs + |part| <= DATA
  {
    p.(data := p.data[..ofs] + part + p.data[ofs + |part|..])
  }

  function Blank(p: Page): Page {
    p.(data := seq(DATA, _ => 0))
  }

  /** A full page is written out. */
  function Flush(crc: Crc, s: Store): (Store, Status)
    requires Sized(s) && s.num < |s.pages|
  {
    var (s1, st) := WritePage(crc, s, s.time);
    if st == Success then (s1.(num := s.num + 1, ofs := 0), Success) else (s1, st)
  }

  /** One turn of the writing loop: where it ends, and with which status if it stops there. */
  function WriteTurn(crc: Crc, s: Store, src: seq<byte>): (r: (Store, Option<Status>))
    requires Sized(s) && s.num < |s.pages|
    ensures Sized(r.0) && |r.0.pages| == |s.pages|
    ensures r.1.None? ==> r.0.num < |s.pages| && Min(DATA - s.ofs, |src|) > 0
  {
    var n := Min(DATA - s.ofs, |src|);
    if n == 0 then (s, Some(EFault))
    else
      var s1 := s.(buf := Filled(s.buf, s.ofs, src[..n]), ofs := s.ofs + n);
      var (s2, st) := if s1.ofs == DATA then Flush(crc, s1) else (s1, Success);
      if st != Success then (s2, Some(st))
      else if s2.num == |s.pages| then (s2, Some(if n < |src| then ENoData else Success))
      else if n == |src| then (s2, Some(Success))
      else (s2, None)
  }

  /** `cbt_storage_write` from a position inside the storage. */
  function WriteOn(crc: Crc, s: Store, src: seq<byte>): (r: (Store, Status))
    requires Sized(s) && s.num < |s.pages|
    ensures Sized(r.0) && |r.0.pages| == |s.pages|
    decreases |src|
  {
    var (s1, stop) := WriteTurn(crc, s, src);
    if stop.Some? then (s1, stop.value) else WriteOn(crc, s1, src[Min(DATA - s.ofs, |src|)..])
  }

  /** A point of the writing loop: the accessor, and how much of the source it has taken. */
  datatype Point = Point(s: Store, done: nat)

  ghost predicate WriteTurns(crc: Crc, src: seq<byte>, p: Point, q: Point) {
    && Sized(p.s) && p.s.num < |p.s.pages| && p.done <= |src|
    && WriteTurn(crc, p.s, src[p.done..]) == (q.s, None) && q.done == p.done + Min(DATA - p.s.ofs, |src| - p.done)
  }

  ghost predicate WriteTrace(crc: Crc, src: seq<byte>, trace: seq<Point>)
    decreases |trace|
  {
    var n := |trace| - 1;
    n >= 0 && (n > 0 ==> WriteTurns(crc, src, trace[n - 1], trace[n]) && WriteTrace(crc, src, trace[..n]))
  }

  lemma {:induction false} WriteTraceSnoc(crc: Crc, src: seq<byte>, trace: seq<Point>, p: Point)
    requires WriteTrace(crc, src, trace) && WriteTurns(crc, src, trace[|trace| - 1], p)
    ensures WriteTrace(crc, src, trace + [p])
  {
  }

  lemma WriteOnTurns(crc: Crc, src: seq<byte>, p: Point, q: Point)
    requires WriteTurns(crc, src, p, q)
    ensures Sized(q.s) && q.s.num < |q.s.pages| && q.done <= |src|
    ensures WriteOn(crc, p.s, src[p.done..]) == WriteOn(crc, q.s, src[q.done..])
  {
    assert src[p.done..][q.done - p.done..] == src[q.done..];
  }

  /** All points of a trace have the same outcome ahead of them. */
  lemma {:induction false} TraceWrites(crc: Crc, src: seq<byte>, trace: seq<Point>)
    requires WriteTrace(crc, src, trace)
    requires var p := trace[|trace| - 1]; Sized(p.s) && p.s.num < |p.s.pages| && p.done <= |src|
    ensures var p, q := trace[0], trace[|trace| - 1];
            Sized(p.s) && p.s.num < |p.s.pages| && p.done <= |src|
            && WriteOn(crc, p.s, src[p.done..]) == WriteOn(crc, q.s, src[q.done..])
    decreases |trace|
  {
    var n := |trace| - 1;
    if n > 0 {
      WriteOnTurns(crc, src, trace[n - 1], trace[n]);
      var front := trace[..n];
      assert front[|front| - 1] == trace[n - 1] && WriteTrace(crc, src, front);
      TraceWrites(crc, src, front);
    }
  }

  /** A page is written exactly if it can be transferred, stamped and with the data in memory; the status tells. */
  lemma WritesIff(crc: Crc, s: Store, time: Time)
    requires Sized(s) && s.num < |s.pages|
    ensures var (s1, st) := WritePage(crc, s, time);
            && st == s.placed[s.num] && s1.placed == s.placed && s1.num == s.num && s1.ofs == s.ofs
            && (st != Success ==> s1.pages == s.pages)
            && (st == Success ==>
                  && s1.pages[s.num].data == s.buf.data && s1.pages[s.num].time == time
                  && (s.num < TWO32 ==> Checks(crc, s1.pages[s.num], s.num))
                  && forall k | 0 <= k < |s.pages| && k != s.num :: s1.pages[k] == s.pages[k])
  {
    if s.num < TWO32 {
      StampIsRead(crc, s.buf, s.num, time);
    }
  }

  /** All pages from `from` up to `to` could be transferred. */
  predicate Transferred(s: Store, from: nat, to: nat) {
    to <= |s.placed| && forall k | from <= k < to :: s.placed[k] == Success
  }

  /** What one turn has written out could be transferred; an error of a transfer stops at its page. */
  lemma TurnReports(crc: Crc, s: Store, src: seq<byte>)
    requires Sized(s) && s.num < |s.pages|
    ensures var (s1, stop) := WriteTurn(crc, s, src);
            && s1.placed == s.placed && s.num <= s1.num <= s.num + 1
            && (s1.num > s.num ==> s.placed[s.num] == Success)
            && (stop.Some? ==> stop.value in {Success, EFault, ENoData}
                               || (s1.num < |s.pages| && stop.value == s.placed[s1.num]))
  {
  }

  /** A write that reports success has written out every page it has filled. */
  lemma {:induction false} WriteReports(crc: Crc, s: Store, src: seq<byte>)
    requires Sized(s) && s.num < |s.pages|
    ensures var (s1, st) := WriteOn(crc, s, src);
            && s1.placed == s.placed && s.num <= s1.num && Transferred(s, s.num, s1.num)
            && (st in {Success, EFault, ENoData} || (s1.num < |s.pages| && st == s.placed[s1.num]))
    decreases |src|
  {
    TurnReports(crc, s, src);
    var (s1, stop) := WriteTurn(crc, s, src);
    if stop.None? {
      WriteReports(crc, s1, src[Min(DATA - s.ofs, |src|)..]);
    }
  }

  function Write(crc: Crc, s: Store, src: seq<byte>): (r: (Store, Status))
    requires Sized(s)
    ensures Sized(r.0) && |r.0.pages| == |s.pages|
  {
    if s.num == |s.pages| then (s, ENoData) else WriteOn(crc, s, src)
  }

  /** Empty pages up to the end, with a zero time mark. */
  function ClearRest(crc: Crc, s: Store): (r: (Store, Status))
    requires Sized(s)
    ensures Sized(r.0) && |r.0.pages| == |s.pages|
    decreases |s.pages| - s.num
  {
    if s.num == |s.pages| then (s, Success)
    else
      var (s1, st) := WritePage(crc, s, Time(0, 0));
      if st != Success then (s1, st) else ClearRest(crc, s1.(num := s.num + 1))
  }

  /** `cbt_storage_write_finish`. */
  function Finish(crc: Crc, s: Store): (r: (Store, Status))
    requires Sized(s)
    ensures Sized(r.0) && |r.0.pages| == |s.pages|
  {
    if s.num == |s.pages| then (s, Success)
    else
      var (s1, st) := Flush(crc, s);
      if st != Success then (s1, st)
      else ClearRest(crc, s1.(buf := Blank(s1.buf)))
  }

  lemma {:induction false} ClearRestReports(crc: Crc, s: Store)
    requires Sized(s)
    ensures ClearRest(crc, s).1 == Success <==> Transferred(s, s.num, |s.pages|)
    decreases |s.pages| - s.num
  {
    if s.num < |s.pages| {
      var s1 := WritePage(crc, s, Time(0, 0)).0;
      ClearRestReports(crc, s1.(num := s.num + 1));
    }
  }

  /** Finishing succeeds exactly when every page from the current one on can be transferred. */
  lemma FinishReports(crc: Crc, s: Store)
    requires Sized(s)
    ensures Finish(crc, s).1 == Success <==> Transferred(s, s.num, |s.pages|)
  {
    if s.num < |s.pages| {
      var s1 := Flush(crc, s).0;
      ClearRestReports(crc, s1.(buf := Blank(s1.buf)));
    }
  }

  /** The outcome of preparing: `NothingStored` is the positive ENODATA the source returns. */
  datatype Prepared = Ready | NothingStored | Failed(st: Status)

  /** `cbt_storage_prepare4read`: the mark of the first page is taken, then wiped. */
  function PrepareForRead(crc: Crc, s: Store): (Store, Prepared)
    requires Sized(s) && s.pages != []
  {
    var (s1, st) := ReadPage(crc, s.(num := 0, ofs := 0));
    if st != Success then (s1, Failed(st))
    else
      var s2 := s1.(time := s1.buf.time);
      if s2.time.sec == 0 then (s2, NothingStored)
      else
        var (s3, st3) := WritePage(crc, s2, Time(0, 0));
        (s3, if st3 == Success then Ready else Failed(st3))
  }

  /** `cbt_storage_prepare4write`. */
  function PrepareForWrite(crc: Crc, s: Store, now: Time): (Store, Status)
    requires Sized(s) && s.pages != []
  {
    var (s1, st) := ReadPage(crc, s.(num := 0, ofs := 0));
    if st != Success then (s1, st) else (s1.(time := now), Success)
  }

  /**
   * What preparing finds, by the page the storage begins with.  Only a good page with a time mark can be
   * read from, any good page can be written to, and a bad page is refused with EINVAL in both.
   */
  lemma PrepareFinds(crc: Crc, s: Store, now: Time)
    requires Sized(s) && s.pages != []
    ensures var p := s.pages[0];
            var good := p.magic == MAGIC && p.crc == crc(p.number, p.time, p.padding, p.data) && p.number == 0;
            var ((s1, ready), (s2, st)) := (PrepareForRead(crc, s), PrepareForWrite(crc, s, now));
            && (s.placed[0] != Success ==> ready == Failed(s.placed[0]) && st == s.placed[0])
            && (s.placed[0] == Success ==>
                  && (ready == Failed(EInval) <==> !good)
                  && (ready == NothingStored <==> good && p.time.sec == 0)
                  && (ready == Ready <==> good && p.time.sec != 0)
                  && st == (if good then Success else EInval))
            && (ready != Ready ==> s1.pages == s.pages) && s2.pages == s.pages
  {
  }

  /** `memcpy` of the next `n` bytes to the start of the buffer, whatever was read before. */
  function CopiedToStart(s: Store, dst: seq<byte>, n: nat): (r: seq<byte>)
    requires s.ofs + n <= DATA && n <= |dst|
    ensures |r| == |dst|
  {
    s.buf.data[s.ofs..s.ofs + n] + dst[n..]
  }

  function Advanced(s: Store, n: nat): Store {
    if s.ofs + n == DATA then s.(num := s.num + 1, ofs := 0) else s.(ofs := s.ofs + n)
  }

  /** One turn of the reading loop. */
  function ReadTurn(crc: Crc, s: Store, dst: seq<byte>, done: nat): (r: (Store, Option<Status>, seq<byte>))
    requires Sized(s) && s.num < |s.pages| && done <= |dst|
    ensures Sized(r.0) && |r.0.pages| == |s.pages| && |r.2| == |dst| && (r.1.None? ==> r.0.num < |s.pages|)
    ensures r.0.ofs < DATA
  {
    var n := Min(DATA - s.ofs, |dst| - done);
    var dst1 := CopiedToStart(s, dst, n);
    var s1 := Advanced(s, n);
    if s1.num == |s.pages| then (s1, Some(if done + n < |dst| then ENoData else Success), dst1)
    else
      var (s2, st) := ReadPage(crc, s1);
      (s2, if st != Success then Some(st) else if done + n == |dst| then Some(Success) else None, dst1)
  }

  /** A turn that does not stop has read something or stepped to the next page. */
  lemma ReadTurnAdvances(crc: Crc, s: Store, dst: seq<byte>, done: nat)
    requires Sized(s) && s.num < |s.pages| && done <= |dst|
    ensures var (s1, stop, dst1) := ReadTurn(crc, s, dst, done);
            && s1.num >= s.num
            && (stop.None? ==> Min(DATA - s.ofs, |dst| - done) > 0 || s1.num > s.num)
            && (stop.None? ==> done + Min(DATA - s.ofs, |dst| - done) < |dst|)
  {
  }

  /** `cbt_storage_read` from a position inside the storage; every portion goes to the start of `dst`. */
  function ReadOn(crc: Crc, s: Store, dst: seq<byte>, done: nat): (r: (Store, Status, seq<byte>))
    requires Sized(s) && s.num < |s.pages| && done <= |dst|
    ensures Sized(r.0) && |r.0.pages| == |s.pages| && |r.2| == |dst|
    decreases |dst| - done, |s.pages| - s.num
  {
    ReadTurnAdvances(crc, s, dst, done);
    var (s1, stop, dst1) := ReadTurn(crc, s, dst, done);
    if stop.Some? then (s1, stop.value, dst1) else ReadOn(crc, s1, dst1, done + Min(DATA - s.ofs, |dst| - done))
  }

  /** A point of the reading loop. */
  datatype ReadPoint = ReadPoint(s: Store, dst: seq<byte>, done: nat)

  ghost predicate CanTurn(p: ReadPoint) {
    Sized(p.s) && p.s.num < |p.s.pages| && p.done <= |p.dst|
  }

  ghost predicate ReadTurns(crc: Crc, p: ReadPoint, q: ReadPoint) {
    && CanTurn(p) && ReadTurn(crc, p.s, p.dst, p.done) == (q.s, None, q.dst)
    && q.done == p.done + Min(DATA - p.s.ofs, |p.dst| - p.done)
  }

  ghost predicate ReadTrace(crc: Crc, trace: seq<ReadPoint>)
    decreases |trace|
  {
    var n := |trace| - 1;
    n >= 0 && (n > 0 ==> ReadTurns(crc, trace[n - 1], trace[n]) && ReadTrace(crc, trace[..n]))
  }

  lemma {:induction false} ReadTraceSnoc(crc: Crc, trace: seq<ReadPoint>, p: ReadPoint)
    requires ReadTrace(crc, trace) && ReadTurns(crc, trace[|trace| - 1], p)
    ensures ReadTrace(crc, trace + [p])
  {
    assert (trace + [p])[..|trace|] == trace;
  }

  lemma ReadOnTurns(crc: Crc, p: ReadPoint, q: ReadPoint)
    requires ReadTurns(crc, p, q)
    ensures CanTurn(q) && ReadOn(crc, p.s, p.dst, p.done) == ReadOn(crc, q.s, q.dst, q.done)
  {
  }

  lemma {:induction false} TraceReads(crc: Crc, trace: seq<ReadPoint>)
    requires ReadTrace(crc, trace) && CanTurn(trace[|trace| - 1])
    ensures var p, q := trace[0], trace[|trace| - 1];
            CanTurn(p) && ReadOn(crc, p.s, p.dst, p.done) == ReadOn(crc, q.s, q.dst, q.done)
    decreases |trace|
  {
    var n := |trace| - 1;
    if n > 0 {
      ReadOnTurns(crc, trace[n - 1], trace[n]);
      var front := trace[..n];
      assert front[|front| - 1] == trace[n - 1] && ReadTrace(crc, front);
      TraceReads(crc, front);
    }
  }

  function Read(crc: Crc, s: Store, dst: seq<byte>): (r: (Store, Status, seq<byte>))
    requires Sized(s)
    ensures Sized(r.0) && |r.0.pages| == |s.pages| && |r.2| == |dst|
  {
    if s.num == |s.pages| then (s, ENoData, dst) else ReadOn(crc, s, dst, 0)
  }

  // ---- writing a stream ----

  function DataByte(page: Page, j: nat): byte {
    if j < DATA then page.data[j] else 0
  }

  /** Byte `i` of the stream written so far. */
  function ByteAt(s: Store, i: nat): byte
    requires Sized(s)
  {
    if i / DATA < s.num then DataByte(s.pages[i / DATA], i % DATA) else DataByte(s.buf, i - s.num * DATA)
  }

  ghost predicate Marked(crc: Crc, page: Page, number: nat, time: Time) {
    Checks(crc, page, number) && page.time == time
  }

  ghost predicate AllPlaced(s: Store) {
    |s.placed| == |s.pages| <= TWO32 && forall k | 0 <= k < |s.placed| :: s.placed[k] == Success
  }

  /** The accessor stands behind `stream`: full pages are written and stamped, the rest is in memory. */
  ghost predicate Holds(crc: Crc, s: Store, stream: seq<byte>) {
    && Sized(s) && AllPlaced(s) && s.ofs < DATA && (s.num == |s.pages| ==> s.ofs == 0)
    && |stream| == s.num * DATA + s.ofs
    && (forall i | 0 <= i < |stream| :: ByteAt(s, i) == stream[i])
    && (forall k | 0 <= k < s.num :: Marked(crc, s.pages[k], k, s.time))
  }

  lemma FillAppends(crc: Crc, s: Store, stream: seq<byte>, part: seq<byte>)
    requires Holds(crc, s, stream) && s.num < |s.pages| && 0 < |part| <= DATA - s.ofs
    ensures var s1 := s.(buf := Filled(s.buf, s.ofs, part), ofs := s.ofs + |part|);
            forall i | 0 <= i < |stream + part| :: ByteAt(s1, i) == (stream + part)[i]
  {
  }

  /** Writing out a full page keeps every byte and stamps the page. */
  lemma FlushKeeps(crc: Crc, s: Store, stream: seq<byte>)
    requires Sized(s) && AllPlaced(s) && s.num < |s.pages| && s.ofs <= DATA && |stream| <= s.num * DATA + DATA
    requires forall i | 0 <= i < |stream| :: ByteAt(s, i) == stream[i]
    requires forall k | 0 <= k < s.num :: Marked(crc, s.pages[k], k, s.time)
    ensures var (s1, st) := Flush(crc, s);
            && st == Success && Sized(s1) && AllPlaced(s1) && s1.time == s.time && |s1.pages| == |s.pages|
            && s1.num == s.num + 1 && s1.ofs == 0
            && (forall i | 0 <= i < |stream| :: ByteAt(s1, i) == stream[i])
            && (forall k | 0 <= k < s1.num :: Marked(crc, s1.pages[k], k, s.time))
  {
  }

  /** A write that fits appends its bytes to the stream. */
  lemma {:induction false} WriteAppends(crc: Crc, s: Store, stream: seq<byte>, src: seq<byte>)
    requires Holds(crc, s, stream) && src != [] && |stream| + |src| <= |s.pages| * DATA
    ensures var (s1, st) := Write(crc, s, src);
            st == Success && Holds(crc, s1, stream + src) && |s1.pages| == |s.pages| && s1.time == s.time
    decreases |src|
  {
    var n := Min(DATA - s.ofs, |src|);
    var s1 := s.(buf := Filled(s.buf, s.ofs, src[..n]), ofs := s.ofs + n);
    FillAppends(crc, s, stream, src[..n]);
    var s2 := s1;
    if s1.ofs == DATA {
      FlushKeeps(crc, s1, stream + src[..n]);
      s2 := Flush(crc, s1).0;
    }
    assert Holds(crc, s2, stream + src[..n]);
    if n == |src| {
      assert src[..n] == src;
    } else {
      AppendAssociates(stream, src[..n], src[n..]);
      assert src[..n] + src[n..] == src;
      WriteAppends(crc, s2, stream + src[..n], src[n..]);
    }
  }

  ghost predicate Empty(crc: Crc, page: Page, number: nat) {
    Marked(crc, page, number, Time(0, 0)) && forall j | 0 <= j < DATA :: DataByte(page, j) == 0
  }

  lemma {:induction false} ClearRestClears(crc: Crc, s: Store)
    requires Sized(s) && AllPlaced(s) && forall j | 0 <= j < DATA :: DataByte(s.buf, j) == 0
    ensures var (s1, st) := ClearRest(crc, s);
            && st == Success && |s1.pages| == |s.pages| && s1.placed == s.placed
            && (forall k | 0 <= k < s.num :: s1.pages[k] == s.pages[k])
            && (forall k | s.num <= k < |s.pages| :: Empty(crc, s1.pages[k], k))
    decreases |s.pages| - s.num
  {
    if s.num < |s.pages| {
      StampIsRead(crc, s.buf, s.num, Time(0, 0));
      var s1 := WritePage(crc, s, Time(0, 0)).0;
      forall j | 0 <= j < DATA
        ensures DataByte(s1.buf, j) == 0
      {
        assert DataByte(s.buf, j) == 0;
      }
      ClearRestClears(crc, s1.(num := s.num + 1));
      assert s1.pages[s.num] == ClearRest(crc, s1.(num := s.num + 1)).0.pages[s.num];
    }
  }

  /** The storage holds a finished stream in its first `used` pages and nothing behind them. */
  ghost predicate Stored(crc: Crc, pages: seq<Page>, stream: seq<byte>, used: nat, time: Time) {
    && used <= |pages| <= TWO32 && (used - 1) * DATA <= |stream| <= used * DATA
    && (forall i | 0 <= i < |stream| :: DataByte(pages[i / DATA], i % DATA) == stream[i])
    && (forall k | 0 <= k < used :: Marked(crc, pages[k], k, time))
    && (forall k | used <= k < |pages| :: Empty(crc, pages[k], k))
  }

  /** Finishing writes the last page and empties the ones behind it. */
  lemma FinishStores(crc: Crc, s: Store, stream: seq<byte>)
    requires Holds(crc, s, stream)
    ensures var (s1, st) := Finish(crc, s);
            && st == Success && s1.placed == s.placed && |s1.pages| == |s.pages|
            && Stored(crc, s1.pages, stream, if s.num == |s.pages| then s.num else s.num + 1, s.time)
  {
    if s.num < |s.pages| {
      FlushKeeps(crc, s, stream);
      var s1 := Flush(crc, s).0;
      var s2 := s1.(buf := Blank(s1.buf));
      ClearRestClears(crc, s2);
      FinishBytes(crc, s1, stream, ClearRest(crc, s2).0.pages);
    } else {
      FinishBytes(crc, s, stream, s.pages);
    }
  }

  lemma FinishBytes(crc: Crc, s: Store, stream: seq<byte>, pages: seq<Page>)
    requires Sized(s) && |pages| == |s.pages| <= TWO32 && s.num * DATA - DATA <= |stream| <= s.num * DATA
    requires forall k | 0 <= k < s.num :: pages[k] == s.pages[k] && Marked(crc, s.pages[k], k, s.time)
    requires forall k | s.num <= k < |pages| :: Empty(crc, pages[k], k)
    requires forall i | 0 <= i < |stream| :: ByteAt(s, i) == stream[i]
    ensures Stored(crc, pages, stream, s.num, s.time)
  {
  }

  /** A non-empty write succeeds exactly when it fits. */
  lemma {:induction false} WriteFitsIff(crc: Crc, s: Store, stream: seq<byte>, src: seq<byte>)
    requires Holds(crc, s, stream) && src != []
    ensures var st := Write(crc, s, src).1;
            (st == Success <==> |stream| + |src| <= |s.pages| * DATA) && (st != Success ==> st == ENoData)
    decreases |src|
  {
    if s.num < |s.pages| {
      var n := Min(DATA - s.ofs, |src|);
      var s1 := s.(buf := Filled(s.buf, s.ofs, src[..n]), ofs := s.ofs + n);
      FillAppends(crc, s, stream, src[..n]);
      var s2 := s1;
      if s1.ofs == DATA {
        FlushKeeps(crc, s1, stream + src[..n]);
        s2 := Flush(crc, s1).0;
      }
      if n < |src| {
        WriteFitsIff(crc, s2, stream + src[..n], src[n..]);
      }
    }
  }

  // ---- reading it back ----

  /** The data areas hold `all`; the accessor stands in it with its page in memory. */
  ghost predicate Reads(crc: Crc, s: Store, all: seq<byte>) {
    && Sized(s) && AllPlaced(s) && s.ofs < DATA && (s.num == |s.pages| ==> s.ofs == 0)
    && (forall k | 0 <= k < |s.pages| :: Checks(crc, s.pages[k], k))
    && |all| == |s.pages| * DATA && (forall i | 0 <= i < |all| :: DataByte(s.pages[i / DATA], i % DATA) == all[i])
    && (s.num < |s.pages| ==> s.buf.data == s.pages[s.num].data)
  }

  function Position(s: Store): nat {
    s.num * DATA + s.ofs
  }

  lemma PageInMemory(crc: Crc, s: Store, all: seq<byte>, n: nat)
    requires Reads(crc, s, all) && s.num < |s.pages| && s.ofs + n <= DATA
    ensures Position(s) + n <= |all| && s.buf.data[s.ofs..s.ofs + n] == all[Position(s)..Position(s) + n]
  {
  }

  /** One portion: the position moves on, and the page in memory is the one at the position. */
  lemma PortionRead(crc: Crc, s: Store, all: seq<byte>, n: nat)
    requires Reads(crc, s, all) && s.num < |s.pages| && s.ofs + n <= DATA
    ensures var s1 := Advanced(s, n);
            && Position(s1) == Position(s) + n
            && (s1.num == |s.pages| ==> Reads(crc, s1, all))
            && (s1.num < |s.pages| ==> var (s2, st) := ReadPage(crc, s1);
                                       && st == Success && Reads(crc, s2, all)
                                       && Position(s2) == Position(s1) && s2.pages == s.pages)
  {
  }

  /** A read that stays inside one page returns the next bytes. */
  lemma ReadInsidePage(crc: Crc, s: Store, all: seq<byte>, dst: seq<byte>)
    requires Reads(crc, s, all) && s.num < |s.pages| && |dst| <= DATA - s.ofs
    ensures var (s1, st, got) := Read(crc, s, dst);
            && st == Success && Position(s) + |dst| <= |all| && got == all[Position(s)..Position(s) + |dst|]
            && Reads(crc, s1, all) && Position(s1) == Position(s) + |dst| && s1.pages == s.pages
  {
    PageInMemory(crc, s, all, |dst|);
    PortionRead(crc, s, all, |dst|);
  }

  lemma TurnFits(crc: Crc, s: Store, all: seq<byte>, dst: seq<byte>, done: nat)
    requires Reads(crc, s, all) && s.num < |s.pages| && done <= |dst|
    ensures var (s1, stop, dst1) := ReadTurn(crc, s, dst, done);
            var n := Min(DATA - s.ofs, |dst| - done);
            && (stop.Some? ==>
                  stop.value == if Position(s) + (|dst| - done) <= |all| then Success else ENoData)
            && (stop.None? ==> Reads(crc, s1, all) && s1.num < |s1.pages| && Position(s1) == Position(s) + n)
  {
    PortionRead(crc, s, all, Min(DATA - s.ofs, |dst| - done));
  }

  lemma {:induction false} ReadOnFits(crc: Crc, s: Store, all: seq<byte>, dst: seq<byte>, done: nat)
    requires Reads(crc, s, all) && s.num < |s.pages| && done <= |dst|
    ensures ReadOn(crc, s, dst, done).1 == if Position(s) + (|dst| - done) <= |all| then Success else ENoData
    decreases |dst| - done, |s.pages| - s.num
  {
    TurnFits(crc, s, all, dst, done);
    ReadTurnAdvances(crc, s, dst, done);
    var (s1, stop, dst1) := ReadTurn(crc, s, dst, done);
    if stop.None? {
      ReadOnFits(crc, s1, all, dst1, done + Min(DATA - s.ofs, |dst| - done));
    }
  }

  /** A read succeeds exactly when that much is left to read, across any pages; else it fails with ENODATA. */
  lemma ReadFitsIff(crc: Crc, s: Store, all: seq<byte>, dst: seq<byte>)
    requires Reads(crc, s, all) && dst != []
    ensures Read(crc, s, dst).1 == if Position(s) + |dst| <= |all| then Success else ENoData
  {
    if s.num < |s.pages| {
      ReadOnFits(crc, s, all, dst, 0);
    }
  }

  lemma TurnKeepsEnd(crc: Crc, s: Store, dst: seq<byte>, done: nat)
    requires Sized(s) && s.num < |s.pages| && done <= |dst| && Min(DATA - s.ofs, |dst| - done) < |dst|
    ensures var dst1 := ReadTurn(crc, s, dst, done).2; dst1[|dst| - 1] == dst[|dst| - 1]
  {
  }

  /** A read of several portions never writes the last byte of its buffer. */
  lemma {:induction false} LastByteUntouched(crc: Crc, s: Store, dst: seq<byte>, done: nat)
    requires Sized(s) && s.num < |s.pages| && s.ofs < DATA && done < |dst| && (done > 0 || DATA - s.ofs < |dst|)
    ensures ReadOn(crc, s, dst, done).2[|dst| - 1] == dst[|dst| - 1]
    decreases |dst| - done, |s.pages| - s.num
  {
    TurnKeepsEnd(crc, s, dst, done);
    ReadTurnAdvances(crc, s, dst, done);
    var (s1, stop, dst1) := ReadTurn(crc, s, dst, done);
    if stop.None? {
      LastByteUntouched(crc, s1, dst1, done + Min(DATA - s.ofs, |dst| - done));
    }
  }

  ghost predicate ReadsRight(crc: Crc, s: Store, dst: seq<byte>, want: seq<byte>)
    requires Sized(s)
  {
    Read(crc, s, dst).2 == want
  }

  /** A read is right whatever its buffer held before exactly when it stays inside one page. */
  lemma ReadRightIff(crc: Crc, s: Store, all: seq<byte>, size: nat)
    requires Reads(crc, s, all) && size > 0 && Position(s) + size <= |all|
    ensures var want := all[Position(s)..Position(s) + size];
            (forall dst: seq<byte> | |dst| == size :: ReadsRight(crc, s, dst, want)) <==> size <= DATA - s.ofs
  {
    var want := all[Position(s)..Position(s) + size];
    if size <= DATA - s.ofs {
      forall dst: seq<byte> | |dst| == size
        ensures ReadsRight(crc, s, dst, want)
      {
        ReadInsidePage(crc, s, all, dst);
      }
    } else {
      CrossingReadFails(crc, s, want);
    }
  }

  lemma CrossingIsWrong(crc: Crc, s: Store, dst: seq<byte>, want: seq<byte>)
    requires Sized(s) && s.num < |s.pages| && s.ofs < DATA && DATA - s.ofs < |dst|
    requires |want| == |dst| && dst[|dst| - 1] != want[|dst| - 1]
    ensures !ReadsRight(crc, s, dst, want)
  {
    LastByteUntouched(crc, s, dst, 0);
  }

  /** A buffer whose last byte differs from the expected one keeps it. */
  lemma CrossingReadFails(crc: Crc, s: Store, want: seq<byte>)
    requires Sized(s) && s.num < |s.pages| && s.ofs < DATA && DATA - s.ofs < |want|
    ensures exists dst: seq<byte> :: |dst| == |want| && !ReadsRight(crc, s, dst, want)
  {
    var wrong: byte := if want[|want| - 1] == 0 then 1 else 0;
    var dst := want[|want| - 1 := wrong];
    CrossingIsWrong(crc, s, dst, want);
  }
}
