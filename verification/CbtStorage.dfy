/**
 * The accessor of the persistent map (`cbt_storage.c`): one page in memory, written to and read
 * from the places a range vector gives.  Each method computes the function of `CbtStream` named in
 * its contract.  The device may fail to transfer the pages at some of its places.
 */
module CbtStorage {
  import opened Basics
  import opened Ranges
  import opened RangeLists
  import opened RangeVectors
  import opened S = CbtStream

  const SECTOR: nat := 512
  const PAGE_SECTORS: nat := 8 // sector_from_uint(PAGE_SIZE)

  /** A block device that cannot transfer a page at a `bad` place. */
  class Device {
    var data: seq<byte>
    const bad: set<nat>

    constructor (data: seq<byte>, bad: set<nat>)
      ensures this.data == data && this.bad == bad
    {
      this.data, this.bad := data, bad;
    }
  }

  /** Where page `k` begins on the device, or why it cannot be found. */
  function PagePlace(chunks: Chunks, k: nat): (Status, nat) {
    match V2P(chunks, k * PAGE_SECTORS, PAGE_SECTORS)
    case None => (ENoData, 0)
    case Some(p) => if p.length != PAGE_SECTORS then (EInval, 0) else (Success, p.ofs * SECTOR)
  }

  ghost predicate Placed(chunks: Chunks, k: nat) {
    PagePlace(chunks, k).0 == Success
  }

  predicate Apart(a: nat, b: nat) {
    a + PAGE_SIZE <= b || b + PAGE_SIZE <= a
  }

  /** Pages that can be found lie on the device and do not overlap. */
  ghost predicate Separate(chunks: Chunks, count: nat, size: nat) {
    && (forall k: nat | k < count && Placed(chunks, k) :: PagePlace(chunks, k).1 + PAGE_SIZE <= size)
    && (forall j: nat, k: nat | j < k < count && Placed(chunks, j) && Placed(chunks, k) ::
          Apart(PagePlace(chunks, j).1, PagePlace(chunks, k).1))
  }

  ghost function PageAt(data: seq<byte>, place: (Status, nat)): Page {
    if place.0 == Success && place.1 + PAGE_SIZE <= |data| then Decode(data[place.1..place.1 + PAGE_SIZE]) else NoPage()
  }

  function NoPage(): Page {
    Page(0, 0, 0, Time(0, 0), 0, seq(DATA, _ => 0))
  }

  /** What a transfer of page `k` returns: the lookup may fail, and then the device. */
  function Transfer(chunks: Chunks, bad: set<nat>, k: nat): Status {
    var (st, place) := PagePlace(chunks, k);
    if st == Success && place in bad then EIO else st
  }

  ghost function TransferAll(chunks: Chunks, bad: set<nat>, count: nat): (r: seq<Status>)
    ensures |r| == count
  {
    seq(count, k requires 0 <= k < count => Transfer(chunks, bad, k))
  }

  ghost function PagesAt(data: seq<byte>, chunks: Chunks, count: nat): (r: seq<Page>)
    ensures |r| == count
  {
    seq<Page>(count, k requires 0 <= k < count => PageAt(data, PagePlace(chunks, k)))
  }

  function Overwritten(data: seq<byte>, place: nat, bytes: seq<byte>): (r: seq<byte>)
    requires place + |bytes| <= |data|
    ensures |r| == |data|
  {
    data[..place] + bytes + data[place + |bytes|..]
  }

  /** Writing one page changes no other. */
  lemma PageWritten(data: seq<byte>, chunks: Chunks, count: nat, k: nat, p: Page)
    requires Separate(chunks, count, |data|) && k < count && Placed(chunks, k)
    ensures var place := PagePlace(chunks, k).1;
            place + PAGE_SIZE <= |data|
            && PagesAt(Overwritten(data, place, Encode(p)), chunks, count) == PagesAt(data, chunks, count)[k := p]
  {
    var place := PagePlace(chunks, k).1;
    var data1 := Overwritten(data, place, Encode(p));
    forall j | 0 <= j < count
      ensures PagesAt(data1, chunks, count)[j] == if j == k then p else PagesAt(data, chunks, count)[j]
    {
      if j == k {
        ReadsWritten(data, place, Encode(p));
        PageRoundTrip(p);
      } else if Placed(chunks, j) {
        Untouched(data, place, Encode(p), PagePlace(chunks, j).1);
      }
    }
  }

  lemma ReadsWritten(data: seq<byte>, place: nat, bytes: seq<byte>)
    requires place + |bytes| <= |data|
    ensures Overwritten(data, place, bytes)[place..place + |bytes|] == bytes
  {
  }

  lemma Untouched(data: seq<byte>, place: nat, bytes: seq<byte>, other: nat)
    requires |bytes| == PAGE_SIZE && place + PAGE_SIZE <= |data| && other + PAGE_SIZE <= |data|
    requires place + PAGE_SIZE <= other || other + PAGE_SIZE <= place
    ensures Overwritten(data, place, bytes)[other..other + PAGE_SIZE] == data[other..other + PAGE_SIZE]
  {
  }

  /** `cbt_storage_accessor_t`, with the header and the data area of its page in memory. */
  class Accessor {
    const device: Device
    const ranges: Vector
    ghost const chunks: Chunks
    const crc: Crc
    var header: Page         // its data field is not used
    const area: array<byte>
    const pageCount: nat
    var pageNumber: nat
    var pageOffset: nat
    var time: Time

    ghost predicate Valid()
      reads this, device, ranges, ranges.els, ranges.Arrays()
    {
      && area.Length == DATA && ranges.Valid() && ranges.Chunks() == chunks
      && pageNumber <= pageCount && pageOffset <= DATA
      && Separate(chunks, pageCount, |device.data|)
    }

    function InMemory(): Page
      requires area.Length == DATA
      reads this, area
    {
      Page(header.magic, header.crc, header.number, header.time, header.padding, area[..])
    }

    ghost function State(): (s: Store)
      requires area.Length == DATA && pageNumber <= pageCount && pageOffset <= DATA
      reads this, device, area
      ensures Sized(s)
    {
      Store(TransferAll(chunks, device.bad, pageCount), PagesAt(device.data, chunks, pageCount),
            pageNumber, pageOffset, InMemory(), time)
    }

    /** `cbt_storage_open`: the number of whole pages the ranges hold. */
    constructor (device: Device, ranges: Vector, crc: Crc)
      requires ranges.Valid() && Separate(ranges.Chunks(), Total(ranges.Flat()) / PAGE_SECTORS, |device.data|)
      ensures Valid() && fresh(area) && this.device == device && this.ranges == ranges && this.crc == crc
      ensures pageCount == Total(ranges.Flat()) / PAGE_SECTORS && chunks == ranges.Chunks()
    {
      ghost var placing := ranges.Chunks();
      assert Separate(placing, Total(ranges.Flat()) / PAGE_SECTORS, |device.data|);
      var length := ranges.Length();
      assert ranges.Chunks() == placing;
      this.device, this.ranges, this.crc := device, ranges, crc;
      chunks := placing;
      header := NoPage();
      area := new byte[DATA];
      pageCount := length / PAGE_SECTORS;
      pageNumber, pageOffset, time := 0, HEADER, Time(0, 0);
    }

    /** Look the page up and submit it; `place` is where its data are moved. */
    method SubmitPage() returns (st: Status, place: nat)
      requires Valid() && pageNumber < pageCount
      ensures st == Transfer(chunks, device.bad, pageNumber)
      ensures st == Success ==> PagePlace(chunks, pageNumber) == (Success, place)
    {
      var phys := ranges.VirtToPhys(pageNumber * PAGE_SECTORS, PAGE_SECTORS);
      assert ranges.Chunks() == chunks;
      if phys.None? { return ENoData, 0; }
      if phys.value.length != PAGE_SECTORS { return EInval, 0; }
      place := phys.value.ofs * SECTOR;
      st := if place in device.bad then EIO else Success;
    }

    method SetArea(data: seq<byte>)
      requires area.Length == DATA == |data|
      modifies area
      ensures area[..] == data
    {
      forall i | 0 <= i < DATA {
        area[i] := data[i];
      }
    }

    /** `_cbt_storage_read_page`. */
    method ReadPage() returns (st: Status)
      requires Valid() && pageNumber < pageCount
      modifies `header, area
      ensures Valid() && (State(), st) == S.ReadPage(crc, old(State()))
      ensures var (found, place) := PagePlace(chunks, pageNumber);
              if found != Success then st == found
              else if place in device.bad then st == EIO
              else
                && place + PAGE_SIZE <= |device.data|
                && var p := Decode(device.data[place..place + PAGE_SIZE]);
                   InMemory() == p
                   && st == if p.magic == MAGIC && p.crc == crc(p.number, p.time, p.padding, p.data)
                               && p.number == pageNumber then Success else EInval
    {
      var place;
      st, place := SubmitPage();
      if st != Success { return; }
      assert Placed(chunks, pageNumber);
      var p := Decode(device.data[place..place + PAGE_SIZE]);
      header := p;
      SetArea(p.data);
      if p.magic != MAGIC || p.crc != crc(p.number, p.time, p.padding, p.data) || p.number != pageNumber {
        st := EInval;
      }
    }

    /** `_cbt_storage_write_page`. */
    method WritePage(mark: Time) returns (st: Status)
      requires Valid() && pageNumber < pageCount
      modifies `header, device
      ensures Valid() && (State(), st) == S.WritePage(crc, old(State()), mark)
      ensures st == Transfer(chunks, device.bad, pageNumber) && (st != Success ==> device.data == old(device.data))
    {
      var number := pageNumber % TWO32;
      header := Page(MAGIC, crc(number, mark, header.padding, area[..]), number, mark, header.padding, header.data);
      var place;
      st, place := SubmitPage();
      if st != Success { return; }
      assert Placed(chunks, pageNumber);
      PageWritten(device.data, chunks, pageCount, pageNumber, InMemory());
      device.data := Overwritten(device.data, place, Encode(InMemory()));
    }

    /** Go to the first page. */
    method Rewind()
      requires Valid()
      modifies `pageNumber, `pageOffset
      ensures Valid() && State() == old(State()).(num := 0, ofs := 0)
    {
      pageNumber, pageOffset := 0, 0;
    }

    /** `cbt_storage_prepare4read`. */
    method PrepareForRead() returns (ready: Prepared)
      requires Valid() && pageCount > 0
      modifies this, area, device
      ensures Valid() && (State(), ready) == S.PrepareForRead(crc, old(State()))
    {
      Rewind();
      var st := ReadPage();
      if st != Success { return Failed(st); }
      time := header.time;
      if time.sec == 0 { return NothingStored; }
      st := WritePage(Time(0, 0));
      ready := if st == Success then Ready else Failed(st);
    }

    /** `cbt_storage_prepare4write`; `now` is the current time. */
    method PrepareForWrite(now: Time) returns (st: Status)
      requires Valid() && pageCount > 0
      modifies this, area
      ensures Valid() && (State(), st) == S.PrepareForWrite(crc, old(State()), now)
    {
      Rewind();
      st := ReadPage();
      if st == Success {
        time := now;
      }
    }

    /** Copy part of `src` behind what the page in memory holds. */
    method Fill(src: seq<byte>, ofs: nat, n: nat)
      requires Valid() && ofs + n <= |src| && n <= DATA - pageOffset
      modifies this, area
      ensures Valid()
      ensures State() == var s := old(State()); s.(buf := Filled(s.buf, s.ofs, src[ofs..ofs + n]), ofs := s.ofs + n)
    {
      var at := pageOffset;
      ghost var was := InMemory();
      forall i | at <= i < at + n {
        area[i] := src[ofs + (i - at)];
      }
      assert area[..] == was.data[..at] + src[ofs..ofs + n] + was.data[at + n..];
      pageOffset := pageOffset + n;
    }

    method Flush() returns (st: Status)
      requires Valid() && pageNumber < pageCount
      modifies this, area, device
      ensures Valid() && (State(), st) == S.Flush(crc, old(State()))
    {
      st := WritePage(time);
      if st == Success {
        pageNumber, pageOffset := pageNumber + 1, 0;
      }
    }

    /** One turn of `cbt_storage_write`: copy a portion, and write the page out once it is full. */
    method WritePortion(src: seq<byte>, ofs: nat) returns (stop: Option<Status>, n: nat)
      requires Valid() && pageNumber < pageCount && ofs <= |src|
      modifies this, area, device
      ensures Valid() && (State(), stop) == WriteTurn(crc, old(State()), src[ofs..])
      ensures n == Min(DATA - old(pageOffset), |src| - ofs)
    {
      n := Min(DATA - pageOffset, |src| - ofs);
      if n == 0 { return Some(EFault), n; }
      Fill(src, ofs, n);
      assert src[ofs..][..n] == src[ofs..ofs + n];
      if pageOffset == DATA {
        var st := Flush();
        if st != Success { return Some(st), n; }
      }
      stop := if pageNumber == pageCount then Some(if ofs + n < |src| then ENoData else Success)
              else if ofs + n == |src| then Some(Success) else None;
    }

    /** The loop of `cbt_storage_write`. */
    method WriteLoop(src: seq<byte>) returns (st: Status, ghost trace: seq<Point>)
      requires Valid() && pageNumber < pageCount
      modifies this, area, device
      ensures Valid() && trace != [] && trace[0] == Point(old(State()), 0) && WriteTrace(crc, src, trace)
      ensures var p := trace[|trace| - 1];
              Sized(p.s) && p.s.num < |p.s.pages| && p.done <= |src|
              && WriteTurn(crc, p.s, src[p.done..]) == (State(), Some(st))
    {
      var ofs := 0;
      trace := [Point(State(), 0)];
      while true
        invariant ofs <= |src| && Valid() && pageNumber < pageCount
        invariant trace != [] && trace[0] == Point(old(State()), 0) && trace[|trace| - 1] == Point(State(), ofs)
        invariant WriteTrace(crc, src, trace)
        decreases |src| - ofs
      {
        var stop, n := WritePortion(src, ofs);
        if stop.Some? { return stop.value, trace; }
        ofs := ofs + n;
        WriteTraceSnoc(crc, src, trace, Point(State(), ofs));
        trace := trace + [Point(State(), ofs)];
      }
    }

    /** `cbt_storage_write`. */
    method Write(src: seq<byte>) returns (st: Status)
      requires Valid()
      modifies this, area, device
      ensures Valid() && (State(), st) == S.Write(crc, old(State()), src)
    {
      if pageNumber == pageCount { return ENoData; }
      ghost var trace;
      st, trace := WriteLoop(src);
      TraceWrites(crc, src, trace);
      assert src[0..] == src;
    }

    /** One empty page. */
    method ClearPage() returns (st: Status)
      requires Valid() && pageNumber < pageCount
      modifies this, device
      ensures Valid()
      ensures var (s1, st1) := S.WritePage(crc, old(State()), Time(0, 0));
              st == st1 && State() == if st == Success then s1.(num := s1.num + 1) else s1
    {
      st := WritePage(Time(0, 0));
      if st == Success {
        pageNumber := pageNumber + 1;
      }
    }

    /** Empty pages up to the end of the storage. */
    method ClearRest() returns (st: Status)
      requires Valid()
      modifies this, area, device
      ensures Valid() && (State(), st) == S.ClearRest(crc, old(State()))
    {
      st := Success;
      ghost var s := State();
      ghost var want := S.ClearRest(crc, s);
      while pageNumber < pageCount
        invariant Valid() && st == Success && State() == s && S.ClearRest(crc, s) == want
        decreases pageCount - pageNumber
      {
        st := ClearPage();
        if st != Success { return; }
        s := State();
      }
    }

    /** `cbt_storage_write_finish`. */
    method Finish() returns (st: Status)
      requires Valid()
      modifies this, area, device
      ensures Valid() && (State(), st) == S.Finish(crc, old(State()))
    {
      if pageNumber == pageCount { return Success; }
      st := Flush();
      if st != Success { return; }
      SetArea(seq(DATA, _ => 0));
      st := ClearRest();
    }

    /** One turn of `cbt_storage_read`: copy a portion, then read the page at the new position. */
    method ReadPortion(dst: array<byte>, ofs: nat) returns (stop: Option<Status>, n: nat)
      requires Valid() && pageNumber < pageCount && ofs <= dst.Length && dst != area
      modifies this, area, dst
      ensures Valid() && (State(), stop, dst[..]) == ReadTurn(crc, old(State()), old(dst[..]), ofs)
      ensures n == Min(DATA - old(pageOffset), dst.Length - ofs)
    {
      n := Min(DATA - pageOffset, dst.Length - ofs);
      Take(dst, n);
      if pageNumber == pageCount { return Some(if ofs + n < dst.Length then ENoData else Success), n; }
      var st := ReadPage();
      stop := if st != Success then Some(st) else if ofs + n == dst.Length then Some(Success) else None;
    }

    /** The loop of `cbt_storage_read`. */
    method ReadLoop(dst: array<byte>) returns (st: Status, ghost trace: seq<ReadPoint>)
      requires Valid() && pageNumber < pageCount && dst != area
      modifies this, area, dst
      ensures Valid() && trace != [] && trace[0] == ReadPoint(old(State()), old(dst[..]), 0) && ReadTrace(crc, trace)
      ensures var p := trace[|trace| - 1];
              CanTurn(p) && ReadTurn(crc, p.s, p.dst, p.done) == (State(), Some(st), dst[..])
    {
      var ofs := 0;
      trace := [ReadPoint(State(), dst[..], 0)];
      while true
        invariant ofs <= dst.Length && Valid() && pageNumber < pageCount
        invariant trace != [] && trace[0] == ReadPoint(old(State()), old(dst[..]), 0)
        invariant trace[|trace| - 1] == ReadPoint(State(), dst[..], ofs) && ReadTrace(crc, trace)
        decreases dst.Length - ofs, pageCount - pageNumber
      {
        ReadTurnAdvances(crc, State(), dst[..], ofs);
        var stop, n := ReadPortion(dst, ofs);
        if stop.Some? { return stop.value, trace; }
        ofs := ofs + n;
        ReadTraceSnoc(crc, trace, ReadPoint(State(), dst[..], ofs));
        trace := trace + [ReadPoint(State(), dst[..], ofs)];
      }
    }

    /** `cbt_storage_read`: fills all of `dst`. */
    method Read(dst: array<byte>) returns (st: Status)
      requires Valid() && dst != area
      modifies this, area, dst
      ensures Valid() && (State(), st, dst[..]) == S.Read(crc, old(State()), old(dst[..]))
    {
      if pageNumber == pageCount { return ENoData; }
      ghost var trace;
      st, trace := ReadLoop(dst);
      TraceReads(crc, trace);
    }

    /** Copy the next bytes to the start of `dst`, and step to the next page behind the last byte. */
    method Take(dst: array<byte>, n: nat)
      requires Valid() && pageNumber < pageCount && n <= DATA - pageOffset && n <= dst.Length && dst != area
      modifies this, dst
      ensures Valid() && State() == Advanced(old(State()), n) && dst[..] == CopiedToStart(old(State()), old(dst[..]), n)
    {
      var start := pageOffset;
      ghost var was := dst[..];
      forall i | 0 <= i < n {
        dst[i] := area[start + i];
      }
      assert dst[..] == area[..][start..start + n] + was[n..];
      pageOffset := pageOffset + n;
      if pageOffset == DATA {
        pageNumber, pageOffset := pageNumber + 1, 0;
      }
    }
  }

  // ---- one chunk of whole-page ranges ----

  ghost predicate WholePages(list: seq<Range>) {
    forall i | 0 <= i < |list| :: list[i].cnt % PAGE_SECTORS == 0
  }

  /** In ranges of whole pages no page crosses a range. */
  lemma {:induction false} PageInOneRange(list: seq<Range>, k: nat)
    requires WholePages(list) && k * PAGE_SECTORS < Total(list)
    ensures var p := Locate(list, k * PAGE_SECTORS, PAGE_SECTORS); p.Some? && p.value.length == PAGE_SECTORS
  {
    if k * PAGE_SECTORS >= list[0].cnt {
      var skipped := list[0].cnt / PAGE_SECTORS;
      assert skipped * PAGE_SECTORS == list[0].cnt;
      PageInOneRange(list[1..], k - skipped);
    }
  }

  lemma PageSectors(list: seq<Range>, k: nat, i: nat)
    requires WholePages(list) && k * PAGE_SECTORS < Total(list) && i < PAGE_SECTORS
    ensures var (st, place) := PagePlace([list], k);
            && st == Success && k * PAGE_SECTORS + i < |Sectors(list)|
            && Sectors(list)[k * PAGE_SECTORS + i] * SECTOR == place + i * SECTOR
  {
    OneChunkV2P(list, k * PAGE_SECTORS, PAGE_SECTORS);
    PageInOneRange(list, k);
    LocateNamesSectors(list, k * PAGE_SECTORS, PAGE_SECTORS);
    var p := Locate(list, k * PAGE_SECTORS, PAGE_SECTORS).value;
    var at := k * PAGE_SECTORS + i;
    assert Sectors(list)[at] == p.ofs + (at - k * PAGE_SECTORS);
  }

  /** Disjoint ranges of whole pages in one chunk give every page a place of its own. */
  lemma OneChunkPlacesAll(list: seq<Range>, size: nat)
    requires WholePages(list) && NoRepeats(Sectors(list))
    requires forall i | 0 <= i < |Sectors(list)| :: (Sectors(list)[i] + 1) * SECTOR <= size
    ensures var count := Total(list) / PAGE_SECTORS;
            Separate([list], count, size) && forall k: nat | k < count :: Placed([list], k)
  {
    var count := Total(list) / PAGE_SECTORS;
    forall k: nat | k < count
      ensures Placed([list], k) && PagePlace([list], k).1 + PAGE_SIZE <= size
    {
      PageSectors(list, k, PAGE_SECTORS - 1);
    }
    forall j: nat, k: nat | j < k < count
      ensures Apart(PagePlace([list], j).1, PagePlace([list], k).1)
    {
      PagesApart(list, j, k);
    }
  }

  lemma PagesApart(list: seq<Range>, j: nat, k: nat)
    requires WholePages(list) && NoRepeats(Sectors(list)) && j < k && k * PAGE_SECTORS < Total(list)
    ensures Apart(PagePlace([list], j).1, PagePlace([list], k).1)
  {
    PageSectors(list, j, 0);
    PageSectors(list, k, 0);
    var x, y := Sectors(list)[j * PAGE_SECTORS + 0], Sectors(list)[k * PAGE_SECTORS + 0];
    if x <= y < x + PAGE_SECTORS {
      PageSectors(list, j, y - x);
    } else if y <= x < y + PAGE_SECTORS {
      PageSectors(list, k, x - y);
    }
  }
}
