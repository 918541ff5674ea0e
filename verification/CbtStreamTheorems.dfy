/** Whole streams through the persistent store: what was written is read back, once. */
module CbtStreamTheorems {
  import opened Basics
  import opened Chunked
  import opened CbtStream

  function WriteAll(crc: Crc, s: Store, parts: seq<seq<byte>>): (r: (Store, Status))
    requires Sized(s)
    ensures Sized(r.0)
    decreases |parts|
  {
    if parts == [] then (s, Success)
    else
      var n := |parts| - 1;
      var (s1, st) := WriteAll(crc, s, parts[..n]);
      if st != Success then (s1, st) else Write(crc, s1, parts[n])
  }

  function ReadAll(crc: Crc, s: Store, dsts: seq<seq<byte>>): (Store, Status, seq<seq<byte>>)
    requires Sized(s)
    decreases |dsts|
  {
    if dsts == [] then (s, Success, [])
    else
      var (s1, st, got) := Read(crc, s, dsts[0]);
      if st != Success then (s1, st, [got])
      else
        var (s2, st2, rest) := ReadAll(crc, s1, dsts[1..]);
        (s2, st2, [got] + rest)
  }

  predicate NonEmpty(parts: seq<seq<byte>>) {
    forall k | 0 <= k < |parts| :: parts[k] != []
  }

  /** Starting at stream position `at`, no part crosses a page boundary. */
  predicate InPages(at: nat, parts: seq<seq<byte>>)
    decreases |parts|
  {
    parts == [] || (parts[0] != [] && at % DATA + |parts[0]| <= DATA && InPages(at + |parts[0]|, parts[1..]))
  }

  predicate SameSizes(a: seq<seq<byte>>, b: seq<seq<byte>>) {
    |a| == |b| && forall k | 0 <= k < |a| :: |a[k]| == |b[k]|
  }

  lemma {:induction false} WriteAllAppends(crc: Crc, s: Store, stream: seq<byte>, parts: seq<seq<byte>>)
    requires Holds(crc, s, stream) && NonEmpty(parts) && |stream| + |Flatten(parts)| <= |s.pages| * DATA
    ensures var (s1, st) := WriteAll(crc, s, parts);
            st == Success && Holds(crc, s1, stream + Flatten(parts)) && |s1.pages| == |s.pages| && s1.time == s.time
    decreases |parts|
  {
    if parts == [] {
      assert stream + Flatten(parts) == stream;
    } else {
      var n := |parts| - 1;
      assert parts == parts[..n] + [parts[n]];
      FlattenSnoc(parts[..n], parts[n]);
      WriteAllAppends(crc, s, stream, parts[..n]);
      WriteAppends(crc, WriteAll(crc, s, parts[..n]).0, stream + Flatten(parts[..n]), parts[n]);
      AppendAssociates(stream, Flatten(parts[..n]), parts[n]);
    }
  }

  /** All data areas, page after page. */
  function AllBytes(pages: seq<Page>): (r: seq<byte>)
    ensures |r| == |pages| * DATA
  {
    seq(|pages| * DATA, i requires 0 <= i < |pages| * DATA => DataByte(pages[i / DATA], i % DATA))
  }

  lemma {:induction false} ReadAllReturns(crc: Crc, s: Store, all: seq<byte>, at: nat, parts: seq<seq<byte>>,
          dsts: seq<seq<byte>>)
    requires Reads(crc, s, all) && Position(s) == at && SameSizes(parts, dsts) && InPages(at, parts)
    requires at + |Flatten(parts)| <= |all| && Flatten(parts) == all[at..at + |Flatten(parts)|]
    ensures var (s1, st, got) := ReadAll(crc, s, dsts);
            st == Success && got == parts && s1.pages == s.pages && Reads(crc, s1, all)
    decreases |parts|
  {
    if parts != [] {
      var part, rest := parts[0], parts[1..];
      assert Flatten(parts) == part + Flatten(rest) && |Flatten(parts)| == |part| + |Flatten(rest)|;
      SplitSlice(all, at, part, Flatten(rest));
      var s1 := ReadNext(crc, s, all, part, dsts[0]);
      TailSizes(parts, dsts);
      ReadAllReturns(crc, s1, all, at + |part|, rest, dsts[1..]);
      assert [part] + rest == parts;
    }
  }

  lemma TailSizes(a: seq<seq<byte>>, b: seq<seq<byte>>)
    requires SameSizes(a, b) && a != []
    ensures SameSizes(a[1..], b[1..])
  {
  }

  lemma ReadNext(crc: Crc, s: Store, all: seq<byte>, part: seq<byte>, dst: seq<byte>) returns (s1: Store)
    requires Reads(crc, s, all) && |dst| == |part| > 0 && Position(s) % DATA + |part| <= DATA
    requires Position(s) + |part| <= |all| && all[Position(s)..Position(s) + |part|] == part
    ensures Read(crc, s, dst) == (s1, Success, part)
    ensures Reads(crc, s1, all) && Position(s1) == Position(s) + |part| && s1.pages == s.pages
  {
    ReadInsidePage(crc, s, all, dst);
    s1 := Read(crc, s, dst).0;
  }

  lemma SplitSlice(all: seq<byte>, at: nat, a: seq<byte>, b: seq<byte>)
    requires at + |a| + |b| <= |all| && a + b == all[at..at + |a + b|]
    ensures all[at..at + |a|] == a && all[at + |a|..at + |a| + |b|] == b
  {
    assert (a + b)[..|a|] == a && (a + b)[|a|..] == b;
    assert all[at..at + |a + b|][..|a|] == all[at..at + |a|];
    assert all[at..at + |a + b|][|a|..] == all[at + |a|..at + |a| + |b|];
  }

  lemma StoredPrefix(crc: Crc, pages: seq<Page>, stream: seq<byte>, used: nat, time: Time)
    requires Stored(crc, pages, stream, used, time)
    ensures |stream| <= |pages| * DATA && AllBytes(pages)[..|stream|] == stream
    ensures forall k | 0 <= k < |pages| :: Checks(crc, pages[k], k)
  {
  }

  /** Preparing to read takes the mark of a stored stream and wipes it: it can be read only once. */
  lemma PrepareTakesMark(crc: Crc, s: Store, stream: seq<byte>, used: nat, time: Time)
    requires Sized(s) && AllPlaced(s) && s.pages != [] && used > 0 && time.sec != 0
    requires Stored(crc, s.pages, stream, used, time)
    ensures var (s1, st) := PrepareForRead(crc, s);
            && st == Ready && Reads(crc, s1, AllBytes(s.pages)) && Position(s1) == 0 && s1.time == time
            && |s1.pages| == |s.pages| && s1.placed == s.placed
            && s1.pages[0].time.sec == 0 && Checks(crc, s1.pages[0], 0)
  {
  }

  lemma NothingLeft(crc: Crc, s: Store)
    requires Sized(s) && AllPlaced(s) && s.pages != [] && Checks(crc, s.pages[0], 0) && s.pages[0].time.sec == 0
    ensures PrepareForRead(crc, s).1 == NothingStored
  {
  }

  lemma WrittenIsHeld(crc: Crc, s0: Store, now: Time, parts: seq<seq<byte>>)
    requires Sized(s0) && AllPlaced(s0) && s0.pages != [] && PrepareForWrite(crc, s0, now).1 == Success
    requires NonEmpty(parts) && |Flatten(parts)| <= |s0.pages| * DATA
    ensures var (s2, st2) := WriteAll(crc, PrepareForWrite(crc, s0, now).0, parts);
            st2 == Success && Holds(crc, s2, Flatten(parts)) && |s2.pages| == |s0.pages| && s2.time == now
  {
    var s1 := PrepareForWrite(crc, s0, now).0;
    assert Holds(crc, s1, []);
    WriteAllAppends(crc, s1, [], parts);
    assert [] + Flatten(parts) == Flatten(parts);
  }

  /** Any writes that fit, then a finish, leave exactly the concatenated stream in the pages. */
  lemma WrittenIsStored(crc: Crc, s0: Store, now: Time, parts: seq<seq<byte>>)
    requires Sized(s0) && AllPlaced(s0) && s0.pages != [] && PrepareForWrite(crc, s0, now).1 == Success
    requires NonEmpty(parts) && |Flatten(parts)| <= |s0.pages| * DATA
    ensures var (s2, st2) := WriteAll(crc, PrepareForWrite(crc, s0, now).0, parts);
            && st2 == Success && Sized(s2)
            && var (s3, st3) := Finish(crc, s2);
               && st3 == Success && AllPlaced(s3) && Sized(s3) && |s3.pages| == |s0.pages|
               && exists used: nat :: used > 0 && Stored(crc, s3.pages, Flatten(parts), used, now)
  {
    WrittenIsHeld(crc, s0, now, parts);
    FinishedIsStored(crc, WriteAll(crc, PrepareForWrite(crc, s0, now).0, parts).0, Flatten(parts));
  }

  lemma FinishedIsStored(crc: Crc, s: Store, stream: seq<byte>)
    requires Holds(crc, s, stream) && s.pages != []
    ensures var (s1, st) := Finish(crc, s);
            && st == Success && AllPlaced(s1) && Sized(s1) && |s1.pages| == |s.pages|
            && exists used: nat :: used > 0 && Stored(crc, s1.pages, stream, used, s.time)
  {
    FinishStores(crc, s, stream);
    var used := if s.num == |s.pages| then s.num else s.num + 1;
    assert Stored(crc, Finish(crc, s).0.pages, stream, used, s.time);
  }

  /**
   * Reading back with the same sizes returns the same parts when none crosses a page boundary,
   * and a second preparation finds nothing stored.
   */
  lemma StreamRoundTrip(crc: Crc, s0: Store, now: Time, parts: seq<seq<byte>>, dsts: seq<seq<byte>>)
    requires Sized(s0) && AllPlaced(s0) && s0.pages != [] && PrepareForWrite(crc, s0, now).1 == Success && now.sec != 0
    requires NonEmpty(parts) && |Flatten(parts)| <= |s0.pages| * DATA && SameSizes(parts, dsts) && InPages(0, parts)
    ensures var s2 := WriteAll(crc, PrepareForWrite(crc, s0, now).0, parts).0;
            && Sized(s2) && Sized(Finish(crc, s2).0) && Finish(crc, s2).0.pages != []
            && var (s4, ready) := PrepareForRead(crc, Finish(crc, s2).0);
               && ready == Ready && Sized(s4)
               && var (s5, st, got) := ReadAll(crc, s4, dsts);
                  && st == Success && got == parts && Sized(s5) && s5.pages != []
                  && PrepareForRead(crc, s5).1 == NothingStored
  {
    WrittenIsStored(crc, s0, now, parts);
    var s3 := Finish(crc, WriteAll(crc, PrepareForWrite(crc, s0, now).0, parts).0).0;
    var used: nat :| used > 0 && Stored(crc, s3.pages, Flatten(parts), used, now);
    StoredReadsBack(crc, s3, parts, used, now, dsts);
  }

  lemma StoredReadsBack(crc: Crc, s3: Store, parts: seq<seq<byte>>, used: nat, time: Time, dsts: seq<seq<byte>>)
    requires Sized(s3) && AllPlaced(s3) && s3.pages != [] && used > 0 && time.sec != 0
    requires Stored(crc, s3.pages, Flatten(parts), used, time) && SameSizes(parts, dsts) && InPages(0, parts)
    ensures var (s4, ready) := PrepareForRead(crc, s3);
            && ready == Ready && Sized(s4)
            && var (s5, st, got) := ReadAll(crc, s4, dsts);
               && st == Success && got == parts && Sized(s5) && s5.pages != []
               && PrepareForRead(crc, s5).1 == NothingStored
  {
    PrepareTakesMark(crc, s3, Flatten(parts), used, time);
    StoredPrefix(crc, s3.pages, Flatten(parts), used, time);
    var s4 := PrepareForRead(crc, s3).0;
    var all := AllBytes(s3.pages);
    assert all[0..|Flatten(parts)|] == all[..|Flatten(parts)|];
    ReadAllReturns(crc, s4, all, 0, parts, dsts);
    NothingLeft(crc, ReadAll(crc, s4, dsts).0);
  }

  // ---- damaged pages ----

  /** The page is not what any writer with this checksum left as page `k`. */
  predicate Damaged(crc: Crc, p: Page, k: nat) {
    p.magic != MAGIC || p.crc != crc(p.number, p.time, p.padding, p.data) || p.number != k
  }

  lemma DamagedNext(crc: Crc, s: Store, all: seq<byte>, k: nat, q: Page, dst: seq<byte>)
    requires Reads(crc, s, all) && s.num < k < |s.pages| && Damaged(crc, q, k)
    requires 0 < |dst| <= DATA - s.ofs
    ensures var (s1, st, got) := Read(crc, s.(pages := s.pages[k := q]), dst);
            && Position(s1) == Position(s) + |dst|
            && (st == Success <==> s1.num < k) && (st != Success ==> st == EInval)
            && (st == Success ==> got == Read(crc, s, dst).2 && s1 == Read(crc, s, dst).0.(pages := s.pages[k := q]))
  {
    var s' := s.(pages := s.pages[k := q]);
    var s1 := Advanced(s', |dst|);
    assert s1.num <= k;
    ReadAcceptsIff(crc, s1);
    ReadAcceptsIff(crc, Advanced(s, |dst|));
  }

  /**
   * A damaged page behind the position is found out exactly by the reads that come to it: they fail with
   * EINVAL, and reads that end before it return what they returned before.
   */
  lemma {:induction false} DamageFoundIff(crc: Crc, s: Store, all: seq<byte>, k: nat, q: Page, dsts: seq<seq<byte>>)
    requires Reads(crc, s, all) && s.num < k < |s.pages| && Damaged(crc, q, k) && InPages(Position(s), dsts)
    ensures var (s1, st, got) := ReadAll(crc, s.(pages := s.pages[k := q]), dsts);
            && (st == Success <==> Position(s) + |Flatten(dsts)| < k * DATA)
            && (st == Success ==> got == ReadAll(crc, s, dsts).2)
            && (st != Success ==> st == EInval)
    decreases |dsts|
  {
    if dsts != [] {
      var s' := s.(pages := s.pages[k := q]);
      DamagedNext(crc, s, all, k, q, dsts[0]);
      var (s1, st, _) := Read(crc, s', dsts[0]);
      if st == Success {
        ReadInsidePage(crc, s, all, dsts[0]);
        DamageFoundIff(crc, Read(crc, s, dsts[0]).0, all, k, q, dsts[1..]);
      }
    }
  }
}
