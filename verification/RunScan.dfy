/**
 * Turning bits into ranges: the left-to-right scan of `page_array_convert2rangelist`
 * (`snapdata_collect.c`), which the tree walk of `sparse_bitmap.c` has to reproduce, and what
 * the resulting list is.
 */
module RunScan {
  import opened Ranges
  import L = RangeLists

  /** `index`, the open run `rg` (none when `cnt` is 0) and the ranges emitted so far. */
  datatype Scan = Scan(index: nat, rg: Range, out: seq<Range>)

  const NO_RANGE: Range := Range(0, 0)

  function ScanBit(s: Scan, bit: bool): Scan {
    if bit then
      Scan(s.index + 1, Range(if s.rg.cnt == 0 then s.index else s.rg.ofs, s.rg.cnt + 1), s.out)
    else if s.rg.cnt != 0 then Scan(s.index + 1, NO_RANGE, s.out + [s.rg])
    else s.(index := s.index + 1)
  }

  function ScanAll(s: Scan, bits: seq<bool>): Scan
    decreases |bits|
  {
    if bits == [] then s else ScanAll(ScanBit(s, bits[0]), bits[1..])
  }

  /** The open run goes out at the end. */
  function Finish(s: Scan): seq<Range> {
    if s.rg.cnt != 0 then s.out + [s.rg] else s.out
  }

  function RunsOf(bits: seq<bool>, start: nat): seq<Range> {
    Finish(ScanAll(Scan(start, NO_RANGE, []), bits))
  }

  lemma {:induction false} ScanAppend(s: Scan, a: seq<bool>, b: seq<bool>)
    ensures ScanAll(s, a + b) == ScanAll(ScanAll(s, a), b)
    decreases |a|
  {
    if a == [] {
      assert a + b == b;
    } else {
      assert (a + b)[1..] == a[1..] + b;
      ScanAppend(ScanBit(s, a[0]), a[1..], b);
    }
  }

  lemma ScanSnoc(s: Scan, a: seq<bool>, bit: bool)
    ensures ScanAll(s, a + [bit]) == ScanBit(ScanAll(s, a), bit)
  {
    ScanAppend(s, a, [bit]);
    assert ScanAll(ScanBit(ScanAll(s, a), bit), [bit][1..]) == ScanBit(ScanAll(s, a), bit);
  }

  /** A stretch of set bits extends the open run at once. */
  lemma {:induction false} ScanOnes(s: Scan, bits: seq<bool>)
    requires bits != [] && forall k | 0 <= k < |bits| :: bits[k]
    decreases |bits|
    ensures ScanAll(s, bits)
         == Scan(s.index + |bits|, Range(if s.rg.cnt == 0 then s.index else s.rg.ofs, s.rg.cnt + |bits|), s.out)
  {
    if |bits| > 1 {
      ScanOnes(ScanBit(s, true), bits[1..]);
    } else {
      assert bits[1..] == [];
    }
  }

  /** A stretch of clear bits closes it at once. */
  lemma {:induction false} ScanZeros(s: Scan, bits: seq<bool>)
    requires bits != [] && forall k | 0 <= k < |bits| :: !bits[k]
    decreases |bits|
    ensures ScanAll(s, bits)
         == if s.rg.cnt != 0 then Scan(s.index + |bits|, NO_RANGE, s.out + [s.rg]) else s.(index := s.index + |bits|)
  {
    if |bits| > 1 {
      ScanZeros(ScanBit(s, false), bits[1..]);
    } else {
      assert bits[1..] == [];
    }
  }

  // ---- what the list is ----

  predicate Contains(r: Range, i: nat) {
    r.ofs <= i < r.ofs + r.cnt
  }

  ghost predicate Listed(rs: seq<Range>, i: nat) {
    exists k :: 0 <= k < |rs| && Contains(rs[k], i)
  }

  /** Non-empty ranges in order, each ending at least one index before the next begins. */
  ghost predicate Separated(rs: seq<Range>) {
    && (forall k | 0 <= k < |rs| :: rs[k].cnt > 0)
    && (forall k, k' | 0 <= k < k' < |rs| :: rs[k].ofs + rs[k].cnt < rs[k'].ofs)
  }

  function Ones(bits: seq<bool>): nat {
    if bits == [] then 0 else Ones(bits[..|bits| - 1]) + if bits[|bits| - 1] then 1 else 0
  }

  /** The maximal runs of set bits of `bits`, whose first bit has index `start`. */
  ghost predicate IsRuns(rs: seq<Range>, bits: seq<bool>, start: nat) {
    && Separated(rs)
    && (forall i: nat :: Listed(rs, i) <==> start <= i < start + |bits| && bits[i - start])
    && L.Total(rs) == Ones(bits)
  }

  ghost predicate ScanInv(s: Scan, bits: seq<bool>, start: nat) {
    && s.index == start + |bits|
    && IsRuns(Finish(s), bits, start)
    && (s.rg.cnt != 0 <==> bits != [] && bits[|bits| - 1])
    && (s.rg.cnt != 0 ==> s.rg.ofs + s.rg.cnt == s.index)
    && (s.rg.cnt == 0 ==> s.rg == NO_RANGE)
  }

  lemma ListedSnoc(rs: seq<Range>, r: Range, i: nat)
    ensures Listed(rs + [r], i) <==> Listed(rs, i) || Contains(r, i)
  {
    if Listed(rs, i) {
      var k :| 0 <= k < |rs| && Contains(rs[k], i);
      assert Contains((rs + [r])[k], i);
    }
    if Contains(r, i) {
      assert Contains((rs + [r])[|rs|], i);
    }
    if Listed(rs + [r], i) {
      var k :| 0 <= k < |rs + [r]| && Contains((rs + [r])[k], i);
      assert k < |rs| ==> Contains(rs[k], i);
    }
  }

  lemma TotalSnoc(rs: seq<Range>, r: Range)
    ensures L.Total(rs + [r]) == L.Total(rs) + r.cnt
  {
    L.TotalAppend(rs, [r]);
  }

  lemma StepInv(s: Scan, bits: seq<bool>, start: nat, bit: bool)
    requires ScanInv(s, bits, start)
    ensures ScanInv(ScanBit(s, bit), bits + [bit], start)
  {
    var s1, bits1 := ScanBit(s, bit), bits + [bit];
    StepListed(s, bits, start, bit);
    assert bits1[..|bits|] == bits && bits1[|bits1| - 1] == bit;
    assert Separated(Finish(s1)) && L.Total(Finish(s1)) == Ones(bits1) by {
      if bit {
        StepSeparated(s, bits, start);
      } else {
        assert Finish(s1) == Finish(s);
      }
    }
    assert IsRuns(Finish(s1), bits1, start);
  }

  lemma StepListed(s: Scan, bits: seq<bool>, start: nat, bit: bool)
    requires ScanInv(s, bits, start)
    ensures var s1, bits1 := ScanBit(s, bit), bits + [bit];
            forall i: nat :: Listed(Finish(s1), i) <==> start <= i < start + |bits1| && bits1[i - start]
  {
    var s1, bits1 := ScanBit(s, bit), bits + [bit];
    forall i: nat
      ensures Listed(Finish(s1), i) <==> start <= i < start + |bits1| && bits1[i - start]
    {
      ListedSnoc(s.out, s.rg, i);
      ListedSnoc(s.out, s1.rg, i);
      assert Listed(Finish(s), i) <==> start <= i < start + |bits| && bits[i - start];
    }
  }

  lemma StepSeparated(s: Scan, bits: seq<bool>, start: nat)
    requires ScanInv(s, bits, start)
    ensures var s1 := ScanBit(s, true);
            Separated(Finish(s1)) && L.Total(Finish(s1)) == L.Total(Finish(s)) + 1
  {
    var rg1 := ScanBit(s, true).rg;
    var rs := Finish(ScanBit(s, true));
    assert rs == s.out + [rg1];
    TotalSnoc(s.out, s.rg);
    TotalSnoc(s.out, rg1);
    RunEndsLast(s, bits, start);
    forall k, k' | 0 <= k < k' < |rs|
      ensures rs[k].ofs + rs[k].cnt < rs[k'].ofs
    {
      if k' < |s.out| {
        assert Finish(s)[k] == s.out[k] && Finish(s)[k'] == s.out[k'];
      }
    }
  }

  /** Emitted ranges end before the index, and before its predecessor when no run is open. */
  lemma RunEndsLast(s: Scan, bits: seq<bool>, start: nat)
    requires ScanInv(s, bits, start)
    ensures forall k | 0 <= k < |s.out| ::
              s.out[k].cnt > 0 && s.out[k].ofs + s.out[k].cnt < if s.rg.cnt == 0 then s.index else s.rg.ofs
  {
    forall k | 0 <= k < |s.out|
      ensures s.out[k].cnt > 0 && s.out[k].ofs + s.out[k].cnt < if s.rg.cnt == 0 then s.index else s.rg.ofs
    {
      assert Finish(s)[k] == s.out[k];
      if s.rg.cnt != 0 {
        assert Finish(s)[|s.out|] == s.rg;
      } else {
        var i := s.out[k].ofs + s.out[k].cnt - 1;
        assert Contains(Finish(s)[k], i);
        assert Listed(Finish(s), i);
      }
    }
  }

  lemma {:induction false} ScanKeeps(s: Scan, done: seq<bool>, bits: seq<bool>, start: nat)
    requires ScanInv(s, done, start)
    ensures ScanInv(ScanAll(s, bits), done + bits, start)
    decreases |bits|
  {
    if bits == [] {
      assert done + bits == done;
    } else {
      var done1 := done + [bits[0]];
      assert done1 + bits[1..] == done + bits;
      StepInv(s, done, start, bits[0]);
      ScanKeeps(ScanBit(s, bits[0]), done1, bits[1..], start);
    }
  }

  /** The scan lists exactly the maximal runs: sorted, separated, covering the set bits, total right. */
  lemma RunsAreMaximal(bits: seq<bool>, start: nat)
    ensures IsRuns(RunsOf(bits, start), bits, start)
  {
    var s0 := Scan(start, NO_RANGE, []);
    assert ScanInv(s0, [], start);
    ScanKeeps(s0, [], bits, start);
    assert [] + bits == bits;
  }

  /** There is only one list of maximal runs. */
  lemma {:induction false} RunsUnique(a: seq<Range>, b: seq<Range>)
    requires Separated(a) && Separated(b) && forall i: nat :: Listed(a, i) <==> Listed(b, i)
    ensures a == b
    decreases |a| + |b|
  {
    if a == [] || b == [] {
      if a != [] {
        assert Contains(a[0], a[0].ofs);
        assert Listed(a, a[0].ofs);
      }
      if b != [] {
        assert Contains(b[0], b[0].ofs);
        assert Listed(b, b[0].ofs);
      }
    } else {
      FirstRun(a, b);
      FirstRun(b, a);
      assert a[0] == b[0];
      forall i: nat
        ensures Listed(a[1..], i) <==> Listed(b[1..], i)
      {
        TailListed(a, i);
        TailListed(b, i);
      }
      RunsUnique(a[1..], b[1..]);
      assert a == [a[0]] + a[1..] && b == [b[0]] + b[1..];
    }
  }

  lemma TailListed(a: seq<Range>, i: nat)
    requires a != [] && Separated(a)
    ensures Listed(a[1..], i) <==> Listed(a, i) && !Contains(a[0], i)
  {
  }

  /** The first runs of two lists of the same indices start together, and neither outlasts the other. */
  lemma FirstRun(a: seq<Range>, b: seq<Range>)
    requires a != [] && b != [] && Separated(a) && Separated(b) && forall i: nat :: Listed(a, i) <==> Listed(b, i)
    ensures b[0].ofs <= a[0].ofs
    ensures b[0].ofs == a[0].ofs ==> a[0].cnt <= b[0].cnt
  {
    assert Contains(a[0], a[0].ofs);
    assert Listed(a, a[0].ofs);
    var k :| 0 <= k < |b| && Contains(b[k], a[0].ofs);
    assert k > 0 ==> b[0].ofs + b[0].cnt < b[k].ofs;
    if b[0].ofs == a[0].ofs && a[0].cnt > b[0].cnt {
      var i := b[0].ofs + b[0].cnt;
      assert Contains(a[0], i);
      assert Listed(a, i);
    }
  }
}
