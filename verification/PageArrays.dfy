/** Buffers spread over separately allocated pages (`page_array.c`), seen as one flat sequence. */
module PageArrays {
  import opened Basics

  predicate SameLength<T>(pages: seq<seq<T>>, len: nat) {
    len > 0 && forall k | 0 <= k < |pages| :: |pages[k]| == len
  }

  lemma PageOf(i: nat, count: nat, len: nat)
    requires len > 0
    ensures i / len < count <==> i < count * len
  {
    DivBounds(i, len);
    if i / len < count {
      MulMonotone(i / len + 1, count, len);
    } else {
      MulMonotone(count, i / len, len);
    }
  }

  /** Pages of one length as one sequence. */
  function Joint<T>(pages: seq<seq<T>>, len: nat): (s: seq<T>)
    requires SameLength(pages, len)
    ensures |s| == |pages| * len
  {
    seq(|pages| * len, i requires 0 <= i < |pages| * len =>
      PageOf(i, |pages|, len);
      pages[i / len][i % len])
  }

  lemma JointAt<T>(pages: seq<seq<T>>, len: nat, i: nat) returns (p: nat, j: nat)
    requires SameLength(pages, len) && i < |pages| * len
    ensures p == i / len && j == i % len && p < |pages| && j < len && Joint(pages, len)[i] == pages[p][j]
  {
    PageOf(i, |pages|, len);
    p, j := i / len, i % len;
  }

  lemma UpdatedAt<T>(pages: seq<seq<T>>, len: nat, p: nat, j: nat, v: T, inx: nat, i: nat)
    requires SameLength(pages, len) && inx < |pages| * len && i < |pages| * len
    requires p == inx / len && j == inx % len && p < |pages| && j < len
    ensures Joint(pages[p := pages[p][j := v]], len)[i] == if i == inx then v else Joint(pages, len)[i]
  {
    var q, k := JointAt(pages[p := pages[p][j := v]], len, i);
    var q', k' := JointAt(pages, len, i);
    SameSlot(i, inx, len);
  }

  /** One slot of one page is one element. */
  lemma JointUpdate<T>(pages: seq<seq<T>>, len: nat, inx: nat, v: T)
    requires SameLength(pages, len) && inx < |pages| * len
    ensures inx / len < |pages| && inx % len < len
    ensures var p := inx / len; Joint(pages[p := pages[p][inx % len := v]], len) == Joint(pages, len)[inx := v]
  {
    var p, j := JointAt(pages, len, inx);
    forall i | 0 <= i < |pages| * len
      ensures Joint(pages[p := pages[p][j := v]], len)[i] == if i == inx then v else Joint(pages, len)[i]
    {
      UpdatedAt(pages, len, p, j, v, inx, i);
    }
  }

  lemma SameSlot(i: nat, j: nat, len: nat)
    requires len > 0
    ensures i / len == j / len && i % len == j % len <==> i == j
  {
    DivBounds(i, len);
    DivBounds(j, len);
  }

  lemma ReplacedAt<T>(from: seq<seq<T>>, pages: seq<seq<T>>, n: nat, len: nat, i: nat)
    requires SameLength(from, len) && SameLength(pages, len) && n <= |from| && n <= |pages| && i < |pages| * len
    ensures i < n * len ==> i < |from| * len
    ensures Joint(from[..n] + pages[n..], len)[i] == if i < n * len then Joint(from, len)[i] else Joint(pages, len)[i]
  {
    PageOf(i, n, len);
    var p, j := JointAt(from[..n] + pages[n..], len, i);
    if i < n * len {
      PageOf(i, |from|, len);
      p, j := JointAt(from, len, i);
    } else {
      p, j := JointAt(pages, len, i);
    }
  }

  /** The first pages of one list and the rest of another. */
  lemma JointReplaced<T>(from: seq<seq<T>>, pages: seq<seq<T>>, n: nat, len: nat)
    requires SameLength(from, len) && SameLength(pages, len) && n <= |from| && n <= |pages|
    ensures n * len <= |from| * len && n * len <= |pages| * len
    ensures Joint(from[..n] + pages[n..], len) == Joint(from, len)[..n * len] + Joint(pages, len)[n * len..]
  {
    MulMonotone(n, |from|, len);
    MulMonotone(n, |pages|, len);
    forall i | 0 <= i < |pages| * len
      ensures i < n * len ==> i < |from| * len
      ensures Joint(from[..n] + pages[n..], len)[i] == if i < n * len then Joint(from, len)[i] else Joint(pages, len)[i]
    {
      ReplacedAt(from, pages, n, len, i);
    }
  }

  /** `pageLen` elements to a page: 4096 bytes, or 512 pointers. */
  class PageArray<T(0)> {
    const pageLen: nat
    const pages: seq<array<T>>

    ghost predicate Valid() {
      && pageLen > 0
      && (forall k | 0 <= k < |pages| :: pages[k].Length == pageLen)
      && (forall j, k | 0 <= j < k < |pages| :: pages[j] != pages[k])
    }

    ghost function Size(): nat {
      |pages| * pageLen
    }

    lemma InPages(inx: nat)
      requires Valid()
      ensures inx / pageLen < |pages| <==> inx < Size()
    {
      PageOf(inx, |pages|, pageLen);
    }

    ghost function ElementAt(inx: nat): T
      requires Valid() && inx < Size()
      reads pages
    {
      InPages(inx);
      pages[inx / pageLen][inx % pageLen]
    }

    /** The contents in order. */
    ghost function Flat(): (s: seq<T>)
      requires Valid()
      reads pages
      ensures |s| == Size()
    {
      seq(Size(), i requires 0 <= i < Size() && Valid() reads pages => ElementAt(i))
    }

    ghost function Contents(): (c: seq<seq<T>>)
      requires Valid()
      reads pages
      ensures |c| == |pages| && SameLength(c, pageLen) && forall k | 0 <= k < |c| :: c[k] == pages[k][..]
    {
      seq(|pages|, k requires 0 <= k < |pages| reads pages => pages[k][..])
    }

    /** The same, said page by page. */
    lemma FlatIsJoint()
      requires Valid()
      ensures Flat() == Joint(Contents(), pageLen)
    {
      forall i | 0 <= i < Size()
        ensures ElementAt(i) == Joint(Contents(), pageLen)[i]
      {
        ElementIsJoint(i);
      }
    }

    lemma ElementIsJoint(i: nat)
      requires Valid() && i < Size()
      ensures ElementAt(i) == Joint(Contents(), pageLen)[i]
    {
      InPages(i);
      var p, j := JointAt(Contents(), pageLen, i);
    }

    lemma PageSlot(pageInx: nat, from: nat)
      requires Valid() && pageInx < |pages| && from < pageLen
      ensures pageInx * pageLen + from < Size() && ElementAt(pageInx * pageLen + from) == pages[pageInx][from]
    {
      DivModUnique(pageInx, from, pageLen);
      InPages(pageInx * pageLen + from);
    }

    constructor (pageLen: nat, count: nat)
      requires pageLen > 0
      ensures Valid() && this.pageLen == pageLen && |pages| == count && fresh(pages)
    {
      var all: seq<array<T>> := [];
      var inx := 0;
      while inx < count
        invariant inx <= count && |all| == inx && fresh(all)
        invariant forall k | 0 <= k < inx :: all[k].Length == pageLen
        invariant forall j, k | 0 <= j < k < inx :: all[j] != all[k]
      {
        var page := new T[pageLen];
        all := all + [page];
        inx := inx + 1;
      }
      this.pageLen := pageLen;
      pages := all;
    }

    /** `page_array_byte_get`, `page_array_ptr_get`. */
    method Get(inx: nat, default: T) returns (res: Status, value: T)
      requires Valid()
      ensures res == if inx < Size() then Success else ENoData
      ensures value == if inx < Size() then Flat()[inx] else default
    {
      InPages(inx);
      var pageInx := inx / pageLen;
      if pageInx >= |pages| {
        return ENoData, default;
      }
      res, value := Success, pages[pageInx][inx % pageLen];
    }

    /** `page_array_byte_set`, `page_array_ptr_set`. */
    method Set(inx: nat, value: T) returns (res: Status)
      requires Valid()
      modifies pages
      ensures res == if inx < Size() then Success else ENoData
      ensures Flat() == if inx < Size() then old(Flat())[inx := value] else old(Flat())
    {
      InPages(inx);
      ghost var was := Contents();
      FlatIsJoint();
      var pageInx := inx / pageLen;
      if pageInx >= |pages| {
        return ENoData;
      }
      JointUpdate(was, pageLen, inx, value);
      pages[pageInx][inx % pageLen] := value;
      res := Success;
      assert Contents() == was[pageInx := was[pageInx][inx % pageLen := value]];
      FlatIsJoint();
    }

    /** `page_array_memset`. */
    method Memset(value: T)
      requires Valid()
      modifies pages
      ensures Flat() == seq(Size(), _ => value)
    {
      var inx := 0;
      while inx < |pages|
        invariant 0 <= inx <= |pages|
        invariant forall k, j | 0 <= k < inx && 0 <= j < pageLen :: pages[k][j] == value
      {
        var page := pages[inx];
        forall j | 0 <= j < page.Length {
          page[j] := value;
        }
        assert forall k | 0 <= k < inx :: pages[k] != page;
        inx := inx + 1;
      }
      forall i | 0 <= i < Size()
        ensures ElementAt(i) == value
      {
        InPages(i);
      }
    }

    /** `page_array_memcpy`: copies as many pages as both arrays have. */
    method Memcpy(src: PageArray<T>)
      requires Valid() && src.Valid() && src.pageLen == pageLen
      requires forall j, k | 0 <= j < |pages| && 0 <= k < |src.pages| :: pages[j] != src.pages[k]
      modifies pages
      ensures src.Flat() == old(src.Flat())
      ensures var n := Min(Size(), src.Size()); Flat() == src.Flat()[..n] + old(Flat())[n..]
    {
      var count := Min(|pages|, |src.pages|);
      FlatIsJoint();
      src.FlatIsJoint();
      JointReplaced(src.Contents(), Contents(), count, pageLen);
      SmallerSize(src, count);
      CopyFirst(src, count);
      FlatIsJoint();
      src.FlatIsJoint();
    }

    /** The loop over the pages. */
    method CopyFirst(src: PageArray<T>, count: nat)
      requires Valid() && src.Valid() && src.pageLen == pageLen && count <= |pages| && count <= |src.pages|
      requires forall j, k | 0 <= j < |pages| && 0 <= k < |src.pages| :: pages[j] != src.pages[k]
      modifies pages
      ensures src.Contents() == old(src.Contents())
      ensures Contents() == src.Contents()[..count] + old(Contents())[count..]
    {
      var inx := 0;
      ghost var was, from := Contents(), src.Contents();
      while inx < count
        invariant 0 <= inx <= count && src.Contents() == from
        invariant forall k | 0 <= k < |pages| :: pages[k][..] == if k < inx then from[k] else was[k]
      {
        CopyPage(src, inx);
        inx := inx + 1;
      }
    }

    lemma SmallerSize(src: PageArray<T>, count: nat)
      requires src.pageLen == pageLen && count == Min(|pages|, |src.pages|)
      ensures count * pageLen == Min(Size(), src.Size())
    {
      MulMonotone(count, |pages|, pageLen);
      MulMonotone(count, |src.pages|, pageLen);
    }

    /** One page of another array. */
    method CopyPage(src: PageArray<T>, inx: nat)
      requires Valid() && src.Valid() && src.pageLen == pageLen && inx < |pages| && inx < |src.pages|
      requires forall k | 0 <= k < |src.pages| :: pages[inx] != src.pages[k]
      modifies pages[inx]
      ensures src.Contents() == old(src.Contents()) && pages[inx][..] == src.Contents()[inx]
      ensures forall k | 0 <= k < |pages| && k != inx :: pages[k][..] == old(pages[k][..])
    {
      var page, from := pages[inx], src.pages[inx];
      forall j | 0 <= j < page.Length {
        page[j] := from[j];
      }
      assert forall k | 0 <= k < |pages| && k != inx :: pages[k] != page;
      assert page[..] == from[..];
    }

    /** `page_array_pages2mem`: copies until the length or the pages end. */
    method Pages2Mem(dst: array<T>, ofs: nat, length: nat) returns (done: nat)
      requires Valid() && ofs < Size() && 0 < length <= dst.Length && dst !in pages
      modifies dst
      ensures done == if length <= Size() - ofs then length else Size() - ofs
      ensures dst[..done] == Flat()[ofs..ofs + done] && dst[done..] == old(dst[done..])
    {
      var pageInx := ofs / pageLen;
      ghost var base := PageStart(ofs);
      done := CopyIn(dst, 0, pageInx, ofs % pageLen, length, base);
      assert dst[..done] == dst[0..done];
      if done < length {
        done := CopyPages(dst, ofs, done, pageInx + 1, length, base + pageLen);
      }
    }

    /** The loop over the whole pages behind the first one. */
    method CopyPages(dst: array<T>, ofs: nat, from: nat, page: nat, length: nat, ghost start: nat) returns (done: nat)
      requires Valid() && page <= |pages| && start == page * pageLen == ofs + from && dst !in pages
      requires ofs < Size() && from < length <= dst.Length && start <= Size() && dst[..from] == Flat()[ofs..start]
      modifies dst
      ensures done == if length <= Size() - ofs then length else Size() - ofs
      ensures dst[..done] == Flat()[ofs..ofs + done] && dst[done..] == old(dst[done..])
    {
      done := from;
      var pageInx := page;
      ghost var flat, base, was := Flat(), start, dst[..];
      while done < length && pageInx < |pages|
        invariant page <= pageInx <= |pages| && from <= done <= length && Flat() == flat
        invariant base == pageInx * pageLen <= Size() && ofs <= base
        invariant done == if base - ofs < length then base - ofs else length
        invariant dst[..done] == flat[ofs..ofs + done] && dst[done..] == was[done..]
      {
        ghost var before := dst[..];
        var next := CopyNext(dst, ofs, done, pageInx, length, base);
        SameBehind(before, was, done, next);
        done := next;
        pageInx := pageInx + 1;
        base := base + pageLen;
      }
    }

    /** One turn of that loop. */
    method CopyNext(dst: array<T>, ofs: nat, done: nat, pageInx: nat, length: nat, ghost base: nat) returns (next: nat)
      requires Valid() && pageInx < |pages| && base == pageInx * pageLen == ofs + done && dst !in pages
      requires done < length <= dst.Length && base <= Size() && dst[..done] == Flat()[ofs..base]
      modifies dst
      ensures (pageInx + 1) * pageLen == base + pageLen <= Size() && Flat() == old(Flat())
      ensures next == if base + pageLen - ofs < length then base + pageLen - ofs else length
      ensures dst[..next] == Flat()[ofs..ofs + next] && dst[next..] == old(dst[next..])
    {
      ghost var flat := Flat();
      var part := CopyIn(dst, done, pageInx, 0, length, base);
      assert Flat() == flat;
      Joined(dst[..], flat, ofs, done, part);
      NextPage(pageInx + 1);
      next := done + part;
    }

    /** Where the page of a flat index begins. */
    lemma PageStart(ofs: nat) returns (base: nat)
      requires Valid() && ofs < Size()
      ensures base == ofs / pageLen * pageLen && ofs == base + ofs % pageLen && ofs / pageLen < |pages|
      ensures (ofs / pageLen + 1) * pageLen == base + pageLen <= Size()
    {
      InPages(ofs);
      DivBounds(ofs, pageLen);
      base := ofs / pageLen * pageLen;
      MulMonotone(ofs / pageLen + 1, |pages|, pageLen);
    }

    static lemma Joined(a: seq<T>, flat: seq<T>, ofs: nat, done: nat, part: nat)
      requires done + part <= |a| && ofs + done + part <= |flat|
      requires a[..done] == flat[ofs..ofs + done] && a[done..done + part] == flat[ofs + done..ofs + done + part]
      ensures a[..done + part] == flat[ofs..ofs + done + part]
    {
    }

    static lemma SameBehind(a: seq<T>, b: seq<T>, k: nat, m: nat)
      requires k <= m <= |a| == |b| && a[k..] == b[k..]
      ensures a[m..] == b[m..]
    {
      assert a[m..] == a[k..][m - k..] && b[m..] == b[k..][m - k..];
    }

    lemma NextPage(pageInx: nat)
      requires 0 < pageInx <= |pages|
      ensures pageInx * pageLen == (pageInx - 1) * pageLen + pageLen <= Size()
    {
    }

    /** One `memcpy` out of one page: up to the end of the page or of the request. */
    method CopyIn(dst: array<T>, at: nat, pageInx: nat, from: nat, length: nat, ghost base: nat) returns (part: nat)
      requires base == pageInx * pageLen
      requires Valid() && pageInx < |pages| && from < pageLen && at < length <= dst.Length && dst !in pages
      modifies dst
      ensures part == if pageLen - from < length - at then pageLen - from else length - at
      ensures base + from + part <= Size() && dst[at..at + part] == Flat()[base + from..base + from + part]
      ensures dst[..at] == old(dst[..at]) && dst[at + part..] == old(dst[at + part..])
    {
      var page := pages[pageInx];
      part := if pageLen - from < length - at then pageLen - from else length - at;
      forall i | at <= i < at + part {
        dst[i] := page[from + (i - at)];
      }
      assert dst[at..at + part] == page[from..from + part];
      PageSlice(pageInx, from, part);
    }

    lemma PageSlice(pageInx: nat, from: nat, cnt: nat)
      requires Valid() && pageInx < |pages| && from + cnt <= pageLen
      ensures var base := pageInx * pageLen + from;
              base + cnt <= Size() && Flat()[base..base + cnt] == pages[pageInx][from..from + cnt]
    {
      var base := pageInx * pageLen + from;
      MulMonotone(pageInx + 1, |pages|, pageLen);
      assert (pageInx + 1) * pageLen == pageInx * pageLen + pageLen;
      forall i | base <= i < base + cnt
        ensures Flat()[i] == pages[pageInx][i - pageInx * pageLen]
      {
        PageSlot(pageInx, i - pageInx * pageLen);
      }
    }
  }
}
