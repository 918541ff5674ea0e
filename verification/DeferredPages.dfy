/**
 * Moving a page array to or from consecutive device sectors (`blk_deferred_submit_pages`), in as
 * many bios as it takes.  A bio is performed in the order its pages were added.
 */
module DeferredPages {
  import opened Basics
  import opened CowEngine
  import opened PageArrays

  const SECTORS_IN_PAGE: nat := 8

  class BlockDevice {
    var data: seq<Sector>

    constructor (data: seq<Sector>)
      ensures this.data == data
    {
      this.data := data;
    }
  }

  /** What one bio gets: how often its allocation fails, and how many pages it takes. */
  datatype BioRoom = BioRoom(halvings: nat, pages: nat)

  /** Each failed allocation halves the request, down to whole pages. */
  function Halved(size: nat, times: nat): (r: nat)
    ensures r <= size
  {
    if times == 0 then size else Halved(size / 2 / SECTORS_IN_PAGE * SECTORS_IN_PAGE, times - 1)
  }

  /** Device and buffer after `n` sectors moved between device sector `ofs` and buffer sector `arrOfs`. */
  function Transferred(write: bool, data: seq<Sector>, flat: seq<Sector>, arrOfs: nat, ofs: nat,
          n: nat): (r: (seq<Sector>, seq<Sector>))
    requires arrOfs + n <= |flat| && ofs + n <= |data|
    ensures |r.0| == |data| && |r.1| == |flat|
  {
    if write then (Overwrite(data, ofs, flat[arrOfs..arrOfs + n]), flat)
    else (data, Overwrite(flat, arrOfs, data[ofs..ofs + n]))
  }

  lemma OverwriteNext(s: seq<Sector>, ofs: nat, src: seq<Sector>, from: nat, n: nat, m: nat)
    requires from + n + m <= |src|
    ensures Overwrite(Overwrite(s, ofs, src[from..from + n]), ofs + n, src[from + n..from + n + m])
            == Overwrite(s, ofs, src[from..from + n + m])
  {
  }

  lemma TransferredTwice(write: bool, data: seq<Sector>, flat: seq<Sector>, arrOfs: nat, ofs: nat, n: nat, m: nat)
    requires arrOfs + n + m <= |flat| && ofs + n + m <= |data|
    ensures var (data1, flat1) := Transferred(write, data, flat, arrOfs, ofs, n);
            Transferred(write, data1, flat1, arrOfs + n, ofs + n, m)
            == Transferred(write, data, flat, arrOfs, ofs, n + m)
  {
    if write {
      OverwriteNext(data, ofs, flat, arrOfs, n, m);
    } else {
      OverwriteNext(flat, arrOfs, data, ofs, n, m);
    }
  }

  lemma TransferredNone(write: bool, data: seq<Sector>, flat: seq<Sector>, arrOfs: nat, ofs: nat)
    requires arrOfs <= |flat| && ofs <= |data|
    ensures Transferred(write, data, flat, arrOfs, ofs, 0) == (data, flat)
  {
    assert Overwrite(data, ofs, flat[arrOfs..arrOfs]) == data && Overwrite(flat, arrOfs, data[ofs..ofs]) == flat;
  }

  /** What a transfer may change: the device, or the pages. */
  ghost function Touched(write: bool, dev: BlockDevice, arr: PageArray<Sector>): set<object> {
    if write then {dev} else set p | p in arr.pages :: p as object
  }

  /** One page of a bio. */
  method TransferPage(write: bool, dev: BlockDevice, arr: PageArray<Sector>, pageInx: nat, start: nat, at: nat,
          len: nat)
    requires arr.Valid() && arr.pageLen == SECTORS_IN_PAGE && pageInx < |arr.pages| && start + len <= SECTORS_IN_PAGE
    requires at + len <= |dev.data|
    modifies Touched(write, dev, arr)
    ensures pageInx * SECTORS_IN_PAGE + start + len <= arr.Size()
    ensures (dev.data, arr.Flat()) ==
            Transferred(write, old(dev.data), old(arr.Flat()), pageInx * SECTORS_IN_PAGE + start, at, len)
  {
    ghost var flat := arr.Flat();
    arr.PageSlice(pageInx, start, len);
    var page := arr.pages[pageInx];
    if write {
      dev.data := Overwrite(dev.data, at, page[start..start + len]);
      assert arr.Flat() == flat;
    } else {
      assert page in arr.pages;
      forall k | start <= k < start + len {
        page[k] := dev.data[at + (k - start)];
      }
      forall i | 0 <= i < arr.Size()
        ensures arr.Flat()[i] == Overwrite(flat, pageInx * SECTORS_IN_PAGE + start, dev.data[at..at + len])[i]
      {
        arr.InPages(i);
        assert arr.Flat()[i] == arr.pages[i / SECTORS_IN_PAGE][i % SECTORS_IN_PAGE];
        assert i / SECTORS_IN_PAGE != pageInx ==> arr.pages[i / SECTORS_IN_PAGE] != page;
      }
      assert arr.Flat() == Overwrite(flat, pageInx * SECTORS_IN_PAGE + start, dev.data[at..at + len]);
    }
  }

  /** `_blk_deferred_submit_pages`: one bio. */
  method SubmitPortion(write: bool, dev: BlockDevice, arr: PageArray<Sector>, arrOfs: nat, ofs: nat, size: nat,
          room: BioRoom)
    returns (processed: nat)
    requires arr.Valid() && arr.pageLen == SECTORS_IN_PAGE && arrOfs + size <= arr.Size() && ofs + size <= |dev.data|
    requires size > 0
    modifies Touched(write, dev, arr)
    ensures processed <= size && (processed > 0 <==> Halved(size, room.halvings) > 0 && room.pages > 0)
    ensures (dev.data, arr.Flat()) == Transferred(write, old(dev.data), old(arr.Flat()), arrOfs, ofs, processed)
  {
    ghost var data, flat := dev.data, arr.Flat();
    TransferredNone(write, data, flat, arrOfs, ofs);
    var portion := Shrink(size, room.halvings);
    if portion == 0 || room.pages == 0 { return 0; }
    arr.InPages(arrOfs);
    var pageInx, unordered := arrOfs / SECTORS_IN_PAGE, arrOfs % SECTORS_IN_PAGE;
    var len := if SECTORS_IN_PAGE - unordered < portion then SECTORS_IN_PAGE - unordered else portion;
    TransferPage(write, dev, arr, pageInx, unordered, ofs, len);
    var added := 1;
    pageInx, processed := pageInx + 1, len;
    while processed < portion && pageInx < |arr.pages|
      invariant 0 < processed <= portion <= size && pageInx <= |arr.pages|
      invariant processed < portion ==> pageInx * SECTORS_IN_PAGE == arrOfs + processed
      invariant |dev.data| == |data| && |arr.Flat()| == |flat|
      invariant (dev.data, arr.Flat()) == Transferred(write, data, flat, arrOfs, ofs, processed)
    {
      len := if SECTORS_IN_PAGE < portion - processed then SECTORS_IN_PAGE else portion - processed;
      if added == room.pages { break; }
      TransferPage(write, dev, arr, pageInx, 0, ofs + processed, len);
      TransferredTwice(write, data, flat, arrOfs, ofs, processed, len);
      pageInx, processed, added := pageInx + 1, processed + len, added + 1;
    }
  }

  /** Allocation attempts, each for half the sectors of the one before. */
  method Shrink(size: nat, halvings: nat) returns (portion: nat)
    requires size > 0
    ensures portion == Halved(size, halvings)
  {
    portion := size;
    var left: nat := halvings;
    while left > 0 && portion > 0
      invariant left <= halvings && Halved(portion, left) == Halved(size, halvings)
    {
      portion := portion / 2 / SECTORS_IN_PAGE * SECTORS_IN_PAGE;
      left := left - 1;
    }
    NothingToHalve(left);
  }

  lemma {:induction false} NothingToHalve(times: nat)
    ensures Halved(0, times) == 0
  {
  }

  /**
   * `blk_deferred_submit_pages`: bio after bio until all sectors are moved or a bio moves none.
   * However the bios fill up, what is moved is the beginning of the request.
   */
  method SubmitPages(write: bool, dev: BlockDevice, arr: PageArray<Sector>, arrOfs: nat, ofs: nat, size: nat,
          rooms: nat -> BioRoom)
    returns (processed: nat)
    requires arr.Valid() && arr.pageLen == SECTORS_IN_PAGE && arrOfs + size <= arr.Size() && ofs + size <= |dev.data|
    modifies Touched(write, dev, arr)
    ensures processed <= size
    ensures (dev.data, arr.Flat()) == Transferred(write, old(dev.data), old(arr.Flat()), arrOfs, ofs, processed)
    ensures (forall k: nat, n: nat | 0 < n <= size :: Halved(n, rooms(k).halvings) > 0 && rooms(k).pages > 0) ==>
              processed == size
  {
    ghost var data, flat := dev.data, arr.Flat();
    TransferredNone(write, data, flat, arrOfs, ofs);
    processed := 0;
    var k: nat := 0;
    while processed < size
      invariant processed <= size && |dev.data| == |data| && |arr.Flat()| == |flat|
      invariant (dev.data, arr.Flat()) == Transferred(write, data, flat, arrOfs, ofs, processed)
    {
      var portion := SubmitPortion(write, dev, arr, arrOfs + processed, ofs + processed, size - processed, rooms(k));
      TransferredTwice(write, data, flat, arrOfs, ofs, processed, portion);
      if portion == 0 { break; }
      processed := processed + portion;
      k := k + 1;
    }
  }
}
