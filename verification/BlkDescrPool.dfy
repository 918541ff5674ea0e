/** The pool of free snapstore blocks (`blk_descr_pool.c`): a list of arrays that only grows. */
module BlkDescrPool {
  import opened Basics
  import opened Chunked

  /** `pool_el_t`; its capacity is what one allocation happens to hold. */
  class Element<T(0)> {
    var usedCnt: nat
    const blocks: array<T>

    ghost predicate Valid()
      reads this
    {
      usedCnt <= blocks.Length
    }

    function Used(): (s: seq<T>)
      requires Valid()
      reads this, blocks
      ensures |s| == usedCnt
    {
      blocks[..usedCnt]
    }

    constructor (capacity: nat)
      ensures Valid() && usedCnt == 0 && fresh(blocks) && blocks.Length == capacity
    {
      usedCnt := 0;
      blocks := new T[capacity];
    }
  }

  ghost function BlocksOf<T(0)>(els: seq<Element<T>>): set<array<T>> {
    set e | e in els :: e.blocks
  }

  ghost function ChunksOf<T(0)>(els: seq<Element<T>>): (c: seq<seq<T>>)
    requires forall i | 0 <= i < |els| :: els[i].Valid()
    reads els, BlocksOf(els)
    ensures |c| == |els| && forall i :: 0 <= i < |els| ==> c[i] == els[i].Used()
  {
    seq(|els|, i requires 0 <= i < |els| && els[i].Valid() reads els, BlocksOf(els) => els[i].Used())
  }

  class Pool<T(0)> {
    var els: seq<Element<T>>
    var blocksCnt: nat
    var totalCnt: nat
    var takeCnt: nat
    ghost const available: nat // blocks counted before any is added

    ghost var Repr: set<object> // the elements and their arrays

    ghost predicate Distinct()
      reads `els, `Repr, Repr
    {
      && this !in Repr && (forall e | e in els :: e in Repr && e.blocks in Repr && e.Valid())
      && (forall i, j | 0 <= i < j < |els| :: els[i] != els[j] && els[i].blocks != els[j].blocks)
    }

    ghost function Chunks(): (c: seq<seq<T>>)
      requires Distinct()
      reads `els, `Repr, Repr
      ensures |c| == |els| && forall i :: 0 <= i < |els| ==> c[i] == els[i].Used()
    {
      ChunksOf(els)
    }

    /** The descriptors added so far, in order. */
    ghost function Contents(): seq<T>
      requires Distinct()
      reads `els, `Repr, Repr
    {
      Flatten(Chunks())
    }

    ghost predicate Valid()
      reads this, Repr
    {
      Distinct() && blocksCnt == |els| && totalCnt == available + |Contents()| && takeCnt <= |Contents()|
    }

    constructor (availableBlocks: nat)
      ensures Valid() && Repr == {} && Contents() == [] && takeCnt == 0 && available == availableBlocks
    {
      els, Repr, blocksCnt, takeCnt := [], {}, 0, 0;
      totalCnt, available := availableBlocks, availableBlocks;
    }

    method AddElement(capacity: nat)
      requires Distinct() && capacity > 0
      modifies this
      ensures Distinct() && Chunks() == old(Chunks()) + [[]] && blocksCnt == old(blocksCnt) + 1
      ensures totalCnt == old(totalCnt) && takeCnt == old(takeCnt)
      ensures els != [] && els[|els| - 1].usedCnt == 0 && els[|els| - 1].blocks.Length == capacity
      ensures fresh(Repr - old(Repr))
    {
      ghost var was := Chunks();
      var el := new Element<T>(capacity);
      els := els + [el];
      Repr := Repr + {el, el.blocks};
      blocksCnt := blocksCnt + 1;
      assert Distinct();
      forall i | 0 <= i < |was|
        ensures Chunks()[i] == was[i]
      {
      }
      assert Chunks() == was + [[]];
    }

    method AddToLast(x: T)
      requires Distinct() && els != [] && els[|els| - 1].usedCnt < els[|els| - 1].blocks.Length
      modifies els[|els| - 1], els[|els| - 1].blocks
      ensures Distinct() && var n := |els| - 1; Chunks() == old(Chunks())[n := old(Chunks())[n] + [x]]
    {
      ghost var was := Chunks();
      var n := |els| - 1;
      var el := els[n];
      el.blocks[el.usedCnt] := x;
      el.usedCnt := el.usedCnt + 1;
      forall i | 0 <= i < n
        ensures Chunks()[i] == was[i]
      {
        assert els[i] != el && els[i].blocks != el.blocks;
      }
      assert Chunks()[n] == was[n] + [x];
    }

    method Append(x: T)
      requires Distinct() && els != [] && els[|els| - 1].usedCnt < els[|els| - 1].blocks.Length
      modifies els[|els| - 1], els[|els| - 1].blocks
      ensures Distinct() && Contents() == old(Contents()) + [x]
    {
      GrownChunk(Chunks(), x);
      AddToLast(x);
    }

    /** Make sure the last element has room. */
    method MakeRoom(capacity: nat)
      requires Valid() && capacity > 0
      modifies this
      ensures Valid() && els != [] && els[|els| - 1].usedCnt < els[|els| - 1].blocks.Length
      ensures Contents() == old(Contents()) && totalCnt == old(totalCnt) && takeCnt == old(takeCnt)
      ensures fresh(Repr - old(Repr))
    {
      if els == [] || els[|els| - 1].usedCnt == els[|els| - 1].blocks.Length {
        ghost var was := Chunks();
        AddElement(capacity);
        FlattenSnoc(was, []);
      } else {
        assert els[|els| - 1].Valid();
      }
    }

    /** `blk_descr_pool_alloc`; `capacity` is that of an element allocated on the way. */
    method Alloc(x: T, capacity: nat)
      requires Valid() && capacity > 0
      modifies this, Repr
      ensures Valid() && Contents() == old(Contents()) + [x] && takeCnt == old(takeCnt)
      ensures fresh(Repr - old(Repr))
    {
      MakeRoom(capacity);
      Append(x);
      ghost var chunks := Chunks();
      totalCnt := totalCnt + 1;
      assert Chunks() == chunks;
    }

    /** `__blk_descr_pool_at`. */
    method At(index: nat) returns (found: Option<T>)
      requires Distinct()
      ensures found == if index < |Contents()| then Some(Contents()[index]) else None
    {
      found := None;
      var currInx, i := 0, 0;
      ghost var chunks := Chunks();
      FlatEnds(chunks);
      while i < |els|
        invariant 0 <= i <= |els| && Distinct() && Chunks() == chunks
        invariant currInx == FlatIndex(chunks, i, 0) <= index && found.None?
      {
        var el := els[i];
        FlatNext(chunks, i);
        if currInx <= index < currInx + el.usedCnt {
          FlatSlot(chunks, i, index - currInx);
          assert chunks[i] == el.Used() && el.Valid();
          return Some(el.blocks[index - currInx]);
        }
        currInx := currInx + el.usedCnt;
        i := i + 1;
      }
    }

    /** `blk_descr_pool_take`: the next descriptor in the order of adding, if one is left. */
    method Take() returns (r: Option<T>)
      requires Valid()
      modifies `takeCnt
      ensures Valid() && Contents() == old(Contents())
      ensures r == if old(takeCnt) < |Contents()| then Some(Contents()[old(takeCnt)]) else None
      ensures takeCnt == if r.Some? then old(takeCnt) + 1 else old(takeCnt)
    {
      ghost var chunks := Chunks();
      if takeCnt >= totalCnt { return None; }
      r := At(takeCnt);
      assert Chunks() == chunks;
      if r.Some? {
        takeCnt := takeCnt + 1;
      }
      assert Chunks() == chunks;
    }
  }

  lemma GrownChunk<T>(chunks: seq<seq<T>>, x: T)
    requires chunks != []
    ensures var n := |chunks| - 1; Flatten(chunks[n := chunks[n] + [x]]) == Flatten(chunks) + [x]
  {
    var n := |chunks| - 1;
    assert chunks == chunks[..n] + [chunks[n]] && chunks[n := chunks[n] + [x]] == chunks[..n] + [chunks[n] + [x]];
    FlattenSnoc(chunks[..n], chunks[n]);
    FlattenSnoc(chunks[..n], chunks[n] + [x]);
  }

  // ---- any sequence of operations ----

  datatype Op<T> = Add(x: T) | TakeOne

  /** What the methods above do to the descriptors added and to those handed out. */
  function Outcome<T>(ops: seq<Op<T>>): (seq<T>, seq<T>) {
    if ops == [] then ([], [])
    else
      var (added, taken) := Outcome(ops[..|ops| - 1]);
      match ops[|ops| - 1]
      case Add(x) => (added + [x], taken)
      case TakeOne => (added, if |taken| < |added| then taken + [added[|taken|]] else taken)
  }

  /** Descriptors are handed out in the order they were added, so none twice. */
  lemma {:induction false} TakenInOrder<T>(ops: seq<Op<T>>)
    ensures var (added, taken) := Outcome(ops);
            |taken| <= |added| && taken == added[..|taken|]
    ensures var (added, taken) := Outcome(ops);
            (forall i, j | 0 <= i < j < |added| :: added[i] != added[j]) ==>
              forall i, j | 0 <= i < j < |taken| :: taken[i] != taken[j]
    decreases |ops|
  {
    if ops != [] {
      TakenInOrder(ops[..|ops| - 1]);
      var (added, taken) := Outcome(ops[..|ops| - 1]);
      match ops[|ops| - 1]
      case Add(x) => assert (added + [x])[..|taken|] == taken;
      case TakeOne =>
    }
  }
}
