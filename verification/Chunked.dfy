/** Lists kept in chunks, and the flat list they stand for. */
module Chunked {

  function Flatten<T>(chunks: seq<seq<T>>): seq<T> {
    if chunks == [] then [] else chunks[0] + Flatten(chunks[1..])
  }

  lemma {:induction false} FlattenAppend<T>(a: seq<seq<T>>, b: seq<seq<T>>)
    ensures Flatten(a + b) == Flatten(a) + Flatten(b)
  {
    if a == [] {
      assert a + b == b;
    } else {
      assert (a + b)[1..] == a[1..] + b;
      FlattenAppend(a[1..], b);
    }
  }

  lemma FlattenSnoc<T>(a: seq<seq<T>>, c: seq<T>)
    ensures Flatten(a + [c]) == Flatten(a) + c
  {
    FlattenAppend(a, [c]);
    assert Flatten([c]) == c + Flatten([]);
  }

  function Lengths<T>(chunks: seq<seq<T>>): (r: seq<nat>)
    ensures |r| == |chunks|
  {
    seq<nat>(|chunks|, i requires 0 <= i < |chunks| => |chunks[i]|)
  }

  /** Where a slot of a chunk lies in the flat list. */
  function FlatIndex<T>(chunks: seq<seq<T>>, i: nat, j: nat): nat
    requires i <= |chunks|
  {
    |Flatten(chunks[..i])| + j
  }

  lemma FlatEnds<T>(chunks: seq<seq<T>>)
    ensures FlatIndex(chunks, 0, 0) == 0 && FlatIndex(chunks, |chunks|, 0) == |Flatten(chunks)|
  {
    assert chunks[..|chunks|] == chunks;
  }

  lemma {:induction false} FlatSplit<T>(chunks: seq<seq<T>>, i: nat)
    requires i < |chunks|
    ensures Flatten(chunks) == Flatten(chunks[..i]) + chunks[i] + Flatten(chunks[i + 1..])
  {
    if i == 0 {
      assert Flatten(chunks[..0]) == [];
    } else {
      FlatSplit(chunks[1..], i - 1);
      assert chunks[1..][i..] == chunks[i + 1..];
      assert chunks[..i][1..] == chunks[1..][..i - 1];
      assert chunks[0] + (Flatten(chunks[..i][1..]) + chunks[i] + Flatten(chunks[i + 1..]))
          == chunks[0] + Flatten(chunks[..i][1..]) + chunks[i] + Flatten(chunks[i + 1..]);
    }
  }

  lemma {:induction false} FlatSlot<T>(chunks: seq<seq<T>>, i: nat, j: nat)
    requires i < |chunks| && j < |chunks[i]|
    ensures FlatIndex(chunks, i, j) < |Flatten(chunks)| && Flatten(chunks)[FlatIndex(chunks, i, j)] == chunks[i][j]
  {
    FlatSplit(chunks, i);
  }

  lemma {:induction false} FlatNext<T>(chunks: seq<seq<T>>, i: nat)
    requires i < |chunks|
    ensures FlatIndex(chunks, i + 1, 0) == FlatIndex(chunks, i, |chunks[i]|) <= |Flatten(chunks)|
  {
    assert chunks[..i + 1] == chunks[..i] + [chunks[i]];
    FlattenSnoc(chunks[..i], chunks[i]);
    FlattenAppend(chunks[..i + 1], chunks[i + 1..]);
    assert chunks == chunks[..i + 1] + chunks[i + 1..];
  }

  /** Changing one slot changes just its place in the flat list. */
  lemma {:induction false} FlatUpdate<T>(chunks: seq<seq<T>>, i: nat, j: nat, v: T)
    requires i < |chunks| && j < |chunks[i]|
    ensures var updated := chunks[i := chunks[i][j := v]];
            && FlatIndex(chunks, i, j) < |Flatten(chunks)|
            && Flatten(updated) == Flatten(chunks)[FlatIndex(chunks, i, j) := v]
  {
    var updated := chunks[i := chunks[i][j := v]];
    FlatSplit(chunks, i);
    FlatSplit(updated, i);
    assert updated[..i] == chunks[..i] && updated[i + 1..] == chunks[i + 1..];
    UpdateMiddle(Flatten(chunks[..i]), chunks[i], Flatten(chunks[i + 1..]), j, v);
  }

  lemma UpdateMiddle<T>(a: seq<T>, b: seq<T>, c: seq<T>, j: nat, v: T)
    requires j < |b|
    ensures a + b[j := v] + c == (a + b + c)[|a| + j := v]
  {
  }
}
