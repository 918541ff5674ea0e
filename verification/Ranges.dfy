/** Sector ranges (`range.h`, `rangelist.h`) and the sectors a list of them names, in order. */
module Ranges {

  datatype Range = Range(ofs: nat, cnt: nat)

  function Span(r: Range): (s: seq<nat>)
    ensures |s| == r.cnt
    ensures forall i :: 0 <= i < r.cnt ==> s[i] == r.ofs + i
  {
    seq(r.cnt, i => r.ofs + i)
  }

  /** The sectors of a range list, range after range. */
  function Sectors(list: seq<Range>): seq<nat> {
    if list == [] then [] else Span(list[0]) + Sectors(list[1..])
  }

  lemma {:induction false} SectorsAppend(a: seq<Range>, b: seq<Range>)
    ensures Sectors(a + b) == Sectors(a) + Sectors(b)
  {
    if a == [] {
      assert a + b == b;
    } else {
      assert (a + b)[1..] == a[1..] + b;
      SectorsAppend(a[1..], b);
    }
  }

  lemma SectorsSnoc(a: seq<Range>, r: Range)
    ensures Sectors(a + [r]) == Sectors(a) + Span(r)
  {
    SectorsAppend(a, [r]);
    assert Sectors([r]) == Span(r) + Sectors([]);
  }

  predicate NoRepeats(s: seq<nat>) {
    forall i, j :: 0 <= i < j < |s| ==> s[i] != s[j]
  }
}
