/** The map from blocks to descriptors (`blk_descr_array.c`): groups of 256 slots, allocated when needed. */
module BlkDescrArray {
  import opened Basics
  import opened PageArrays
  import opened FlatBitmap

  const GROUP_LENGTH: nat := 256 // BLK_DESCR_GROUP_LENGTH
  const PTRS_PER_PAGE: nat := 512

  /** `blk_descr_array_group_t`. */
  class Group<V(0)> {
    var cnt: nat
    const bitmap: array<bv8>
    const values: array<V>

    ghost predicate Valid() {
      bitmap.Length == GROUP_LENGTH / BITS && values.Length == GROUP_LENGTH
    }

    predicate Has(i: nat)
      requires Valid() && i < GROUP_LENGTH
      reads bitmap
    {
      BitOf(bitmap[i / BITS], i % BITS)
    }

    ghost function Slot(i: nat): Option<V>
      requires Valid() && i < GROUP_LENGTH
      reads bitmap, values
    {
      if Has(i) then Some(values[i]) else None
    }

    constructor ()
      ensures Valid() && cnt == 0 && fresh(bitmap) && fresh(values)
      ensures forall i | 0 <= i < GROUP_LENGTH :: Slot(i) == None
    {
      cnt := 0;
      bitmap := new bv8[GROUP_LENGTH / BITS](_ => 0);
      values := new V[GROUP_LENGTH];
    }

    method Set(i: nat, value: V)
      requires Valid() && i < GROUP_LENGTH
      modifies this, bitmap, values
      ensures Slot(i) == Some(value) && forall j | 0 <= j < GROUP_LENGTH && j != i :: Slot(j) == old(Slot(j))
      ensures cnt == old(cnt) + if old(Slot(i)) == None then 1 else 0
    {
      var k := i / BITS;
      ghost var was := bitmap[k];
      if !Has(i) {
        bitmap[k] := bitmap[k] | Mask(i % BITS);
        cnt := cnt + 1;
      }
      values[i] := value;
      forall j | 0 <= j < BITS
        ensures BitOf(bitmap[k], j) == (j == i % BITS || BitOf(was, j))
      {
        MaskedBit(was, i % BITS, j);
      }
      forall j | 0 <= j < GROUP_LENGTH && j != i
        ensures Slot(j) == old(Slot(j))
      {
        assert j / BITS == k ==> j % BITS != i % BITS;
      }
    }
  }

  function GroupsFor(n: nat): nat {
    n / GROUP_LENGTH + if n % GROUP_LENGTH != 0 then 1 else 0
  }

  /** `blk_descr_array_t`. */
  class DescrArray<V(0)> {
    const first: nat
    const last: nat
    const groupCount: nat
    const groups: PageArray<Group?<V>>
    ghost var flat: seq<Group?<V>> // the pointers in order
    ghost var Repr: set<object>    // the pages, the groups and their arrays

    ghost predicate Valid()
      reads this, Repr
    {
      && this !in Repr && (forall p | p in groups.pages :: p in Repr)
      && groups.Valid() && groups.pageLen == PTRS_PER_PAGE && flat == groups.Flat()
      && first <= last + 1 && groupCount == GroupsFor(last + 1 - first) <= |flat|
      && (forall g | 0 <= g < |flat| && flat[g] != null ::
            flat[g].Valid() && flat[g] in Repr && flat[g].bitmap in Repr && flat[g].values in Repr)
      && (forall g, h | 0 <= g < h < |flat| && flat[g] != null && flat[h] != null ::
            flat[g] != flat[h] && flat[g].bitmap != flat[h].bitmap && flat[g].values != flat[h].values)
    }

    /** The slot of a block inside the range. */
    ghost function SlotAt(k: nat): Option<V>
      requires Valid() && k / GROUP_LENGTH < |flat|
      reads this, Repr
    {
      var group := flat[k / GROUP_LENGTH];
      if group == null then None else group.Slot(k % GROUP_LENGTH)
    }

    lemma InGroups(inx: nat)
      requires Valid() && first <= inx <= last
      ensures (inx - first) / GROUP_LENGTH < groupCount
    {
    }

    ghost function SlotOf(inx: nat): Option<V>
      requires Valid()
      reads this, Repr
    {
      if first <= inx <= last then
        InGroups(inx);
        SlotAt(inx - first)
      else None
    }

    /** The map: which blocks have a descriptor, and which one. */
    ghost function Map(): map<nat, V>
      requires Valid()
      reads this, Repr
    {
      map inx: nat | inx <= last && SlotOf(inx).Some? :: SlotOf(inx).value
    }

    /** `blk_descr_array_init`. */
    constructor (first: nat, last: nat)
      requires first <= last + 1
      ensures Valid() && this.first == first && this.last == last && Map() == map[]
      ensures fresh(Repr)
    {
      var count := GroupsFor(last + 1 - first);
      var pageCount := count / PTRS_PER_PAGE + if count % PTRS_PER_PAGE != 0 then 1 else 0;
      var arr := new PageArray<Group?<V>>(PTRS_PER_PAGE, pageCount);
      arr.Memset(null);
      this.first, this.last, groupCount, groups := first, last, count, arr;
      flat, Repr := arr.Flat(), set p | p in arr.pages;
    }

    /** `blk_descr_array_get`. */
    method Get(inx: nat) returns (res: Status, value: Option<V>)
      requires Valid()
      ensures res == if !(first <= inx <= last) then EInval else if inx in Map() then Success else ENoData
      ensures value == if res == Success then Some(Map()[inx]) else None
    {
      value := None;
      if inx < first || last < inx { return EInval, None; }
      InGroups(inx);
      var st, group := groups.Get((inx - first) / GROUP_LENGTH, null);
      assert SlotOf(inx) == SlotAt(inx - first);
      if group == null { return ENoData, None; }
      var valIdx := (inx - first) % GROUP_LENGTH;
      if !group.Has(valIdx) { return ENoData, None; }
      return Success, Some(group.values[valIdx]);
    }

    /** Put an empty group where there is none. */
    method NewGroup(g: nat)
      requires Valid() && g < |flat| && flat[g] == null
      modifies this, groups.pages
      ensures Valid() && flat[g] != null && flat == old(flat)[g := flat[g]]
      ensures fresh(flat[g]) && fresh(flat[g].bitmap) && fresh(flat[g].values) && fresh(Repr - old(Repr))
      ensures forall i | 0 <= i < GROUP_LENGTH :: flat[g].Slot(i) == None
    {
      var group := new Group<V>();
      var st := groups.Set(g, group);
      flat, Repr := groups.Flat(), Repr + {group, group.bitmap, group.values};
    }

    /** The group of a slot, allocated if needed. */
    method FindGroup(g: nat) returns (group: Group<V>)
      requires Valid() && g < |flat|
      modifies this, groups.pages
      ensures Valid() && group == flat[g] && |flat| == |old(flat)|
      ensures fresh(Repr - old(Repr))
      ensures forall k: nat | k / GROUP_LENGTH < |flat| :: SlotAt(k) == old(SlotAt(k))
    {
      var st, found := groups.Get(g, null);
      if found != null { return found; }
      NewGroup(g);
      st, found := groups.Get(g, null);
      group := found;
      forall k: nat | k / GROUP_LENGTH < |flat|
        ensures SlotAt(k) == old(SlotAt(k))
      {
        assert k / GROUP_LENGTH != g ==> flat[k / GROUP_LENGTH] == old(flat)[k / GROUP_LENGTH];
      }
    }

    /** Set one slot of a group. */
    method Fill(ghost g: nat, group: Group<V>, valIdx: nat, value: V)
      requires Valid() && g < |flat| && flat[g] == group && valIdx < GROUP_LENGTH
      modifies group, group.bitmap, group.values
      ensures Valid()
      ensures forall k: nat | k / GROUP_LENGTH < |flat| ::
                SlotAt(k) == if k == g * GROUP_LENGTH + valIdx then Some(value) else old(SlotAt(k))
    {
      group.Set(valIdx, value);
      forall k: nat | k / GROUP_LENGTH < |flat|
        ensures SlotAt(k) == if k == g * GROUP_LENGTH + valIdx then Some(value) else old(SlotAt(k))
      {
        var h := k / GROUP_LENGTH;
        if h != g && flat[h] != null {
          assert flat[h] != flat[g] && flat[h].bitmap != flat[g].bitmap && flat[h].values != flat[g].values;
        }
      }
    }

    /** `blk_descr_array_set`. */
    method Set(inx: nat, value: V) returns (res: Status)
      requires Valid()
      modifies this, Repr
      ensures Valid() && fresh(Repr - old(Repr))
      ensures res == if first <= inx <= last then Success else EInval
      ensures Map() == if res == Success then old(Map())[inx := value] else old(Map())
    {
      if !(first <= inx <= last) { return EInval; }
      InGroups(inx);
      var g, valIdx := (inx - first) / GROUP_LENGTH, (inx - first) % GROUP_LENGTH;
      var group := FindGroup(g);
      Fill(g, group, valIdx, value);
      res := Success;
      forall j: nat | first <= j <= last
        ensures SlotOf(j) == if j == inx then Some(value) else old(SlotOf(j))
      {
        InGroups(j);
      }
    }
  }
}
