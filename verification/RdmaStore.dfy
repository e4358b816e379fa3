/** The exported slot array, mutated in place by the server and by remote clients. */
module RdmaStore {
  import opened Bits
  import opened CText
  import opened SlotLayout
  import opened ProbeTable
  import opened TableOps

  /** The table a slot array stands for. */
  function CellsOf(s: seq<Slot>): (t: Table)
    ensures |t| == |s|
    ensures forall p :: 0 <= p < |s| ==> t[p] == s[p].Decode()
  {
    seq(|s|, p requires 0 <= p < |s| => s[p].Decode())
  }

  ghost predicate Good(g: Layout, s: seq<Slot>) {
    && g.Valid()
    && |s| == g.n
    && (forall p :: 0 <= p < |s| ==> s[p].WellFormed())
    && Inv(g, CellsOf(s))
  }

  /** Bytes change only by writing an entry whole or by marking a slot erased. */
  predicate OnlyEntriesWritten(before: seq<Slot>, after: seq<Slot>) {
    |before| == |after|
    && forall p :: 0 <= p < |after| ==>
         after[p] == before[p] || after[p].occupied == 1 || after[p] == before[p].(occupied := 2)
  }

  /** One slot written in a good array: the table changes in that cell, and stays good if it keeps the table invariant. */
  lemma SlotWritten(g: Layout, s: seq<Slot>, p: nat, slot: Slot)
    requires Good(g, s) && p < |s| && slot.WellFormed()
    requires slot.occupied == 1 || slot == s[p].(occupied := 2)
    requires Inv(g, CellsOf(s)[p := slot.Decode()])
    ensures CellsOf(s[p := slot]) == CellsOf(s)[p := slot.Decode()]
    ensures Good(g, s[p := slot])
    ensures OnlyEntriesWritten(s, s[p := slot])
  {
    assert CellsOf(s[p := slot]) == CellsOf(s)[p := slot.Decode()];
  }

  class Store {
    const layout: Layout
    const slots: array<Slot>

    ghost predicate Valid()
      reads this, slots
    {
      slots.Length == layout.n && Good(layout, slots[..])
    }

    ghost function Cells(): Table
      reads this, slots
    {
      CellsOf(slots[..])
    }

    /** An empty table with every slot zeroed. */
    constructor (layout: Layout)
      requires layout.Valid()
      ensures Valid() && this.layout == layout && fresh(slots)
      ensures Values(Cells()) == map[]
      ensures forall p :: 0 <= p < |Cells()| ==> Cells()[p].Vacant?
    {
      this.layout := layout;
      slots := new Slot[layout.n](_ => ZEROED);
      new;
      StoreThenRead("", KEY_MAX);
      StoreThenRead("", VALUE_MAX);
      assert Index(Cells()) == map[];
    }

    method Set(key: Text, value: Text) returns (ok: bool)
      requires Valid()
      modifies slots
      ensures Valid()
      ensures (Cells(), ok) == ServerSet(layout, old(Cells()), key, value)
      ensures OnlyEntriesWritten(old(slots[..]), slots[..])
      ensures ok <==> LegalSizes(key, value)
                      && (key in Values(old(Cells())) || Vacancies(old(Cells())) != {})
      ensures Values(Cells()) == if ok then Values(old(Cells()))[key := value] else Values(old(Cells()))
    {
      hide Values, Vacancies, Counts, KeptCount, Unique, Chained, Index;
      hide LengthFrom, CString, And, StrncmpEqual, StopFrom, TombFrom;
      ghost var t := Cells();
      ServerSetIsMapUpdate(layout, t, key, value);
      if |key| >= KEY_MAX {
        return false;
      }
      if |value| >= VALUE_MAX {
        return false;
      }
      var n := layout.n;
      var firstTombstone := n;
      ghost var f := 0;
      for i := 0 to n
        invariant slots[..] == old(slots[..])
        invariant forall m :: 0 <= m < i ==> !Stops(t[layout.Pos(key, m)], key)
        invariant f <= i
        invariant forall m :: 0 <= m < f ==> !t[layout.Pos(key, m)].Tombstone?
        invariant firstTombstone == if f < i then layout.Pos(key, f) else n
        invariant f < i ==> t[firstTombstone].Tombstone?
      {
        var probe := layout.Pos(key, i);
        var slot := slots[probe];
        LiveKeyTest(slot, key);
        if slot.occupied == 1 && StrncmpEqual(slot.key, key, KEY_MAX, 0) {
          StoreThenRead(value, VALUE_MAX);
          SlotWritten(layout, slots[..], probe, slot.(value := Padded(value, VALUE_MAX)));
          slots[probe] := slot.(value := Padded(value, VALUE_MAX));
          assert slots[..] == old(slots[..])[probe := slots[probe]];
          return true;
        }
        if slot.occupied == 2 && firstTombstone == n {
          firstTombstone := probe;
        }
        if slot.occupied == 0 {
          var target := if firstTombstone != n then firstTombstone else probe;
          SlotWritten(layout, slots[..], target, Filled(key, value, 0));
          slots[target] := Filled(key, value, 0);
          assert slots[..] == old(slots[..])[target := slots[target]];
          return true;
        }
        if firstTombstone == n {
          f := i + 1;
        }
      }
      return false;
    }

    method Get(key: Text) returns (found: Option<Text>)
      requires Valid()
      ensures found == Find(Values(Cells()), key)
    {
      hide Values, Unique, Chained, Index, LengthFrom, CString, And, StrncmpEqual, StopFrom, TombFrom;
      LookupIsMapLookup(layout, Cells(), key);
      var n := layout.n;
      for i := 0 to n
        invariant forall m :: 0 <= m < i ==> !Stops(Cells()[layout.Pos(key, m)], key)
      {
        var slot := slots[layout.Pos(key, i)];
        if slot.occupied == 0 {
          return None;
        }
        if slot.occupied == 2 {
          continue;
        }
        KeyTestsAgree(slot, key);
        if StrncmpEqual(slot.key, key, KEY_MAX, 0) {
          return Some(CString(slot.value));
        }
      }
      return None;
    }

    method Erase(key: Text) returns (ok: bool)
      requires Valid()
      modifies slots
      ensures Valid()
      ensures (Cells(), ok) == ServerErase(layout, old(Cells()), key)
      ensures OnlyEntriesWritten(old(slots[..]), slots[..])
      ensures ok <==> key in Values(old(Cells()))
      ensures Values(Cells()) == Values(old(Cells())) - {key}
    {
      hide Values, Vacancies, Counts, Unique, Chained, Index, LengthFrom, CString, And, StrncmpEqual, StopFrom, TombFrom;
      ghost var t := Cells();
      ServerEraseIsMapRemoval(layout, t, key);
      var n := layout.n;
      for i := 0 to n
        invariant slots[..] == old(slots[..])
        invariant forall m :: 0 <= m < i ==> !Stops(t[layout.Pos(key, m)], key)
      {
        var probe := layout.Pos(key, i);
        var slot := slots[probe];
        if slot.occupied == 0 {
          return false;
        }
        if slot.occupied == 2 {
          continue;
        }
        KeyTestsAgree(slot, key);
        if StrncmpEqual(slot.key, key, KEY_MAX, 0) {
          SlotWritten(layout, slots[..], probe, slot.(occupied := 2));
          slots[probe] := slot.(occupied := 2);
          assert slots[..] == old(slots[..])[probe := slots[probe]];
          return true;
        }
      }
      return false;
    }
  }
}
