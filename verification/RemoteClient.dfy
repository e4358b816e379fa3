/**
 The one-sided client: the same probe walk over the exported array, one RDMA READ per step.
 `link(i)` says what becomes of work request `i` of a call: it completes, or it is lost, and a
 lost WRITE or fetch-and-add may have taken effect all the same.
 */
module RemoteClient {
  import opened CText
  import opened SlotLayout
  import opened ProbeTable
  import opened TableOps
  import opened RdmaStore

  datatype GetOutcome = Found | NotFound | LinkFailed

  datatype SetOutcome = Stored | Rejected(error: SetError) | ReadFailed | WriteFailed

  datatype Work = Done | Lost(landed: bool) {
    predicate TakesEffect() { Done? || landed }
  }

  class Client {
    /** The registered buffer every READ lands in and every WRITE leaves from. */
    var localSlot: Slot

    /** The registered buffer a fetch-and-add returns the old counter in. */
    var atomicResult: nat

    constructor ()
      ensures localSlot == ZEROED && atomicResult == 0
    {
      localSlot := ZEROED;
      atomicResult := 0;
    }

    /**
     One GET. Unless the link fails, the caller gets the map's answer, with the value left in
     `localSlot` and, with `meta`, the old counter in `atomicResult`.
     */
    method OneSidedGet(store: Store, key: Text, meta: bool, link: nat -> Work) returns (outcome: GetOutcome)
      requires store.Valid()
      modifies this, store.slots
      ensures store.Valid()
      ensures OnlyEntriesWritten(old(store.slots[..]), store.slots[..])
      ensures outcome.LinkFailed? ==>
                exists i: nat :: i <= store.layout.n && link(i).Lost?
                  && (store.slots[..] == old(store.slots[..])
                      || (meta && link(i).landed
                          && ClientGet(store.layout, old(store.Cells()), key, meta).1.Some?
                          && store.Cells() == ClientGet(store.layout, old(store.Cells()), key, meta).0))
      ensures !outcome.LinkFailed? ==>
                var (t, found) := ClientGet(store.layout, old(store.Cells()), key, meta);
                && store.Cells() == t
                && (outcome.Found? <==> found.Some?)
                && (outcome.Found? ==> CString(localSlot.value) == found.value.0)
                && (outcome.Found? && meta ==> atomicResult == found.value.1)
    {
      hide Unique, Chained, SolidUpTo, LengthFrom, CString, StrncmpEqual, StopFrom, TombFrom;
      var g := store.layout;
      var n := g.n;
      ghost var t := store.Cells();
      for i := 0 to n
        invariant store.slots[..] == old(store.slots[..])
        invariant forall m :: 0 <= m < i ==> !Stops(t[g.Pos(key, m)], key)
      {
        var idx := g.Pos(key, i);
        if link(i).Lost? {
          return LinkFailed;
        }
        localSlot := store.slots[idx];
        if localSlot.occupied == 0 {
          return NotFound;
        }
        if localSlot.occupied == 2 {
          continue;
        }
        var same := SlotKeyEquals(localSlot.key, key);
        if same {
          assert Stop(g, t, key) == i;
          if meta {
            var ok := FetchAndAdd(store, idx, link(i + 1));
            if !ok {
              return LinkFailed;
            }
          }
          return Found;
        }
      }
      return NotFound;
    }

    /** A fetch-and-add on one remote counter. */
    method FetchAndAdd(store: Store, idx: nat, work: Work) returns (ok: bool)
      requires store.Valid() && idx < store.layout.n && store.slots[idx].occupied == 1
      modifies this`atomicResult, store.slots
      ensures store.Valid() && ok == work.Done?
      ensures OnlyEntriesWritten(old(store.slots[..]), store.slots[..])
      ensures !work.TakesEffect() ==> store.slots[..] == old(store.slots[..])
      ensures work.TakesEffect() ==> store.Cells() == old(store.Cells()[idx := Bumped(store.Cells()[idx])])
      ensures ok ==> atomicResult == old(store.slots[idx].accessCount)
    {
      hide Inv, Unique, Chained, CString, LengthFrom, Slot.WellFormed, Slot.Decode;
      var count := store.slots[idx].accessCount;
      if work.TakesEffect() {
        EntryBumped(store.layout, store.slots[..], idx);
        store.slots[idx] := store.slots[idx].(accessCount := (count + 1) % COUNTER_RANGE);
        assert store.slots[..] == old(store.slots[..])[idx := store.slots[idx]];
      }
      if work.Done? {
        atomicResult := count;
      }
      ok := work.Done?;
    }

    /** Fill the local buffer with a whole slot, unless a size is illegal. */
    method PrepareSlot(key: Text, value: Text, accessCount: nat) returns (error: Option<SetError>)
      requires accessCount < COUNTER_RANGE
      modifies this`localSlot
      ensures error == (if |key| >= KEY_MAX then Some(KeyTooLong)
                        else if |value| >= VALUE_MAX then Some(ValueTooLong)
                        else None)
      ensures localSlot == if error.None? then Filled(key, value, accessCount) else old(localSlot)
      ensures error.None? ==> localSlot.occupied == 1 && localSlot.WellFormed()
      ensures error.None? ==> localSlot.Decode() == Entry(key, value, accessCount)
    {
      if |key| >= KEY_MAX {
        return Some(KeyTooLong);
      }
      if |value| >= VALUE_MAX {
        return Some(ValueTooLong);
      }
      localSlot := Slot(1, accessCount, Padded(key, KEY_MAX), Padded(value, VALUE_MAX));
      return None;
    }

    /** A one-sided WRITE of the local buffer over one remote slot. */
    method RdmaWrite(store: Store, target: nat, work: Work) returns (outcome: SetOutcome)
      requires store.Valid() && target < store.layout.n && localSlot.WellFormed() && localSlot.occupied == 1
      requires Inv(store.layout, store.Cells()[target := localSlot.Decode()])
      modifies store.slots
      ensures store.Valid()
      ensures outcome == if work.Done? then Stored else WriteFailed
      ensures store.slots[..] ==
              if work.TakesEffect() then old(store.slots[..])[target := localSlot] else old(store.slots[..])
      ensures work.TakesEffect() ==> store.Cells() == old(store.Cells())[target := localSlot.Decode()]
      ensures OnlyEntriesWritten(old(store.slots[..]), store.slots[..])
    {
      if work.TakesEffect() {
        SlotWritten(store.layout, store.slots[..], target, localSlot);
        store.slots[target] := localSlot;
        assert store.slots[..] == old(store.slots[..])[target := localSlot];
      }
      outcome := if work.Done? then Stored else WriteFailed;
    }

    /** One SET, by probing with READs and writing one whole slot. */
    method OneSidedSet(store: Store, key: Text, value: Text, link: nat -> Work) returns (outcome: SetOutcome)
      requires store.Valid()
      modifies this, store.slots
      ensures store.Valid()
      ensures OnlyEntriesWritten(old(store.slots[..]), store.slots[..])
      ensures outcome.ReadFailed? ==>
                store.slots[..] == old(store.slots[..]) && exists i: nat :: i <= store.layout.n && link(i).Lost?
      ensures outcome.WriteFailed? ==>
                exists i: nat :: i <= store.layout.n && link(i).Lost?
                  && (!link(i).landed ==> store.slots[..] == old(store.slots[..]))
                  && (link(i).landed ==>
                        ClientSet(store.layout, old(store.Cells()), key, value) == (store.Cells(), None))
      ensures outcome.Stored? || outcome.Rejected? ==>
                var (t, error) := ClientSet(store.layout, old(store.Cells()), key, value);
                && store.Cells() == t
                && (outcome.Stored? <==> error.None?)
                && (outcome.Rejected? ==> error == Some(outcome.error))
      ensures outcome.Stored? ==> StoredBy(old(store.Cells()), store.Cells(), key, value)
      ensures outcome.Rejected? ==> store.slots[..] == old(store.slots[..])
    {
      hide Values, Counts, Vacancies, KeptCount, Unique, Chained, SolidUpTo;
      hide LengthFrom, CString, StrncmpEqual, Inv, StoredBy, ClientSet, Good, Slot.WellFormed, Slot.Decode, Filled;
      var g := store.layout;
      var n := g.n;
      ghost var t := store.Cells();
      TableOf(g, store.slots[..]);
      SetKeepsTable(g, t, key, value);
      if |key| >= KEY_MAX {
        return Rejected(KeyTooLong);
      }
      if |value| >= VALUE_MAX {
        return Rejected(ValueTooLong);
      }
      var sawTombstone := false;
      var firstTombstone := 0;
      ghost var f := 0;
      for i := 0 to n
        invariant store.slots[..] == old(store.slots[..])
        invariant forall m :: 0 <= m < i ==> !Stops(t[g.Pos(key, m)], key)
        invariant f <= i && (sawTombstone <==> f < i)
        invariant forall m :: 0 <= m < f ==> !t[g.Pos(key, m)].Tombstone?
        invariant sawTombstone ==> firstTombstone == g.Pos(key, f) && t[firstTombstone].Tombstone?
      {
        var idx := g.Pos(key, i);
        if link(i).Lost? {
          return ReadFailed;
        }
        localSlot := store.slots[idx];
        CellRead(g, store.slots[..], idx, key);
        var same := SlotKeyEquals(localSlot.key, key);
        if localSlot.occupied == 1 && same {
          var _ := PrepareSlot(key, value, localSlot.accessCount);
          SetEnds(g, t, key, value, i, f);
          outcome := RdmaWrite(store, idx, link(i + 1));
          return;
        }
        if localSlot.occupied == 2 && !sawTombstone {
          sawTombstone := true;
          firstTombstone := idx;
          continue;
        }
        if localSlot.occupied == 0 {
          var target := if sawTombstone then firstTombstone else idx;
          var _ := PrepareSlot(key, value, 0);
          SetEnds(g, t, key, value, i, f);
          outcome := RdmaWrite(store, target, link(i + 1));
          return;
        }
        if !sawTombstone {
          f := i + 1;
        }
      }
      SetEnds(g, t, key, value, n, f);
      if sawTombstone {
        var _ := PrepareSlot(key, value, 0);
        outcome := RdmaWrite(store, firstTombstone, link(n));
        return;
      }
      return Rejected(TableFull);
    }
  }

  lemma TableOf(g: Layout, s: seq<Slot>)
    requires Good(g, s)
    ensures g.Valid() && |s| == g.n && Inv(g, CellsOf(s))
  {
  }

  /** What a slot read says of its cell. */
  lemma CellRead(g: Layout, s: seq<Slot>, p: nat, key: Text)
    requires Good(g, s) && p < |s|
    ensures s[p].accessCount < COUNTER_RANGE
    ensures var c := CellsOf(s)[p];
            && (s[p].occupied == 0 <==> c.Vacant?)
            && (s[p].occupied == 2 <==> c.Tombstone?)
            && (s[p].occupied == 1 <==> c.Entry?)
            && (s[p].occupied == 1 && CString(s[p].key) == key <==> c.Holds(key))
            && (c.Entry? ==> c.count == s[p].accessCount)
  {
    hide Inv, CString;
  }

  /** The map gained exactly this value for this key. */
  ghost predicate StoredBy(t: Table, t': Table, key: string, value: string)
    requires Unique(t) && Unique(t')
  {
    Values(t') == Values(t)[key := value]
  }

  /** Where a walk that met no stop before step `i` and its first tombstone at `f` writes. */
  lemma SetEnds(g: Layout, t: Table, key: string, value: string, i: nat, f: nat)
    requires g.Valid() && |t| == g.n && f <= i <= g.n && LegalSizes(key, value)
    requires forall m :: 0 <= m < i ==> !Stops(t[g.Pos(key, m)], key)
    requires i < g.n ==> Stops(t[g.Pos(key, i)], key)
    requires forall m :: 0 <= m < f ==> !t[g.Pos(key, m)].Tombstone?
    requires f < i ==> t[g.Pos(key, f)].Tombstone?
    ensures ClientSet(g, t, key, value) ==
            if i < g.n && t[g.Pos(key, i)].Entry? then
              var p := g.Pos(key, i); (t[p := Entry(key, value, t[p].count)], None)
            else if f < g.n then (t[g.Pos(key, f) := Entry(key, value, 0)], None)
            else (t, Some(TableFull))
  {
    hide StopFrom, TombFrom;
    assert Stop(g, t, key) == i && FirstTomb(g, t, key, i) == f;
  }

  lemma SetKeepsTable(g: Layout, t: Table, key: string, value: string)
    requires g.Valid() && Inv(g, t)
    ensures var (t', error) := ClientSet(g, t, key, value);
            && Inv(g, t')
            && (error.None? ==> StoredBy(t, t', key, value))
            && (|key| >= KEY_MAX ==> t' == t && error == Some(KeyTooLong))
            && (|key| < KEY_MAX && |value| >= VALUE_MAX ==> t' == t && error == Some(ValueTooLong))
  {
    hide Values, Counts, Unique, Chained, KeptCount, Stop, FirstTomb;
    ClientSetIsMapUpdate(g, t, key, value);
  }

  /** A fetch-and-add on a live slot bumps its entry and touches nothing else. */
  lemma EntryBumped(g: Layout, s: seq<Slot>, p: nat)
    requires Good(g, s) && p < |s| && s[p].occupied == 1
    ensures var slot := s[p].(accessCount := (s[p].accessCount + 1) % COUNTER_RANGE);
            && slot.Decode() == Bumped(s[p].Decode())
            && Good(g, s[p := slot])
            && CellsOf(s[p := slot]) == CellsOf(s)[p := Bumped(s[p].Decode())]
            && OnlyEntriesWritten(s, s[p := slot])
  {
    UpdateKeepsInv(g, CellsOf(s), p, Bumped(s[p].Decode()));
    SlotWritten(g, s, p, s[p].(accessCount := (s[p].accessCount + 1) % COUNTER_RANGE));
  }
}
