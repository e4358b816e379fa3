/** Tables that run out of empty slots: what the two SETs do then, over whole histories. */
module FullTable {
  import opened CText
  import opened SlotLayout
  import opened ProbeTable
  import opened TableOps
  import opened TableRuns
  import opened Preload
  import Fnv

  // ---------------------------------------------------------------------------
  // Empty slots never come back
  // ---------------------------------------------------------------------------

  lemma OpAddsNoVacancy(g: Layout, t: Table, op: Op)
    requires g.Valid() && Inv(g, t)
    ensures Vacancies(Exec(g, t, op).0) <= Vacancies(t)
  {
    hide Inv, Values, Counts, Vacancies, KeptCount, ServerSet, ServerErase, ClientSet, ClientGet, Lookup, AllEntries;
    match op
    case Set(k, v) => ServerSetIsMapUpdate(g, t, k, v);
    case RemoteSet(k, v) => ClientSetIsMapUpdate(g, t, k, v);
    case Erase(k) => ServerEraseIsMapRemoval(g, t, k);
    case RemoteGet(k, meta) => ClientGetIsMapLookup(g, t, k, meta);
    case Get(_) =>
  }

  /** Over any history the set of empty slots only shrinks. */
  lemma {:induction false} VacanciesShrink(g: Layout, ops: seq<Op>, more: seq<Op>)
    requires g.Valid()
    ensures Vacancies(TableAfter(g, ops + more)) <= Vacancies(TableAfter(g, ops))
  {
    hide Vacancies, Exec;
    if more == [] {
      assert ops + more == ops;
    } else {
      var before := more[..|more| - 1];
      VacanciesShrink(g, ops, before);
      assert (ops + more)[..|ops + more| - 1] == ops + before;
      RunsRefineMap(g, ops + before);
      OpAddsNoVacancy(g, TableAfter(g, ops + before), more[|more| - 1]);
    }
  }

  lemma LastReply(g: Layout, ops: seq<Op>, op: Op)
    requires g.Valid()
    ensures ReplyAt(g, ops + [op], |ops|) == Exec(g, TableAfter(g, ops), op).1
  {
    hide Exec;
    assert (ops + [op])[..|ops|] == ops;
  }

  /**
   Once no empty slot is left, the server refuses every new key in every later history, whatever
   is erased in between; a client stores it exactly when its sizes are legal and the map has
   room.
   */
  lemma FullForGood(g: Layout, ops: seq<Op>, more: seq<Op>, k: string, v: string)
    requires g.Valid() && Vacancies(TableAfter(g, ops)) == {}
    requires k !in MapAfter(g, ops + more)
    ensures ReplyAt(g, ops + more + [Set(k, v)], |ops + more|) == Verdict(false)
    ensures ReplyAt(g, ops + more + [RemoteSet(k, v)], |ops + more|)
            == Verdict(LegalSizes(k, v) && |MapAfter(g, ops + more)| < g.n)
  {
    hide TableAfter, MapAfter, Values, Counts, Vacancies, KeptCount, ServerSet, ClientSet, Inv;
    var whole := ops + more;
    VacanciesShrink(g, ops, more);
    RunsRefineMap(g, whole);
    ServerSetIsMapUpdate(g, TableAfter(g, whole), k, v);
    LastReply(g, whole, Set(k, v));
    RemoteSetVerdict(g, whole, k, v);
  }

  // ---------------------------------------------------------------------------
  // The client's verdict, from the map alone
  // ---------------------------------------------------------------------------

  function EntrySlots(t: Table): set<nat> {
    set p: nat | p < |t| && t[p].Entry?
  }

  function Slots(n: nat): (s: set<nat>)
    ensures |s| == n && forall p: nat :: p in s <==> p < n
  {
    if n == 0 then {} else Slots(n - 1) + {n - 1}
  }

  lemma {:induction false} SubsetSize(s: set<nat>, t: set<nat>)
    requires s <= t
    ensures |s| <= |t| && (|s| == |t| ==> s == t)
  {
    if s != {} {
      var p :| p in s;
      SubsetSize(s - {p}, t - {p});
      assert s == (s - {p}) + {p} && t == (t - {p}) + {p};
    }
  }

  lemma Inhabited<T>(s: set<T>)
    ensures s == {} || exists x :: x in s
  {
    if s != {} {
      var x :| x in s;
    }
  }

  /** Maps that undo each other have the same size. */
  lemma {:induction false} SameSize(m: map<string, nat>, back: map<nat, string>)
    requires forall k :: k in m ==> m[k] in back && back[m[k]] == k
    requires forall p :: p in back ==> back[p] in m && m[back[p]] == p
    ensures |m| == |back|
  {
    if m == map[] {
      Inhabited(back.Keys);
    } else {
      var k :| k in m;
      assert m.Keys == (m - {k}).Keys + {k} && back.Keys == (back - {m[k]}).Keys + {m[k]};
      SameSize(m - {k}, back - {m[k]});
    }
  }

  lemma OneKeyPerSlot(t: Table)
    requires Unique(t)
    ensures |Values(t)| == |Index(t)|
  {
    SameDomain(t);
    hide Values, Index, Unique;
    assert |Values(t)| == |Values(t).Keys| == |Index(t).Keys| == |Index(t)|;
  }

  lemma AllSlotsLive(t: Table)
    ensures |EntrySlots(t)| <= |t|
    ensures |EntrySlots(t)| == |t| <==> AllEntries(t)
  {
    SubsetSize(EntrySlots(t), Slots(|t|));
    if AllEntries(t) {
      assert EntrySlots(t) == Slots(|t|);
    }
    if |EntrySlots(t)| == |t| {
      forall p | 0 <= p < |t|
        ensures t[p].Entry?
      {
        assert p in Slots(|t|);
        assert p in EntrySlots(t);
      }
    }
  }

  /** The map has one key for each live slot. */
  lemma OneKeyPerEntry(g: Layout, t: Table)
    requires g.Valid() && Inv(g, t)
    ensures |Values(t)| <= g.n
    ensures |Values(t)| == g.n <==> AllEntries(t)
  {
    hide Values, Index, Unique, Chained, AllEntries, EntrySlots;
    OneKeyPerSlot(t);
    IndexSize(g, t);
    AllSlotsLive(t);
  }

  lemma IndexSize(g: Layout, t: Table)
    requires g.Valid() && Inv(g, t)
    ensures |Index(t)| == |EntrySlots(t)| && |t| == g.n
  {
    hide Chained;
    var back := map p | p in EntrySlots(t) :: t[p].key;
    forall p | p in back
      ensures back[p] in Index(t) && Index(t)[back[p]] == p
    {
      IndexMember(t, p);
    }
    SameSize(Index(t), back);
    assert back.Keys == EntrySlots(t);
  }

  /** In every history a client's SET succeeds exactly when sizes are legal and the map holds the key or has room. */
  lemma RemoteSetVerdict(g: Layout, ops: seq<Op>, k: string, v: string)
    requires g.Valid()
    ensures ReplyAt(g, ops + [RemoteSet(k, v)], |ops|)
            == Verdict(LegalSizes(k, v) && (k in MapAfter(g, ops) || |MapAfter(g, ops)| < g.n))
  {
    hide TableAfter, MapAfter, Values, ClientSet, Inv, AllEntries;
    RunsRefineMap(g, ops);
    ClientSetErrors(g, TableAfter(g, ops), k, v);
    OneKeyPerEntry(g, TableAfter(g, ops));
    LastReply(g, ops, RemoteSet(k, v));
    var error := ClientSet(g, TableAfter(g, ops), k, v).1;
    assert error.Some? ==> error.value.KeyTooLong? || error.value.ValueTooLong? || error.value.TableFull?;
  }

  // ---------------------------------------------------------------------------
  // A history that ends there
  // ---------------------------------------------------------------------------

  predicate Distinct(keys: seq<string>) {
    forall i, j :: 0 <= i < j < |keys| ==> keys[i] != keys[j]
  }

  /** Each key set once. */
  function Sets(keys: seq<string>, v: string): (ops: seq<Op>)
    ensures |ops| == |keys| && forall i :: 0 <= i < |keys| ==> ops[i] == Set(keys[i], v)
  {
    seq(|keys|, i requires 0 <= i < |keys| => Set(keys[i], v))
  }

  lemma OneMoreSet(g: Layout, t: Table, k: string, v: string)
    requires g.Valid() && Inv(g, t) && NoTombstones(t) && |Vacancies(t)| > 0
    requires LegalSizes(k, v) && k !in Values(t)
    ensures var t' := Exec(g, t, Set(k, v)).0;
            && NoTombstones(t') && |Vacancies(t')| == |Vacancies(t)| - 1
            && forall x :: x in Values(t') <==> x in Values(t) || x == k
  {
    hide Inv, Values, Counts, Vacancies, NoTombstones, ServerSet, LegalSizes;
    SomeVacancy(Vacancies(t));
    NewKeyTakesOneVacancy(g, t, k, v);
    SetIsViewStep(g, t, Set(k, v));
  }

  /** Filling a fresh table with distinct keys takes one empty slot each. */
  lemma {:induction false} FillingTakesSlots(g: Layout, keys: seq<string>, v: string)
    requires g.Valid() && Distinct(keys) && |keys| <= g.n
    requires forall i :: 0 <= i < |keys| ==> LegalSizes(keys[i], v)
    ensures var t := TableAfter(g, Sets(keys, v));
            && Inv(g, t) && NoTombstones(t)
            && |Vacancies(t)| == g.n - |keys|
            && forall k :: k in Values(t) <==> k in keys
  {
    hide Inv, Values, Vacancies, NoTombstones, LegalSizes, Exec, MapAfter, Layout.Valid;
    RunsRefineMap(g, Sets(keys, v));
    if keys == [] {
      NothingSet(g, v);
    } else {
      var before, last := keys[..|keys| - 1], keys[|keys| - 1];
      FillingTakesSlots(g, before, v);
      assert Sets(keys, v)[..|keys| - 1] == Sets(before, v);
      OneMoreSet(g, TableAfter(g, Sets(before, v)), last, v);
      assert keys == before + [last];
    }
  }

  lemma SomeVacancy(s: set<nat>)
    ensures |s| > 0 ==> s != {}
  {
  }

  lemma NothingSet(g: Layout, v: string)
    requires g.Valid()
    ensures var t := TableAfter(g, Sets([], v));
            NoTombstones(t) && |Vacancies(t)| == g.n && forall k :: k !in Values(t)
  {
    assert Sets([], v) == [];
    EmptyTableIsEmptyMap(g);
    AllVacant(EmptyTable(g));
  }

  lemma NoneLeft(s: set<nat>)
    requires |s| == 0
    ensures s == {}
  {
  }

  /**
   The disagreement, on every layout: fill the table with distinct keys, erase one, and set a new
   one.  The server refuses it and a client stores it.
   */
  lemma TombstoneServesClientOnly(g: Layout, keys: seq<string>, v: string, j: nat, k: string)
    requires g.Valid() && Distinct(keys) && |keys| == g.n && j < g.n && k !in keys
    requires LegalSizes(k, v) && forall i :: 0 <= i < |keys| ==> LegalSizes(keys[i], v)
    ensures var ops := Sets(keys, v) + [Erase(keys[j])];
            && ReplyAt(g, ops, g.n) == Verdict(true)
            && ReplyAt(g, ops + [Set(k, v)], g.n + 1) == Verdict(false)
            && ReplyAt(g, ops + [RemoteSet(k, v)], g.n + 1) == Verdict(true)
  {
    hide TableAfter, MapAfter, Values, Vacancies, NoTombstones, LegalSizes, Inv, Exec;
    var filled, erase := Sets(keys, v), Erase(keys[j]);
    FillingTakesSlots(g, keys, v);
    NoneLeft(Vacancies(TableAfter(g, filled)));
    RunsRefineMap(g, filled);
    ErasedKey(g, filled, keys[j]);
    assert k !in MapAfter(g, filled + [erase]);
    OneKeyPerEntry(g, TableAfter(g, filled));
    FullForGood(g, filled, [erase], k, v);
  }

  lemma ErasedKey(g: Layout, ops: seq<Op>, k: string)
    requires g.Valid() && k in MapAfter(g, ops)
    ensures ReplyAt(g, ops + [Erase(k)], |ops|) == Verdict(true)
    ensures MapAfter(g, ops + [Erase(k)]) == MapAfter(g, ops) - {k}
    ensures |MapAfter(g, ops + [Erase(k)])| == |MapAfter(g, ops)| - 1
  {
    hide TableAfter, Exec, ReplyAt;
    var longer := ops + [Erase(k)];
    assert longer[..|ops|] == ops;
    RepliesAreMapReplies(g, longer, |ops|);
    var m := MapAfter(g, ops);
    assert m.Keys == (m - {k}).Keys + {k};
  }

  /** "key0", "key1", ... */
  function Numbered(n: nat): (keys: seq<string>)
    requires n <= INT_RANGE
    ensures |keys| == n && forall i :: 0 <= i < n ==> keys[i] == PreloadKey(i)
  {
    seq(n, i requires 0 <= i < n => PreloadKey(i))
  }

  lemma NumberedKeys(n: nat)
    requires n < INT_RANGE
    ensures Distinct(Numbered(n)) && PreloadKey(n) !in Numbered(n)
  {
    hide Numbered, PreloadKey;
    var keys := Numbered(n);
    forall i, j | 0 <= i < j <= n
      ensures PreloadKey(i) != PreloadKey(j)
    {
      if PreloadKey(i) == PreloadKey(j) {
        PreloadKeysDistinct(i, j);
      }
    }
  }

  /** On the shipped table: preload as many numbered keys as it has slots, erase the first, and set the next. */
  lemma ShippedTableRefuses(v: string)
    requires |v| < VALUE_MAX
    ensures var g, n := Fnv.ShippedLayout(), 4096;
            var ops := Sets(Numbered(n), v) + [Erase(PreloadKey(0))];
            && ReplyAt(g, ops + [Set(PreloadKey(n), v)], n + 1) == Verdict(false)
            && ReplyAt(g, ops + [RemoteSet(PreloadKey(n), v)], n + 1) == Verdict(true)
  {
    hide ReplyAt, PreloadKey, Numbered, Sets, Distinct;
    NumberedKeys(4096);
    TombstoneServesClientOnly(Fnv.ShippedLayout(), Numbered(4096), v, 0, PreloadKey(4096));
  }
}
