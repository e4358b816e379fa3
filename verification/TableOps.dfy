/**
 The operations of the one-sided table, on the server and from a remote client, and what
 each does to the map the table represents.
 */
module TableOps {
  import opened ProbeTable
  import opened SlotLayout

  datatype Option<+T> = None | Some(value: T)

  /** The map's answer for a key. */
  function Find<V>(m: map<string, V>, k: string): Option<V> {
    if k in m then Some(m[k]) else None
  }

  // ---------------------------------------------------------------------------
  // Server side
  // ---------------------------------------------------------------------------

  function ServerSet(g: Layout, t: Table, k: string, v: string): (r: (Table, bool))
    requires g.Valid() && |t| == g.n
    ensures |r.0| == g.n
  {
    var j := Stop(g, t, k);
    if !LegalSizes(k, v) || j == g.n then (t, false)
    else if t[g.Pos(k, j)].Entry? then
      var p := g.Pos(k, j);
      (t[p := t[p].(value := v)], true)
    else
      (t[g.Pos(k, FirstTomb(g, t, k, j)) := Entry(k, v, 0)], true)
  }

  function Lookup(g: Layout, t: Table, k: string): Option<string>
    requires g.Valid() && |t| == g.n
  {
    var j := Stop(g, t, k);
    if j < g.n && t[g.Pos(k, j)].Entry? then Some(t[g.Pos(k, j)].value) else None
  }

  function ServerErase(g: Layout, t: Table, k: string): (r: (Table, bool))
    requires g.Valid() && |t| == g.n
    ensures |r.0| == g.n
  {
    var j := Stop(g, t, k);
    if j < g.n && t[g.Pos(k, j)].Entry? then (t[g.Pos(k, j) := Tombstone], true) else (t, false)
  }

  // ---------------------------------------------------------------------------
  // Remote client
  // ---------------------------------------------------------------------------

  datatype SetError = KeyTooLong | ValueTooLong | TableFull

  function ClientSet(g: Layout, t: Table, k: string, v: string): (r: (Table, Option<SetError>))
    requires g.Valid() && |t| == g.n
    ensures |r.0| == g.n
  {
    var j := Stop(g, t, k);
    var f := FirstTomb(g, t, k, j);
    if |k| >= KEY_MAX then (t, Some(KeyTooLong))
    else if |v| >= VALUE_MAX then (t, Some(ValueTooLong))
    else if j < g.n && t[g.Pos(k, j)].Entry? then
      var p := g.Pos(k, j);
      (t[p := Entry(k, v, t[p].count)], None)
    else if f < g.n then (t[g.Pos(k, f) := Entry(k, v, 0)], None)
    else (t, Some(TableFull))
  }

  /** The counter after one fetch-and-add, with 64-bit wrap-around. */
  function Bumped(c: Cell): Cell
    requires c.Entry?
  {
    c.(count := (c.count + 1) % COUNTER_RANGE)
  }

  /** A remote GET; with `meta` it also adds one to the counter it found and reports the old count. */
  function ClientGet(g: Layout, t: Table, k: string, meta: bool): (r: (Table, Option<(string, nat)>))
    requires g.Valid() && |t| == g.n
    ensures |r.0| == g.n
  {
    var j := Stop(g, t, k);
    if j < g.n && t[g.Pos(k, j)].Entry? then
      var p := g.Pos(k, j);
      (if meta then t[p := Bumped(t[p])] else t, Some((t[p].value, t[p].count)))
    else (t, None)
  }

  // ---------------------------------------------------------------------------
  // Refinement of the plain map, operation by operation
  // ---------------------------------------------------------------------------

  /** The counter a write leaves: kept on overwrite, zero on fresh insertion. */
  ghost function KeptCount(t: Table, k: string): nat
    requires Unique(t)
  {
    if k in Counts(t) then Counts(t)[k] else 0
  }

  /** Where both sides put a key that is not stored: an earlier tombstone, else the vacant slot. */
  lemma InsertAtTarget(g: Layout, t: Table, k: string, v: string)
    requires g.Valid() && Inv(g, t) && k !in Index(t)
    requires FirstTomb(g, t, k, Stop(g, t, k)) < g.n
    ensures var p := g.Pos(k, FirstTomb(g, t, k, Stop(g, t, k)));
            var t' := t[p := Entry(k, v, 0)];
            && Inv(g, t')
            && Values(t') == Values(t)[k := v]
            && KeptCount(t, k) == 0
            && Counts(t') == Counts(t)[k := KeptCount(t, k)]
            && Vacancies(t') == Vacancies(t) - {p}
  {
    var j := Stop(g, t, k);
    var f := FirstTomb(g, t, k, j);
    WalkDecidesMembership(g, t, k);
    assert SolidUpTo(g, t, k, f);
    assert !t[g.Pos(k, f)].Entry?;
    InsertKeepsInv(g, t, f, Entry(k, v, 0));
    InsertViews(t, g.Pos(k, f), Entry(k, v, 0));
    VacanciesAfterWrite(t, g.Pos(k, f), Entry(k, v, 0));
  }

  lemma OverwriteEntry(g: Layout, t: Table, k: string, v: string)
    requires g.Valid() && Inv(g, t) && k in Index(t)
    ensures var p := g.Pos(k, Stop(g, t, k));
            var t' := t[p := Entry(k, v, t[p].count)];
            && t[p].Holds(k)
            && t[p].(value := v) == Entry(k, v, t[p].count)
            && Inv(g, t')
            && Values(t') == Values(t)[k := v]
            && Counts(t') == Counts(t)[k := KeptCount(t, k)]
            && Vacancies(t') == Vacancies(t)
  {
    var p := g.Pos(k, Stop(g, t, k));
    WalkDecidesMembership(g, t, k);
    UpdateKeepsInv(g, t, p, Entry(k, v, t[p].count));
    UpdateViews(t, p, Entry(k, v, t[p].count));
    VacanciesAfterWrite(t, p, Entry(k, v, t[p].count));
  }

  lemma NoVacancyWithoutStop(g: Layout, t: Table, k: string)
    requires g.Valid() && |t| == g.n && Stop(g, t, k) == g.n
    ensures Vacancies(t) == {}
  {
    forall p | 0 <= p < g.n
      ensures !t[p].Vacant?
    {
      assert g.Pos(k, g.Offset(k, p)) == p;
    }
  }

  lemma ServerSetIsMapUpdate(g: Layout, t: Table, k: string, v: string)
    requires g.Valid() && Inv(g, t)
    ensures var (t', ok) := ServerSet(g, t, k, v);
            && Inv(g, t')
            && (ok <==> LegalSizes(k, v) && (k in Values(t) || Vacancies(t) != {}))
            && (ok ==> Values(t') == Values(t)[k := v] && Counts(t') == Counts(t)[k := KeptCount(t, k)])
            && (!ok ==> t' == t)
            && Vacancies(t') <= Vacancies(t)
  {
    var j := Stop(g, t, k);
    WalkDecidesMembership(g, t, k);
    if k in Index(t) {
      OverwriteEntry(g, t, k, v);
    } else if j < g.n {
      assert g.Pos(k, j) in Vacancies(t);
      InsertAtTarget(g, t, k, v);
    } else {
      NoVacancyWithoutStop(g, t, k);
    }
  }

  lemma LookupIsMapLookup(g: Layout, t: Table, k: string)
    requires g.Valid() && Inv(g, t)
    ensures Lookup(g, t, k) == Find(Values(t), k)
  {
    WalkDecidesMembership(g, t, k);
  }

  lemma ServerEraseIsMapRemoval(g: Layout, t: Table, k: string)
    requires g.Valid() && Inv(g, t)
    ensures var (t', ok) := ServerErase(g, t, k);
            && Inv(g, t')
            && (ok <==> k in Values(t))
            && Values(t') == Values(t) - {k}
            && Counts(t') == Counts(t) - {k}
            && Vacancies(t') == Vacancies(t)
  {
    WalkDecidesMembership(g, t, k);
    if k in Index(t) {
      EraseKeepsInv(g, t, g.Pos(k, Stop(g, t, k)));
      EraseViews(t, g.Pos(k, Stop(g, t, k)));
      VacanciesAfterWrite(t, g.Pos(k, Stop(g, t, k)), Tombstone);
    } else {
      assert Values(t) - {k} == Values(t) && Counts(t) - {k} == Counts(t);
    }
  }

  ghost predicate AllEntries(t: Table) {
    forall p :: 0 <= p < |t| ==> t[p].Entry?
  }

  lemma AllEntriesWithoutTarget(g: Layout, t: Table, k: string)
    requires g.Valid() && Inv(g, t) && k !in Index(t)
    ensures FirstTomb(g, t, k, Stop(g, t, k)) == g.n <==> AllEntries(t)
  {
    WalkDecidesMembership(g, t, k);
    var f := FirstTomb(g, t, k, Stop(g, t, k));
    if f == g.n {
      forall p | 0 <= p < g.n
        ensures t[p].Entry?
      {
        assert g.Pos(k, g.Offset(k, p)) == p;
      }
    } else {
      assert !t[g.Pos(k, f)].Entry?;
    }
  }

  lemma ClientSetIsMapUpdate(g: Layout, t: Table, k: string, v: string)
    requires g.Valid() && Inv(g, t)
    ensures var (t', error) := ClientSet(g, t, k, v);
            && Inv(g, t')
            && (error.None? ==> Values(t') == Values(t)[k := v] && Counts(t') == Counts(t)[k := KeptCount(t, k)])
            && (error.Some? ==> t' == t)
            && Vacancies(t') <= Vacancies(t)
  {
    hide Values, Counts, Vacancies, KeptCount;
    WalkDecidesMembership(g, t, k);
    if k in Index(t) {
      OverwriteEntry(g, t, k, v);
    } else if FirstTomb(g, t, k, Stop(g, t, k)) < g.n {
      InsertAtTarget(g, t, k, v);
    }
  }

  /** Exactly when the client's SET fails; with legal sizes, only if every slot holds another key. */
  lemma ClientSetErrors(g: Layout, t: Table, k: string, v: string)
    requires g.Valid() && Inv(g, t)
    ensures var error := ClientSet(g, t, k, v).1;
            && (error == Some(KeyTooLong) <==> |k| >= KEY_MAX)
            && (error == Some(ValueTooLong) <==> |k| < KEY_MAX && |v| >= VALUE_MAX)
            && (error == Some(TableFull) <==> LegalSizes(k, v) && k !in Values(t) && AllEntries(t))
  {
    WalkDecidesMembership(g, t, k);
    if k !in Index(t) {
      AllEntriesWithoutTarget(g, t, k);
    }
  }

  /** Adding one to an entry's counter changes nothing else. */
  lemma BumpEntry(g: Layout, t: Table, p: nat)
    requires g.Valid() && Inv(g, t) && p < g.n && t[p].Entry?
    ensures Inv(g, t[p := Bumped(t[p])])
    ensures Index(t[p := Bumped(t[p])]) == Index(t)
    ensures Values(t[p := Bumped(t[p])]) == Values(t)
    ensures Counts(t[p := Bumped(t[p])]) == Counts(t)[t[p].key := Bumped(t[p]).count]
    ensures Vacancies(t[p := Bumped(t[p])]) == Vacancies(t)
  {
    EntryViews(t, p);
    RestoreEntry(Values(t), t[p].key);
    var c := Bumped(t[p]);
    UpdateKeepsInv(g, t, p, c);
    UpdateViews(t, p, c);
    VacanciesAfterWrite(t, p, c);
  }

  lemma ClientGetIsMapLookup(g: Layout, t: Table, k: string, meta: bool)
    requires g.Valid() && Inv(g, t)
    ensures var (t', found) := ClientGet(g, t, k, meta);
            && Inv(g, t')
            && found == (if k in Values(t) then Some((Values(t)[k], Counts(t)[k])) else None)
            && Values(t') == Values(t)
            && Counts(t') == (if meta && k in Counts(t)
                              then Counts(t)[k := (Counts(t)[k] + 1) % COUNTER_RANGE] else Counts(t))
            && Vacancies(t') == Vacancies(t)
  {
    hide Values, Counts, Vacancies, Unique, Chained, ValuesAt, CountsAt;
    WalkDecidesMembership(g, t, k);
    IndexKeys(t);
    if k in Index(t) {
      var p := g.Pos(k, Stop(g, t, k));
      EntryViews(t, p);
      BumpEntry(g, t, p);
    }
  }

  lemma IndexKeys(t: Table)
    requires Unique(t)
    ensures Values(t).Keys == Index(t).Keys && Counts(t).Keys == Index(t).Keys
  {
  }

  /**
   The two SET implementations, started from the same table: identical slots and the same
   verdict when the key is stored or a vacant slot exists; otherwise the server refuses, and
   the client succeeds exactly when there is a tombstone to reuse.
   */
  lemma ServerAndClientSetAgree(g: Layout, t: Table, k: string, v: string)
    requires g.Valid() && Inv(g, t)
    ensures k in Values(t) || Vacancies(t) != {} || !LegalSizes(k, v) ==>
              && ServerSet(g, t, k, v).0 == ClientSet(g, t, k, v).0
              && (ServerSet(g, t, k, v).1 <==> ClientSet(g, t, k, v).1.None?)
    ensures k !in Values(t) && Vacancies(t) == {} && LegalSizes(k, v) ==>
              && ServerSet(g, t, k, v) == (t, false)
              && (ClientSet(g, t, k, v).1.None? <==> exists p :: 0 <= p < |t| && t[p].Tombstone?)
  {
    WalkDecidesMembership(g, t, k);
    if k in Index(t) {
      OverwriteEntry(g, t, k, v);
    } else if Stop(g, t, k) == g.n {
      NoVacancyWithoutStop(g, t, k);
      AllEntriesWithoutTarget(g, t, k);
      assert forall p :: 0 <= p < |t| && t[p].Vacant? ==> p in Vacancies(t);
    } else {
      assert g.Pos(k, Stop(g, t, k)) in Vacancies(t);
    }
  }
}
