/**
 The open-addressing table as a value: its probe order, its invariant, the map it
 represents, and what changing one cell does to that map.  The server store and the
 remote client are both specified by the functions of this module.
 */
module ProbeTable {
  import opened Bits

  /** One more than the largest value of the 64-bit access counter. */
  const COUNTER_RANGE: nat := 0x1_0000_0000_0000_0000

  /** What one slot says: never used, erased, or holding an entry. */
  datatype Cell = Vacant | Tombstone | Entry(key: string, value: string, count: nat) {
    predicate Holds(k: string) { Entry? && key == k }
  }

  type Table = seq<Cell>

  // ---------------------------------------------------------------------------
  // Probe order
  // ---------------------------------------------------------------------------

  /** The number of slots and the hash function both machines agree on. */
  datatype Layout = Layout(n: nat, hash: string -> nat) {
    predicate Valid() { PowerOfTwo(n) }

    /** Where the probe for a key starts. */
    function Home(k: string): (h: nat)
      requires Valid()
      ensures h < n
    {
      MaskIsRemainder(hash(k), n);
      And(hash(k), n - 1)
    }

    /** The slot inspected at probe step `i`. */
    function Pos(k: string, i: nat): (p: nat)
      requires Valid() && i < n
      ensures p < n
      ensures p == if Home(k) + i < n then Home(k) + i else Home(k) + i - n
    {
      MaskIsRemainder(Home(k) + i, n);
      WrapOnce(Home(k) + i, n);
      And(Home(k) + i, n - 1)
    }

    /** The probe step at which slot `p` is inspected. */
    function Offset(k: string, p: nat): (i: nat)
      requires Valid() && p < n
      ensures i < n && Pos(k, i) == p
    {
      if Home(k) <= p then p - Home(k) else p + n - Home(k)
    }
  }

  lemma WrapOnce(x: nat, n: nat)
    requires n > 0 && x < 2 * n
    ensures x % n == if x < n then x else x - n
  {
    var q, r := Division(x, n);
    if x < n {
      QuotientUnique(n, q, r, 0, x);
    } else {
      assert 1 * n + (x - n) == x;
      QuotientUnique(n, q, r, 1, x - n);
    }
  }

  /** `(h + i) & (N - 1)` for `i < N` visits every slot, and no slot twice. */
  lemma ProbeVisitsEachSlotOnce(g: Layout, k: string)
    requires g.Valid()
    ensures forall p :: 0 <= p < g.n ==> g.Pos(k, g.Offset(k, p)) == p
    ensures forall i :: 0 <= i < g.n ==> g.Offset(k, g.Pos(k, i)) == i
  {
  }

  // ---------------------------------------------------------------------------
  // Invariant and abstraction
  // ---------------------------------------------------------------------------

  /** No key is stored twice. */
  predicate Unique(t: Table) {
    forall p, q | 0 <= p < |t| && 0 <= q < |t| && t[p].Entry? && t[q].Entry? ::
      t[p].key == t[q].key ==> p == q
  }

  /** No vacant slot before probe step `limit`. */
  predicate SolidUpTo(g: Layout, t: Table, k: string, limit: nat)
    requires g.Valid() && |t| == g.n && limit <= g.n
  {
    forall m :: 0 <= m < limit ==> !t[g.Pos(k, m)].Vacant?
  }

  /** No vacant slot between a stored key's home and its slot. */
  predicate Chained(g: Layout, t: Table)
    requires g.Valid() && |t| == g.n
  {
    forall p :: 0 <= p < |t| && t[p].Entry? ==> SolidUpTo(g, t, t[p].key, g.Offset(t[p].key, p))
  }

  predicate Inv(g: Layout, t: Table)
    requires g.Valid()
  {
    |t| == g.n && Unique(t) && Chained(g, t)
  }

  /** Which slot each stored key is in. */
  ghost function Index(t: Table): map<string, nat>
    requires Unique(t)
  {
    map p | 0 <= p < |t| && t[p].Entry? :: t[p].key := p
  }

  /** Every listed slot holds the key it is listed under. */
  ghost predicate Lists(t: Table, m: map<string, nat>) {
    forall k :: k in m ==> m[k] < |t| && t[m[k]].Holds(k)
  }

  ghost function ValuesAt(t: Table, m: map<string, nat>): map<string, string>
    requires Lists(t, m)
  {
    map k | k in m :: t[m[k]].value
  }

  ghost function CountsAt(t: Table, m: map<string, nat>): map<string, nat>
    requires Lists(t, m)
  {
    map k | k in m :: t[m[k]].count
  }

  /** The map of stored values. */
  ghost function Values(t: Table): map<string, string>
    requires Unique(t)
  {
    ValuesAt(t, Index(t))
  }

  /** The map of access counters. */
  ghost function Counts(t: Table): map<string, nat>
    requires Unique(t)
  {
    CountsAt(t, Index(t))
  }

  ghost function Vacancies(t: Table): set<nat> {
    set p: nat | p < |t| && t[p].Vacant?
  }

  lemma IndexMember(t: Table, p: nat)
    requires Unique(t) && p < |t| && t[p].Entry?
    ensures t[p].key in Index(t) && Index(t)[t[p].key] == p
  {
  }

  /** What the two views say about an entry. */
  lemma EntryViews(t: Table, p: nat)
    requires Unique(t) && p < |t| && t[p].Entry?
    ensures t[p].key in Values(t) && Values(t)[t[p].key] == t[p].value
    ensures t[p].key in Counts(t) && Counts(t)[t[p].key] == t[p].count
  {
    IndexMember(t, p);
  }

  /** A map that lists every entry under its key, and nothing else, is the index. */
  lemma IndexIs(t: Table, m: map<string, nat>)
    requires Unique(t)
    requires forall p :: 0 <= p < |t| && t[p].Entry? ==> t[p].key in m && m[t[p].key] == p
    requires Lists(t, m)
    ensures Index(t) == m
  {
    forall k | k in m
      ensures k in Index(t) && Index(t)[k] == m[k]
    {
      IndexMember(t, m[k]);
    }
  }

  // ---------------------------------------------------------------------------
  // What changing one cell does
  // ---------------------------------------------------------------------------

  /** Writing an entry changes both views at its key only. */
  lemma ViewsAfterWrite(t: Table, m: map<string, nat>, p: nat, c: Cell)
    requires Lists(t, m) && p < |t| && c.Entry?
    requires forall k :: k in m && k != c.key ==> m[k] != p
    ensures Lists(t[p := c], m[c.key := p])
    ensures ValuesAt(t[p := c], m[c.key := p]) == ValuesAt(t, m)[c.key := c.value]
    ensures CountsAt(t[p := c], m[c.key := p]) == CountsAt(t, m)[c.key := c.count]
  {
  }

  /** Writing a tombstone over an entry removes its key from both views. */
  lemma ViewsAfterErase(t: Table, m: map<string, nat>, k: string)
    requires Lists(t, m) && k in m
    requires forall k' :: k' in m && k' != k ==> m[k'] != m[k]
    ensures Lists(t[m[k] := Tombstone], m - {k})
    ensures ValuesAt(t[m[k] := Tombstone], m - {k}) == ValuesAt(t, m) - {k}
    ensures CountsAt(t[m[k] := Tombstone], m - {k}) == CountsAt(t, m) - {k}
  {
  }

  /** A written slot is not vacant; the others are as they were. */
  lemma VacanciesAfterWrite(t: Table, p: nat, c: Cell)
    requires p < |t| && !c.Vacant?
    ensures Vacancies(t[p := c]) == Vacancies(t) - {p}
    ensures !t[p].Vacant? ==> Vacancies(t[p := c]) == Vacancies(t)
  {
  }

  lemma RestoreEntry<K, V>(m: map<K, V>, k: K)
    requires k in m
    ensures m[k := m[k]] == m
  {
  }

  /** Rewriting an entry under its own key. */
  lemma UpdateKeepsInv(g: Layout, t: Table, p: nat, c: Cell)
    requires g.Valid() && Inv(g, t) && p < g.n && t[p].Entry? && c.Holds(t[p].key)
    ensures Inv(g, t[p := c])
  {
    var t' := t[p := c];
    forall q | 0 <= q < g.n && t'[q].Entry?
      ensures SolidUpTo(g, t', t'[q].key, g.Offset(t'[q].key, q))
    {
      assert SolidUpTo(g, t, t[q].key, g.Offset(t[q].key, q));
    }
  }

  lemma UpdateViews(t: Table, p: nat, c: Cell)
    requires p < |t| && t[p].Entry? && c.Holds(t[p].key)
    requires Unique(t) && Unique(t[p := c])
    ensures Index(t[p := c]) == Index(t)
    ensures Values(t[p := c]) == Values(t)[c.key := c.value]
    ensures Counts(t[p := c]) == Counts(t)[c.key := c.count]
  {
    IndexMember(t, p);
    forall q | 0 <= q < |t| && t[q].Entry?
      ensures t[q].key in Index(t) && Index(t)[t[q].key] == q
    {
      IndexMember(t, q);
    }
    IndexIs(t[p := c], Index(t));
    ViewsAfterWrite(t, Index(t), p, c);
    assert Index(t)[c.key := p] == Index(t);
  }

  /** Filling a free slot that no vacant slot precedes in the key's probe order. */
  lemma InsertKeepsInv(g: Layout, t: Table, f: nat, c: Cell)
    requires g.Valid() && Inv(g, t) && f < g.n
    requires c.Entry? && c.key !in Index(t)
    requires SolidUpTo(g, t, c.key, f)
    ensures Inv(g, t[g.Pos(c.key, f) := c])
  {
    var p := g.Pos(c.key, f);
    var t' := t[p := c];
    forall q | 0 <= q < g.n && q != p && t[q].Entry?
      ensures t[q].key != c.key
    {
      IndexMember(t, q);
    }
    forall q | 0 <= q < g.n && t'[q].Entry?
      ensures SolidUpTo(g, t', t'[q].key, g.Offset(t'[q].key, q))
    {
      if q != p {
        assert SolidUpTo(g, t, t[q].key, g.Offset(t[q].key, q));
      } else {
        assert g.Offset(c.key, p) == f;
      }
    }
  }

  lemma InsertIndex(t: Table, p: nat, c: Cell)
    requires p < |t| && !t[p].Entry? && c.Entry?
    requires Unique(t) && Unique(t[p := c]) && c.key !in Index(t)
    ensures Index(t[p := c]) == Index(t)[c.key := p]
  {
    forall q | 0 <= q < |t| && t[q].Entry?
      ensures t[q].key in Index(t) && Index(t)[t[q].key] == q
    {
      IndexMember(t, q);
    }
    IndexIs(t[p := c], Index(t)[c.key := p]);
  }

  lemma InsertViews(t: Table, p: nat, c: Cell)
    requires p < |t| && !t[p].Entry? && c.Entry?
    requires Unique(t) && Unique(t[p := c]) && c.key !in Index(t)
    ensures Index(t[p := c]) == Index(t)[c.key := p]
    ensures Values(t[p := c]) == Values(t)[c.key := c.value]
    ensures Counts(t[p := c]) == Counts(t)[c.key := c.count]
  {
    InsertIndex(t, p, c);
    ViewsAfterWrite(t, Index(t), p, c);
  }

  /** Turning an entry into a tombstone. */
  lemma EraseKeepsInv(g: Layout, t: Table, p: nat)
    requires g.Valid() && Inv(g, t) && p < g.n && t[p].Entry?
    ensures Inv(g, t[p := Tombstone])
  {
    var t' := t[p := Tombstone];
    forall q | 0 <= q < g.n && t'[q].Entry?
      ensures SolidUpTo(g, t', t'[q].key, g.Offset(t'[q].key, q))
    {
      assert SolidUpTo(g, t, t[q].key, g.Offset(t[q].key, q));
    }
  }

  lemma EraseIndex(t: Table, p: nat)
    requires p < |t| && t[p].Entry?
    requires Unique(t) && Unique(t[p := Tombstone])
    ensures Index(t[p := Tombstone]) == Index(t) - {t[p].key}
  {
    forall q | 0 <= q < |t| && t[q].Entry?
      ensures t[q].key in Index(t) && Index(t)[t[q].key] == q
    {
      IndexMember(t, q);
    }
    IndexIs(t[p := Tombstone], Index(t) - {t[p].key});
  }

  lemma EraseViews(t: Table, p: nat)
    requires p < |t| && t[p].Entry?
    requires Unique(t) && Unique(t[p := Tombstone])
    ensures Index(t[p := Tombstone]) == Index(t) - {t[p].key}
    ensures Values(t[p := Tombstone]) == Values(t) - {t[p].key}
    ensures Counts(t[p := Tombstone]) == Counts(t) - {t[p].key}
  {
    EraseIndex(t, p);
    IndexMember(t, p);
    ViewsAfterErase(t, Index(t), t[p].key);
  }

  // ---------------------------------------------------------------------------
  // The probe walk
  // ---------------------------------------------------------------------------

  /** A walk for `k` ends at a slot that holds `k` or was never used. */
  predicate Stops(c: Cell, k: string) {
    c.Vacant? || c.Holds(k)
  }

  /** First probe step at or after `i` where the walk ends, or `n`. */
  function StopFrom(g: Layout, t: Table, k: string, i: nat): (j: nat)
    requires g.Valid() && |t| == g.n && i <= g.n
    ensures i <= j <= g.n
    ensures forall m :: i <= m < j ==> !Stops(t[g.Pos(k, m)], k)
    ensures j < g.n ==> Stops(t[g.Pos(k, j)], k)
    decreases g.n - i
  {
    if i == g.n || Stops(t[g.Pos(k, i)], k) then i else StopFrom(g, t, k, i + 1)
  }

  function Stop(g: Layout, t: Table, k: string): (j: nat)
    requires g.Valid() && |t| == g.n
    ensures j <= g.n
    ensures forall m :: 0 <= m < j ==> !Stops(t[g.Pos(k, m)], k)
    ensures j < g.n ==> Stops(t[g.Pos(k, j)], k)
  {
    StopFrom(g, t, k, 0)
  }

  /** First probe step at or after `i` and before `limit` that shows a tombstone, or `limit`. */
  function TombFrom(g: Layout, t: Table, k: string, i: nat, limit: nat): (f: nat)
    requires g.Valid() && |t| == g.n && i <= limit <= g.n
    ensures i <= f <= limit
    ensures forall m :: i <= m < f ==> !t[g.Pos(k, m)].Tombstone?
    ensures f < limit ==> t[g.Pos(k, f)].Tombstone?
    decreases limit - i
  {
    if i == limit || t[g.Pos(k, i)].Tombstone? then i else TombFrom(g, t, k, i + 1, limit)
  }

  function FirstTomb(g: Layout, t: Table, k: string, limit: nat): (f: nat)
    requires g.Valid() && |t| == g.n && limit <= g.n
    ensures f <= limit
    ensures forall m :: 0 <= m < f ==> !t[g.Pos(k, m)].Tombstone?
    ensures f < limit ==> t[g.Pos(k, f)].Tombstone?
  {
    TombFrom(g, t, k, 0, limit)
  }

  /** The walk finds a stored key at the one slot that holds it. */
  lemma WalkFindsStoredKey(g: Layout, t: Table, k: string, p: nat)
    requires g.Valid() && Inv(g, t)
    requires p < g.n && t[p].Holds(k)
    ensures Stop(g, t, k) == g.Offset(k, p)
  {
    var d := g.Offset(k, p);
    assert SolidUpTo(g, t, k, d);
    forall m | 0 <= m < d
      ensures !Stops(t[g.Pos(k, m)], k)
    {
      assert g.Pos(k, m) != p;
    }
  }

  /** How a walk ends says whether the key is stored, and where. */
  lemma WalkDecidesMembership(g: Layout, t: Table, k: string)
    requires g.Valid() && Inv(g, t)
    ensures var j := Stop(g, t, k);
            k in Index(t) <==> j < g.n && t[g.Pos(k, j)].Entry?
    ensures k in Index(t) ==>
              var p := g.Pos(k, Stop(g, t, k));
              Index(t)[k] == p && t[p].Holds(k)
  {
    var j := Stop(g, t, k);
    if k in Index(t) {
      WalkFindsStoredKey(g, t, k, Index(t)[k]);
    } else if j < g.n && t[g.Pos(k, j)].Entry? {
      IndexMember(t, g.Pos(k, j));
    }
  }
}
