/** The loop that fills a fresh one-sided store before clients connect. */
module Preload {
  import opened CText
  import opened SlotLayout
  import opened ProbeTable
  import opened TableOps
  import opened RdmaStore

  function Digit(d: nat): char
    requires d < 10
  {
    '0' + d as char
  }

  /** `std::to_string` of a non-negative integer. */
  function Decimal(i: nat): (s: string)
    ensures |s| > 0
  {
    if i < 10 then [Digit(i)] else Decimal(i / 10) + [Digit(i % 10)]
  }

  lemma {:induction false} DecimalInjective(i: nat, j: nat)
    requires Decimal(i) == Decimal(j)
    ensures i == j
  {
    if i >= 10 && j >= 10 {
      var s, s' := Decimal(i), Decimal(j);
      assert s[..|s| - 1] == Decimal(i / 10) && s[|s| - 1] == Digit(i % 10);
      assert s'[..|s'| - 1] == Decimal(j / 10) && s'[|s'| - 1] == Digit(j % 10);
      DecimalInjective(i / 10, j / 10);
    } else {
      assert (i < 10 <==> |Decimal(i)| == 1) && (j < 10 <==> |Decimal(j)| == 1);
      assert Decimal(i)[0] == Decimal(j)[0];
    }
  }

  predicate IsDigit(c: char) { '0' <= c <= '9' }

  /** The number a text of digits denotes. */
  function Number(s: string): nat
    requires forall i :: 0 <= i < |s| ==> IsDigit(s[i])
  {
    if s == "" then 0
    else
      var last := s[|s| - 1];
      assert IsDigit(last);
      10 * Number(s[..|s| - 1]) + (last - '0') as nat
  }

  /** The decimal text is all digits, denotes the number, and has no leading zero. */
  lemma {:induction false} DecimalDenotes(i: nat)
    ensures forall j :: 0 <= j < |Decimal(i)| ==> IsDigit(Decimal(i)[j])
    ensures Number(Decimal(i)) == i
    ensures Decimal(i)[0] == '0' <==> i == 0
  {
    if i >= 10 {
      DecimalDenotes(i / 10);
      assert Decimal(i)[..|Decimal(i)| - 1] == Decimal(i / 10);
    } else {
      assert Number("") == 0;
    }
  }

  function Pow10(d: nat): nat {
    if d == 0 then 1 else 10 * Pow10(d - 1)
  }

  lemma {:induction false} DecimalFits(i: nat, d: nat)
    requires d > 0 && i < Pow10(d)
    ensures |Decimal(i)| <= d
    ensures NUL !in Decimal(i)
  {
    if i >= 10 {
      DecimalFits(i / 10, d - 1);
    }
  }

  /** The range of the loop counter, a 32-bit signed integer. */
  const INT_RANGE: nat := 0x8000_0000

  type Counter = i: nat | i < INT_RANGE

  lemma CounterText(i: Counter)
    ensures |Decimal(i)| <= 10 && NUL !in Decimal(i)
  {
    assert Pow10(5) == 100000;
    assert Pow10(10) == 10000000000;
    DecimalFits(i, 10);
  }

  function PreloadKey(i: Counter): (k: Text)
    ensures |k| < KEY_MAX
  {
    CounterText(i);
    "key" + Decimal(i)
  }

  function PreloadValue(i: Counter): (v: Text)
    ensures |v| < VALUE_MAX
  {
    CounterText(i);
    "value" + Decimal(i)
  }

  lemma PreloadKeysDistinct(i: Counter, j: Counter)
    requires PreloadKey(i) == PreloadKey(j)
    ensures i == j
  {
    assert PreloadKey(i)[3..] == Decimal(i);
    assert PreloadKey(j)[3..] == Decimal(j);
    DecimalInjective(i, j);
  }

  /** The first `m` numbered pairs. */
  function FirstPairs(m: nat): map<string, string>
    requires m <= INT_RANGE
  {
    if m == 0 then map[] else FirstPairs(m - 1)[PreloadKey(m - 1) := PreloadValue(m - 1)]
  }

  /** The numbered pairs below `m` are all there under their own keys, and those from `m` on are not. */
  lemma {:induction false} FirstPairsAre(m: nat, i: Counter)
    requires m <= INT_RANGE
    ensures PreloadKey(i) in FirstPairs(m) <==> i < m
    ensures i < m ==> FirstPairs(m)[PreloadKey(i)] == PreloadValue(i)
  {
    if m > 0 {
      FirstPairsAre(m - 1, i);
      if PreloadKey(i) == PreloadKey(m - 1) {
        PreloadKeysDistinct(i, m - 1);
      }
    }
  }

  predicate NoTombstones(t: Table) {
    forall p :: 0 <= p < |t| ==> !t[p].Tombstone?
  }

  /** While nothing was ever erased, each new key takes exactly one vacant slot, until none is left. */
  lemma NewKeyTakesOneVacancy(g: Layout, t: Table, k: string, v: string)
    requires g.Valid() && Inv(g, t) && NoTombstones(t)
    requires LegalSizes(k, v) && k !in Values(t)
    ensures var (t', ok) := ServerSet(g, t, k, v);
            && (ok <==> Vacancies(t) != {})
            && NoTombstones(t')
            && |Vacancies(t')| == if ok then |Vacancies(t)| - 1 else |Vacancies(t)|
  {
    hide Values, ValuesAt, Counts, Unique, Chained, KeptCount;
    SameDomain(t);
    ServerSetIsMapUpdate(g, t, k, v);
    WalkDecidesMembership(g, t, k);
    var j := Stop(g, t, k);
    if j < g.n {
      assert FirstTomb(g, t, k, j) == j;
      assert g.Pos(k, j) in Vacancies(t);
      InsertAtTarget(g, t, k, v);
    }
  }

  lemma SameDomain(t: Table)
    requires Unique(t)
    ensures Values(t).Keys == Index(t).Keys
  {
  }

  lemma {:induction false} AllVacant(t: Table)
    requires forall p :: 0 <= p < |t| ==> t[p].Vacant?
    ensures |Vacancies(t)| == |t|
  {
    if t != [] {
      var i := |t| - 1;
      AllVacant(t[..i]);
      assert Vacancies(t) == Vacancies(t[..i]) + {i};
    }
  }

  /**
   Filling a fresh store with `count` numbered pairs: the store ends up with exactly the
   first `min(count, N)` of them.
   */
  method PreloadStore(store: Store, count: Counter)
    requires store.Valid()
    requires forall p :: 0 <= p < |store.Cells()| ==> store.Cells()[p].Vacant?
    modifies store.slots
    ensures store.Valid()
    ensures Values(store.Cells()) == FirstPairs(if count < store.layout.n then count else store.layout.n)
  {
    hide Values, Vacancies, Unique, Chained, SolidUpTo, Index, LengthFrom, Stop, FirstTomb;
    ghost var n := store.layout.n;
    AllVacant(store.Cells());
    EmptyIsEmpty(store.layout, store.Cells());
    for i := 0 to count
      invariant store.Valid()
      invariant NoTombstones(store.Cells())
      invariant |Vacancies(store.Cells())| == if i < n then n - i else 0
      invariant Values(store.Cells()) == FirstPairs(if i < n then i else n)
    {
      FirstPairsAre(if i < n then i else n, i);
      NewKeyTakesOneVacancy(store.layout, store.Cells(), PreloadKey(i), PreloadValue(i));
      var k := PreloadKey(i);
      var v := PreloadValue(i);
      var _ := store.Set(k, v);
    }
  }

  lemma EmptyIsEmpty(g: Layout, t: Table)
    requires g.Valid() && Inv(g, t)
    requires forall p :: 0 <= p < |t| ==> t[p].Vacant?
    ensures Values(t) == map[]
  {
    assert Index(t) == map[];
  }

  /** What preloading stored can be read, by the server and by a client, and nothing else can. */
  lemma PreloadedIsReadable(g: Layout, t: Table, m: nat, i: Counter, meta: bool)
    requires g.Valid() && Inv(g, t) && m <= INT_RANGE && Values(t) == FirstPairs(m)
    ensures var key, found := PreloadKey(i), ClientGet(g, t, PreloadKey(i), meta).1;
            && Lookup(g, t, key) == (if i < m then Some(PreloadValue(i)) else None)
            && (found.Some? <==> i < m)
            && (i < m ==> found.value.0 == PreloadValue(i))
  {
    hide Values, Counts, FirstPairs, Lookup, ClientGet, Inv, PreloadKey, PreloadValue;
    FirstPairsAre(m, i);
    LookupIsMapLookup(g, t, PreloadKey(i));
    ClientGetIsMapLookup(g, t, PreloadKey(i), meta);
  }
}
