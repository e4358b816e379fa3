/**
 Concurrent access to the exported table as a transition system.  Any number of readers
 probe it one slot READ at a time; one writer at a time, either a remote client or the
 server, changes it.  A slot READ, a slot WRITE and a fetch-and-add are atomic; a server
 operation, which changes at most one slot, is one step.
 */
module RemoteRuns {
  import opened ProbeTable
  import opened SlotLayout
  import opened TableOps

  datatype GetResult =
    | Hit(value: string, counter: Option<nat>)
    | Miss
    | LinkFailed

  datatype Reader =
    | Probing(key: string, i: nat, meta: bool)
    | Adding(key: string, pos: nat, value: string)
    | Finished(key: string, result: GetResult)

  datatype SetResult = Stored | BadSize | Full | LinkLost

  datatype Writer =
    | Quiet
    | Walking(key: string, value: string, i: nat, tomb: Option<nat>)
    | Storing(key: string, value: string, target: nat, count: nat)
    | Returned(key: string, value: string, result: SetResult)
  {
    predicate Active() { Walking? || Storing? }
  }

  datatype State = State(table: Table, readers: map<nat, Reader>, writer: Writer)

  datatype Step =
    | BeginGet(r: nat, key: string, meta: bool)
    | ReadSlot(r: nat)
      // the counter is bumped; `seen` is what comes back, and without `acked` the completion is lost
    | FetchAndAdd(r: nat, seen: nat, acked: bool)
    | GetFails(r: nat)
    | BeginSet(key: string, value: string)
    | WalkSlot
      // the slot is written; without `acked` the completion is lost
    | StoreSlot(acked: bool)
    | SetFails
    | ServerSets(key: string, value: string)
    | ServerErases(key: string)

  predicate Enabled(g: Layout, s: State, step: Step)
    requires g.Valid() && |s.table| == g.n
  {
    match step
    case BeginGet(r, _, _) => r in s.readers ==> s.readers[r].Finished?
    case ReadSlot(r) => r in s.readers && s.readers[r].Probing? && s.readers[r].i < g.n
    case FetchAndAdd(r, seen, _) =>
      && r in s.readers && s.readers[r].Adding? && s.readers[r].pos < g.n
      && (s.table[s.readers[r].pos].Entry? ==> seen == s.table[s.readers[r].pos].count)
    case GetFails(r) => r in s.readers && !s.readers[r].Finished?
    case BeginSet(_, _) => !s.writer.Active()
    case WalkSlot => s.writer.Walking? && s.writer.i < g.n
    case StoreSlot(_) => s.writer.Storing? && s.writer.target < g.n
    case SetFails => s.writer.Active()
    case ServerSets(_, _) => !s.writer.Active()
    case ServerErases(_) => !s.writer.Active()
  }

  /** What a reader does with the slot it has just read. */
  function AfterRead(g: Layout, rd: Reader, c: Cell): Reader
    requires g.Valid() && rd.Probing? && rd.i < g.n
  {
    if c.Vacant? then Finished(rd.key, Miss)
    else if c.Holds(rd.key) then
      if rd.meta then Adding(rd.key, g.Pos(rd.key, rd.i), c.value)
      else Finished(rd.key, Hit(c.value, None))
    else if rd.i + 1 == g.n then Finished(rd.key, Miss)
    else rd.(i := rd.i + 1)
  }

  /** What the writer does with the slot it has just read. */
  function AfterWalk(g: Layout, w: Writer, c: Cell): Writer
    requires g.Valid() && w.Walking? && w.i < g.n
  {
    var p := g.Pos(w.key, w.i);
    var tomb := if c.Tombstone? && w.tomb.None? then Some(p) else w.tomb;
    if c.Holds(w.key) then Storing(w.key, w.value, p, c.count)
    else if c.Vacant? then Storing(w.key, w.value, if tomb.Some? then tomb.value else p, 0)
    else if w.i + 1 < g.n then w.(i := w.i + 1, tomb := tomb)
    else if tomb.Some? then Storing(w.key, w.value, tomb.value, 0)
    else Returned(w.key, w.value, Full)
  }

  function Apply(g: Layout, s: State, step: Step): (s': State)
    requires g.Valid() && |s.table| == g.n && Enabled(g, s, step)
    ensures |s'.table| == g.n
  {
    match step
    case BeginGet(r, key, meta) => s.(readers := s.readers[r := Probing(key, 0, meta)])
    case ReadSlot(r) =>
      var rd := s.readers[r];
      s.(readers := s.readers[r := AfterRead(g, rd, s.table[g.Pos(rd.key, rd.i)])])
    case FetchAndAdd(r, seen, acked) =>
      var rd := s.readers[r];
      var result := if acked then Hit(rd.value, Some(seen)) else LinkFailed;
      State(if s.table[rd.pos].Entry? then s.table[rd.pos := Bumped(s.table[rd.pos])] else s.table,
            s.readers[r := Finished(rd.key, result)],
            s.writer)
    case GetFails(r) => s.(readers := s.readers[r := Finished(s.readers[r].key, LinkFailed)])
    case BeginSet(key, value) =>
      s.(writer := if LegalSizes(key, value) then Walking(key, value, 0, None) else Returned(key, value, BadSize))
    case WalkSlot => s.(writer := AfterWalk(g, s.writer, s.table[g.Pos(s.writer.key, s.writer.i)]))
    case StoreSlot(acked) =>
      var w := s.writer;
      s.(table := s.table[w.target := Entry(w.key, w.value, w.count)],
         writer := Returned(w.key, w.value, if acked then Stored else LinkLost))
    case SetFails => s.(writer := Returned(s.writer.key, s.writer.value, LinkLost))
    case ServerSets(key, value) => s.(table := ServerSet(g, s.table, key, value).0)
    case ServerErases(key) => s.(table := ServerErase(g, s.table, key).0)
  }

  // ---------------------------------------------------------------------------
  // Runs
  // ---------------------------------------------------------------------------

  ghost predicate Initial(g: Layout, s: State)
    requires g.Valid()
  {
    Inv(g, s.table) && s.readers == map[] && s.writer == Quiet
  }

  /** `run[0]` is initial and each later state follows by the corresponding step. */
  ghost predicate IsRun(g: Layout, run: seq<State>, steps: seq<Step>)
    requires g.Valid()
  {
    && |run| == |steps| + 1
    && Initial(g, run[0])
    && forall i :: 0 <= i < |steps| ==> Follows(g, run[i], steps[i], run[i + 1])
  }

  ghost predicate Follows(g: Layout, s: State, step: Step, s': State)
    requires g.Valid()
  {
    |s.table| == g.n && Enabled(g, s, step) && s' == Apply(g, s, step)
  }

  // ---------------------------------------------------------------------------
  // Invariant
  // ---------------------------------------------------------------------------

  /** What the writer has learnt stays true until it writes. */
  ghost predicate WriterKnows(g: Layout, t: Table, w: Writer)
    requires g.Valid() && Inv(g, t)
  {
    match w
    case Walking(key, value, i, tomb) =>
      && LegalSizes(key, value)
      && i < g.n
      && (forall m :: 0 <= m < i ==> !Stops(t[g.Pos(key, m)], key))
      && (tomb.Some? ==> tomb.value < g.n && t[tomb.value].Tombstone? && g.Offset(key, tomb.value) < i)
      && (tomb.None? ==> forall m :: 0 <= m < i ==> !t[g.Pos(key, m)].Tombstone?)
    case Storing(key, value, target, count) =>
      && LegalSizes(key, value)
      && target < g.n
      && (t[target].Holds(key)
          || (count == 0 && key !in Index(t) && !t[target].Entry? && SolidUpTo(g, t, key, g.Offset(key, target))))
    case _ => true
  }

  ghost predicate StateInv(g: Layout, s: State)
    requires g.Valid()
  {
    && Inv(g, s.table)
    && WriterKnows(g, s.table, s.writer)
    && (forall r :: r in s.readers && s.readers[r].Probing? ==> s.readers[r].i < g.n)
    && (forall r :: r in s.readers && s.readers[r].Adding? ==> s.readers[r].pos < g.n)
  }

  /** What a step does to the map the table stands for. */
  datatype Effect = Nothing | Put(key: string, value: string) | Drop(key: string)

  function EffectOf(g: Layout, s: State, step: Step): Effect
    requires g.Valid() && |s.table| == g.n && Enabled(g, s, step)
  {
    match step
    case StoreSlot(_) => Put(s.writer.key, s.writer.value)
    case ServerSets(key, value) => if ServerSet(g, s.table, key, value).1 then Put(key, value) else Nothing
    case ServerErases(key) => Drop(key)
    case _ => Nothing
  }

  function MapEffect(m: map<string, string>, e: Effect): map<string, string> {
    match e
    case Nothing => m
    case Put(k, v) => m[k := v]
    case Drop(k) => m - {k}
  }

  /** A key that stays stored stays in its slot. */
  ghost predicate SlotsStable(t: Table, t': Table)
    requires Unique(t) && Unique(t')
  {
    forall k :: k in Index(t) && k in Index(t') ==> Index(t')[k] == Index(t)[k]
  }

  /** Changing one cell moves no key. */
  lemma OneCellChange(t: Table, p: nat, c: Cell)
    requires p < |t| && Unique(t) && Unique(t[p := c])
    ensures SlotsStable(t, t[p := c])
  {
    var t' := t[p := c];
    forall k | k in Index(t) && k in Index(t')
      ensures Index(t')[k] == Index(t)[k]
    {
      var q, q' := Index(t)[k], Index(t')[k];
      if q != p {
        assert t'[q].Holds(k) && t'[q'].Holds(k);
      } else if q' != p {
        assert t[q'].Holds(k) && t[q].Holds(k);
      }
    }
  }

  /** The remote write lands where it keeps the table good, and is exactly a map update. */
  lemma StoreStep(g: Layout, t: Table, key: string, value: string, target: nat, count: nat)
    requires g.Valid() && Inv(g, t)
    requires WriterKnows(g, t, Storing(key, value, target, count))
    ensures var t' := t[target := Entry(key, value, count)];
            && Inv(g, t')
            && Values(t') == Values(t)[key := value]
            && SlotsStable(t, t')
  {
    hide Values, Counts;
    var c := Entry(key, value, count);
    if t[target].Holds(key) {
      UpdateKeepsInv(g, t, target, c);
      UpdateViews(t, target, c);
    } else {
      var f := g.Offset(key, target);
      InsertKeepsInv(g, t, f, c);
      InsertViews(t, target, c);
    }
    OneCellChange(t, target, c);
  }

  lemma ServerSetStep(g: Layout, t: Table, key: string, value: string)
    requires g.Valid() && Inv(g, t)
    ensures var (t', ok) := ServerSet(g, t, key, value);
            && Inv(g, t')
            && Values(t') == (if ok then Values(t)[key := value] else Values(t))
            && SlotsStable(t, t')
  {
    hide Values, Counts, KeptCount, Vacancies;
    ServerSetIsMapUpdate(g, t, key, value);
    var j := Stop(g, t, key);
    if LegalSizes(key, value) && j < g.n {
      var p := g.Pos(key, if t[g.Pos(key, j)].Entry? then j else FirstTomb(g, t, key, j));
      OneCellChange(t, p, ServerSet(g, t, key, value).0[p]);
    }
  }

  lemma ServerEraseStep(g: Layout, t: Table, key: string)
    requires g.Valid() && Inv(g, t)
    ensures var t' := ServerErase(g, t, key).0;
            && Inv(g, t')
            && Values(t') == Values(t) - {key}
            && SlotsStable(t, t')
  {
    hide Values, Counts, Vacancies;
    ServerEraseIsMapRemoval(g, t, key);
    var j := Stop(g, t, key);
    if j < g.n && t[g.Pos(key, j)].Entry? {
      OneCellChange(t, g.Pos(key, j), Tombstone);
    }
  }

  /** Every step keeps the table good, moves no key, and changes the map by exactly its effect. */
  lemma TableStep(g: Layout, s: State, step: Step)
    requires g.Valid() && StateInv(g, s) && Enabled(g, s, step)
    ensures var t' := Apply(g, s, step).table;
            && Inv(g, t')
            && Values(t') == MapEffect(Values(s.table), EffectOf(g, s, step))
            && SlotsStable(s.table, t')
  {
    hide Values, Counts, Unique, Chained;
    match step
    case FetchAndAdd(r, _, _) =>
      var p := s.readers[r].pos;
      if s.table[p].Entry? {
        BumpEntry(g, s.table, p);
      }
    case StoreSlot(_) =>
      var w := s.writer;
      StoreStep(g, s.table, w.key, w.value, w.target, w.count);
    case ServerSets(key, value) => ServerSetStep(g, s.table, key, value);
    case ServerErases(key) => ServerEraseStep(g, s.table, key);
    case _ =>
  }

  // ---------------------------------------------------------------------------
  // The writer's knowledge
  // ---------------------------------------------------------------------------

  lemma BumpKeepsKnowledge(g: Layout, t: Table, p: nat, w: Writer)
    requires g.Valid() && Inv(g, t) && p < g.n && t[p].Entry?
    requires Inv(g, t[p := Bumped(t[p])]) && Index(t[p := Bumped(t[p])]) == Index(t)
    requires WriterKnows(g, t, w)
    ensures WriterKnows(g, t[p := Bumped(t[p])], w)
  {
    hide Index, Unique, Chained;
    var t' := t[p := Bumped(t[p])];
    assert forall q :: 0 <= q < g.n ==> (t'[q].Vacant? <==> t[q].Vacant?) && (t'[q].Tombstone? <==> t[q].Tombstone?)
                                        && (t'[q].Entry? ==> t'[q].key == t[q].key);
  }

  /** The writer gives up only when all slots are live with other keys. */
  lemma GivesUpWhenFull(g: Layout, t: Table, w: Writer)
    requires g.Valid() && Inv(g, t) && w.Walking? && WriterKnows(g, t, w)
    requires AfterWalk(g, w, t[g.Pos(w.key, w.i)]).Returned?
    ensures AfterWalk(g, w, t[g.Pos(w.key, w.i)]).result == Full && w.key !in Index(t) && AllEntries(t)
  {
    hide Unique, Chained, Index;
    KeyIsAbsent(g, t, w.key, g.n);
    forall q | 0 <= q < g.n
      ensures t[q].Entry?
    {
      assert g.Pos(w.key, g.Offset(w.key, q)) == q;
    }
  }

  /** One more slot read by the writer. */
  lemma WalkStep(g: Layout, t: Table, w: Writer)
    requires g.Valid() && Inv(g, t) && w.Walking? && WriterKnows(g, t, w)
    ensures var w' := AfterWalk(g, w, t[g.Pos(w.key, w.i)]);
            && WriterKnows(g, t, w')
            && (w'.Returned? ==> w'.result == Full && w.key !in Index(t) && AllEntries(t))
  {
    hide Unique, Chained, Index;
    var p := g.Pos(w.key, w.i);
    var w' := AfterWalk(g, w, t[p]);
    if !t[p].Holds(w.key) && w'.Storing? {
      KeyIsAbsent(g, t, w.key, if t[p].Vacant? then w.i else g.n);
    }
    if w'.Returned? {
      GivesUpWhenFull(g, t, w);
    }
  }

  /** No stop before probe step `i`, and a vacant slot or the end there: the key is not stored. */
  lemma KeyIsAbsent(g: Layout, t: Table, key: string, i: nat)
    requires g.Valid() && Inv(g, t) && i <= g.n
    requires forall m :: 0 <= m < i ==> !Stops(t[g.Pos(key, m)], key)
    requires i < g.n ==> t[g.Pos(key, i)].Vacant?
    ensures key !in Index(t)
  {
    WalkDecidesMembership(g, t, key);
    assert Stop(g, t, key) == i;
  }

  lemma StepKeepsInv(g: Layout, s: State, step: Step)
    requires g.Valid() && StateInv(g, s) && Enabled(g, s, step)
    ensures StateInv(g, Apply(g, s, step))
  {
    hide Values, Counts, Unique, Chained;
    TableStep(g, s, step);
    match step
    case FetchAndAdd(r, _, _) =>
      var p := s.readers[r].pos;
      if s.table[p].Entry? {
        BumpEntry(g, s.table, p);
        BumpKeepsKnowledge(g, s.table, p, s.writer);
      }
    case WalkSlot => WalkStep(g, s.table, s.writer);
    case _ =>
  }

  lemma {:induction false} RunKeepsInv(g: Layout, run: seq<State>, steps: seq<Step>, i: nat)
    requires g.Valid() && IsRun(g, run, steps) && i < |run|
    ensures StateInv(g, run[i])
  {
    if i > 0 {
      RunKeepsInv(g, run, steps, i - 1);
      assert Follows(g, run[i - 1], steps[i - 1], run[i]);
      StepKeepsInv(g, run[i - 1], steps[i - 1]);
    }
  }
}
