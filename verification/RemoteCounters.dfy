/** The access counters under concurrent fetch-and-adds. */
module RemoteCounters {
  import opened ProbeTable
  import opened TableOps
  import opened RemoteRuns

  // ---------------------------------------------------------------------------
  // Only metadata GETs
  // ---------------------------------------------------------------------------

  /** Steps of clients that only run GETs. */
  predicate ReadOnly(step: Step) {
    step.BeginGet? || step.ReadSlot? || step.FetchAndAdd? || step.GetFails?
  }

  ghost predicate ReadOnlyRun(g: Layout, run: seq<State>, steps: seq<Step>)
    requires g.Valid()
  {
    IsRun(g, run, steps) && forall i :: 0 <= i < |steps| ==> ReadOnly(steps[i])
  }

  /** Only the counter of an entry may differ. */
  predicate SameButCount(c: Cell, c': Cell) {
    c == c' || (c.Entry? && c'.Entry? && c' == c.(count := c'.count))
  }

  predicate SameButCounts(t: Table, t': Table) {
    |t| == |t'| && forall p :: 0 <= p < |t| ==> SameButCount(t[p], t'[p])
  }

  /** The slot a fetch-and-add step addresses. */
  function AddTarget(s: State, step: Step): Option<nat> {
    if step.FetchAndAdd? && step.r in s.readers && s.readers[step.r].Adding?
    then Some(s.readers[step.r].pos) else None
  }

  /** Fetch-and-adds applied to slot `p` by the first `i` steps. */
  function AddsTo(run: seq<State>, steps: seq<Step>, p: nat, i: nat): nat
    requires i <= |steps| < |run|
  {
    if i == 0 then 0
    else AddsTo(run, steps, p, i - 1) + if AddTarget(run[i - 1], steps[i - 1]) == Some(p) then 1 else 0
  }

  ghost predicate CountsInRange(t: Table) {
    forall p :: 0 <= p < |t| && t[p].Entry? ==> t[p].count < COUNTER_RANGE
  }

  /** Each counter is its first value plus the fetch-and-adds applied to its slot. */
  ghost predicate Tallied(run: seq<State>, steps: seq<Step>, i: nat)
    requires i <= |steps| < |run|
  {
    forall p :: 0 <= p < |run[i].table| && p < |run[0].table| && run[i].table[p].Entry? && run[0].table[p].Entry? ==>
      run[i].table[p].count == (run[0].table[p].count + AddsTo(run, steps, p, i)) % COUNTER_RANGE
  }

  /** A reader about to add addresses the slot that holds its key. */
  ghost predicate AimsRight(s: State) {
    forall r :: r in s.readers && s.readers[r].Adding? ==>
      s.readers[r].pos < |s.table| && s.table[s.readers[r].pos].Holds(s.readers[r].key)
  }

  /** A step that is a GET step changes at most one counter, by one. */
  lemma ReadOnlyTable(g: Layout, s: State, step: Step)
    requires g.Valid() && StateInv(g, s) && Enabled(g, s, step) && ReadOnly(step) && AimsRight(s)
    ensures var t' := Apply(g, s, step).table;
            && (AddTarget(s, step).None? ==> t' == s.table)
            && (AddTarget(s, step).Some? ==>
                  var p := AddTarget(s, step).value;
                  p < g.n && s.table[p].Entry? && t' == s.table[p := Bumped(s.table[p])])
            && SameButCounts(s.table, t')
  {
  }

  lemma ReadOnlyAim(g: Layout, s: State, step: Step)
    requires g.Valid() && StateInv(g, s) && Enabled(g, s, step) && ReadOnly(step) && AimsRight(s)
    ensures AimsRight(Apply(g, s, step))
  {
    hide Inv, Index;
    ReadOnlyTable(g, s, step);
  }

  lemma SameButCountsChain(t: Table, t': Table, t'': Table)
    requires SameButCounts(t, t') && SameButCounts(t', t'')
    ensures SameButCounts(t, t'')
  {
    forall p | 0 <= p < |t|
      ensures SameButCount(t[p], t''[p])
    {
      assert SameButCount(t[p], t'[p]) && SameButCount(t'[p], t''[p]);
    }
  }

  /** One cell under one fetch-and-add somewhere. */
  lemma CellTally(t: Table, t': Table, target: Option<nat>, p: nat, first: nat, adds: nat)
    requires p < |t| && t[p].Entry? && t[p].count == (first + adds) % COUNTER_RANGE
    requires target.None? ==> t' == t
    requires target.Some? ==> target.value < |t| && t[target.value].Entry?
                              && t' == t[target.value := Bumped(t[target.value])]
    ensures |t'| == |t| && t'[p].Entry?
    ensures t'[p].count == (first + adds + if target == Some(p) then 1 else 0) % COUNTER_RANGE
  {
  }

  lemma TallyStep(run: seq<State>, steps: seq<Step>, i: nat)
    requires i < |steps| < |run| && Tallied(run, steps, i)
    requires SameButCounts(run[0].table, run[i].table) && SameButCounts(run[i].table, run[i + 1].table)
    requires var target, t := AddTarget(run[i], steps[i]), run[i].table;
             && (target.None? ==> run[i + 1].table == t)
             && (target.Some? ==> target.value < |t| && t[target.value].Entry?
                                  && run[i + 1].table == t[target.value := Bumped(t[target.value])])
    ensures Tallied(run, steps, i + 1)
  {
    hide AddTarget, Bumped;
    var t, t' := run[i].table, run[i + 1].table;
    forall p | 0 <= p < |t'| && p < |run[0].table| && t'[p].Entry? && run[0].table[p].Entry?
      ensures t'[p].count == (run[0].table[p].count + AddsTo(run, steps, p, i + 1)) % COUNTER_RANGE
    {
      assert SameButCount(t[p], t'[p]);
      CellTally(t, t', AddTarget(run[i], steps[i]), p, run[0].table[p].count, AddsTo(run, steps, p, i));
    }
  }

  lemma ReadOnlyTally(g: Layout, run: seq<State>, steps: seq<Step>, i: nat)
    requires g.Valid() && IsRun(g, run, steps) && i < |steps| && ReadOnly(steps[i])
    requires StateInv(g, run[i]) && AimsRight(run[i])
    requires SameButCounts(run[0].table, run[i].table) && Tallied(run, steps, i)
    ensures Tallied(run, steps, i + 1)
  {
    assert Follows(g, run[i], steps[i], run[i + 1]);
    hide Inv, Apply, Enabled, StateInv, AimsRight, SameButCounts, Tallied, Bumped, AddTarget;
    ReadOnlyTable(g, run[i], steps[i]);
    TallyStep(run, steps, i);
  }

  /**
   While any number of clients run only GETs, with or without metadata: no slot's state, key
   or value ever changes, every reader about to add addresses the slot of its own key, and
   every counter is its first value plus the adds applied to its slot, modulo 2^64.
   */
  lemma {:induction false} GetsChangeOnlyCounters(g: Layout, run: seq<State>, steps: seq<Step>, i: nat)
    requires g.Valid() && ReadOnlyRun(g, run, steps) && i < |run|
    requires CountsInRange(run[0].table)
    ensures SameButCounts(run[0].table, run[i].table)
    ensures AimsRight(run[i])
    ensures Tallied(run, steps, i)
  {
    if i > 0 {
      GetsChangeOnlyCounters(g, run, steps, i - 1);
      RunKeepsInv(g, run, steps, i - 1);
      assert Follows(g, run[i - 1], steps[i - 1], run[i]);
      ReadOnlyAim(g, run[i - 1], steps[i - 1]);
      ReadOnlyTable(g, run[i - 1], steps[i - 1]);
      SameButCountsChain(run[0].table, run[i - 1].table, run[i].table);
      ReadOnlyTally(g, run, steps, i - 1);
    }
  }

  lemma {:induction false} AddsGrow(run: seq<State>, steps: seq<Step>, p: nat, i: nat, j: nat)
    requires i <= j <= |steps| < |run|
    ensures AddsTo(run, steps, p, i) <= AddsTo(run, steps, p, j)
  {
    if i < j {
      AddsGrow(run, steps, p, i, j - 1);
    }
  }

  /**
   The old values two fetch-and-adds on the same key return, while only GETs run and the
   counter does not wrap: the later one is larger by the number of adds from the first up to it.
   So they are distinct, and consecutive when no add lies between.
   */
  lemma OldValuesCountUp(g: Layout, run: seq<State>, steps: seq<Step>, i: nat, j: nat, r: nat, r': nat)
    requires g.Valid() && ReadOnlyRun(g, run, steps) && CountsInRange(run[0].table)
    requires i < j < |steps|
    requires steps[i].FetchAndAdd? && steps[i].r == r && steps[j].FetchAndAdd? && steps[j].r == r'
    requires r in run[i].readers && r' in run[j].readers && run[i].readers[r].key == run[j].readers[r'].key
    ensures AddTarget(run[i], steps[i]).Some? && AddTarget(run[i], steps[i]) == AddTarget(run[j], steps[j])
    ensures var p := AddTarget(run[i], steps[i]).value;
            p < |run[0].table| && run[0].table[p].Holds(run[i].readers[r].key)
            && (run[0].table[p].count + AddsTo(run, steps, p, j) < COUNTER_RANGE ==>
                  steps[j].seen - steps[i].seen == AddsTo(run, steps, p, j) - AddsTo(run, steps, p, i) >= 1)
  {
    hide Inv, CountsInRange, Enabled, Apply, Follows;
    AddAimsAtFirstSlot(g, run, steps, i);
    AddAimsAtFirstSlot(g, run, steps, j);
    var p, p' := run[i].readers[r].pos, run[j].readers[r'].pos;
    FirstTableUnique(g, run, steps, p, p');
    var first, ai, aj := run[0].table[p].count, AddsTo(run, steps, p, i), AddsTo(run, steps, p, j);
    assert AddsTo(run, steps, p, i + 1) == ai + 1;
    AddsGrow(run, steps, p, i + 1, j);
    if first + aj < COUNTER_RANGE {
      assert (first + ai) % COUNTER_RANGE == first + ai && (first + aj) % COUNTER_RANGE == first + aj;
    }
  }

  lemma FirstTableUnique(g: Layout, run: seq<State>, steps: seq<Step>, p: nat, p': nat)
    requires g.Valid() && IsRun(g, run, steps)
    requires p < |run[0].table| && p' < |run[0].table|
    requires run[0].table[p].Entry? && run[0].table[p'].Holds(run[0].table[p].key)
    ensures p == p'
  {
  }

  /** A fetch-and-add addresses the slot its key had from the start, and returns the tally so far. */
  lemma AddAimsAtFirstSlot(g: Layout, run: seq<State>, steps: seq<Step>, i: nat)
    requires g.Valid() && ReadOnlyRun(g, run, steps) && CountsInRange(run[0].table)
    requires i < |steps| && steps[i].FetchAndAdd?
    ensures steps[i].r in run[i].readers && run[i].readers[steps[i].r].Adding?
    ensures var rd := run[i].readers[steps[i].r];
            && rd.pos < |run[0].table| == g.n
            && run[0].table[rd.pos].Holds(rd.key)
            && steps[i].seen == (run[0].table[rd.pos].count + AddsTo(run, steps, rd.pos, i)) % COUNTER_RANGE
  {
    GetsChangeOnlyCounters(g, run, steps, i);
    RunKeepsInv(g, run, steps, 0);
    assert Follows(g, run[i], steps[i], run[i + 1]);
    hide Inv, Apply, AddsTo, CountsInRange;
    var p := run[i].readers[steps[i].r].pos;
    assert SameButCount(run[0].table[p], run[i].table[p]);
  }

  /** The sum of all counters. */
  function CounterSum(t: Table): nat {
    if t == [] then 0 else CounterSum(t[..|t| - 1]) + if t[|t| - 1].Entry? then t[|t| - 1].count else 0
  }

  lemma {:induction false} SumAfterWrite(t: Table, p: nat, c: Cell)
    requires p < |t| && t[p].Entry? && c.Entry?
    ensures CounterSum(t[p := c]) == CounterSum(t) - t[p].count + c.count
  {
    var l := |t| - 1;
    if p < l {
      assert t[p := c][..l] == t[..l][p := c];
      SumAfterWrite(t[..l], p, c);
    } else {
      assert t[p := c][..l] == t[..l];
    }
  }

  /** Completed fetch-and-adds among the first `i` steps. */
  function AddsDone(steps: seq<Step>, i: nat): nat
    requires i <= |steps|
  {
    if i == 0 then 0 else AddsDone(steps, i - 1) + if steps[i - 1].FetchAndAdd? then 1 else 0
  }

  /** Fetch-and-adds among the first `i` steps that took a counter over the top. */
  function Wraps(steps: seq<Step>, i: nat): nat
    requires i <= |steps|
  {
    if i == 0 then 0
    else Wraps(steps, i - 1)
         + if steps[i - 1].FetchAndAdd? && steps[i - 1].seen == COUNTER_RANGE - 1 then 1 else 0
  }

  /**
   Conservation: while only GETs run, the counters together grow by one per fetch-and-add and lose
   2^64 each time one wraps.
   */
  lemma {:induction false} SumCountsAdds(g: Layout, run: seq<State>, steps: seq<Step>, i: nat)
    requires g.Valid() && ReadOnlyRun(g, run, steps) && i < |run| && CountsInRange(run[0].table)
    ensures CounterSum(run[i].table) + COUNTER_RANGE * Wraps(steps, i)
            == CounterSum(run[0].table) + AddsDone(steps, i)
  {
    hide Inv, Apply, Enabled, CounterSum, CountsInRange;
    if i > 0 {
      SumCountsAdds(g, run, steps, i - 1);
      SumStep(g, run, steps, i - 1);
    }
  }

  lemma SumStep(g: Layout, run: seq<State>, steps: seq<Step>, i: nat)
    requires g.Valid() && ReadOnlyRun(g, run, steps) && i < |steps| && CountsInRange(run[0].table)
    ensures CounterSum(run[i + 1].table) - CounterSum(run[i].table) ==
            if !steps[i].FetchAndAdd? then 0
            else if steps[i].seen == COUNTER_RANGE - 1 then 1 - COUNTER_RANGE
            else 1
  {
    GetsChangeOnlyCounters(g, run, steps, i);
    RunKeepsInv(g, run, steps, i);
    assert Follows(g, run[i], steps[i], run[i + 1]);
    ReadOnlyTable(g, run[i], steps[i]);
    if steps[i].FetchAndAdd? {
      AddAimsAtFirstSlot(g, run, steps, i);
      var p := run[i].readers[steps[i].r].pos;
      AddSeesCounter(g, run, steps, i);
      hide Inv, Apply, Enabled, CounterSum, CountsInRange, SameButCounts, Tallied, AimsRight;
      SumAfterWrite(run[i].table, p, Bumped(run[i].table[p]));
    }
  }

  lemma AddSeesCounter(g: Layout, run: seq<State>, steps: seq<Step>, i: nat)
    requires g.Valid() && ReadOnlyRun(g, run, steps) && i < |steps| && CountsInRange(run[0].table)
    requires steps[i].FetchAndAdd? && AimsRight(run[i]) && steps[i].r in run[i].readers && run[i].readers[steps[i].r].Adding?
    ensures run[i].readers[steps[i].r].pos < |run[i].table|
    ensures var c := run[i].table[run[i].readers[steps[i].r].pos];
            c.Entry? && c.count == steps[i].seen < COUNTER_RANGE
  {
    assert Follows(g, run[i], steps[i], run[i + 1]);
    AddAimsAtFirstSlot(g, run, steps, i);
  }

  // ---------------------------------------------------------------------------
  // With a writer
  // ---------------------------------------------------------------------------

  /** Whether this step inserts an entry afresh into slot `p`. */
  ghost predicate InsertsAt(s: State, s': State, p: nat) {
    p < |s.table| && p < |s'.table| && !s.table[p].Entry? && s'.table[p].Entry?
  }

  /** Fetch-and-adds applied to slot `p` since an entry was last inserted there afresh, on top of the first count. */
  ghost function AddsSinceInsertion(run: seq<State>, steps: seq<Step>, p: nat, i: nat): nat
    requires i <= |steps| < |run| && p < |run[0].table|
  {
    if i == 0 then if run[0].table[p].Entry? then run[0].table[p].count else 0
    else if InsertsAt(run[i - 1], run[i], p) then 0
    else AddsSinceInsertion(run, steps, p, i - 1)
         + if AddTarget(run[i - 1], steps[i - 1]) == Some(p) then 1 else 0
  }

  /** No slot counts more than was added since its insertion, and neither does a writer about to write. */
  ghost predicate Bounded(g: Layout, run: seq<State>, steps: seq<Step>, i: nat)
    requires g.Valid() && i <= |steps| < |run| && |run[0].table| == g.n
  {
    && (forall p :: 0 <= p < g.n && p < |run[i].table| && run[i].table[p].Entry? ==>
          run[i].table[p].count <= AddsSinceInsertion(run, steps, p, i))
    && (run[i].writer.Storing? && run[i].writer.target < g.n ==>
          run[i].writer.count <= AddsSinceInsertion(run, steps, run[i].writer.target, i))
  }

  /**
   With a concurrent writer a counter can only lag: in every run a slot's count never
   exceeds the fetch-and-adds applied since its entry was inserted.  (A remote overwrite
   writes back the count it read, so adds that fall in between are lost.)
   */
  lemma {:induction false} CounterNeverExceedsAdds(g: Layout, run: seq<State>, steps: seq<Step>, i: nat)
    requires g.Valid() && IsRun(g, run, steps) && i < |run| && |run[0].table| == g.n
    ensures Bounded(g, run, steps, i)
  {
    if i > 0 {
      CounterNeverExceedsAdds(g, run, steps, i - 1);
      RunKeepsInv(g, run, steps, i - 1);
      BoundedStep(g, run, steps, i - 1);
    }
  }

  /** What one step can do to the counter of an entry. */
  lemma CellGrowth(g: Layout, s: State, step: Step, p: nat)
    requires g.Valid() && StateInv(g, s) && Enabled(g, s, step) && p < g.n
    requires Apply(g, s, step).table[p].Entry?
    ensures var count := Apply(g, s, step).table[p].count;
            if !s.table[p].Entry? then count == 0
            else
              || (s.writer.Storing? && s.writer.target == p && count == s.writer.count)
              || count <= s.table[p].count + if AddTarget(s, step) == Some(p) then 1 else 0
  {
    hide Unique, Chained, Index;
  }

  /** Where the count a writer is about to write comes from. */
  lemma WriterGrowth(g: Layout, s: State, step: Step)
    requires g.Valid() && StateInv(g, s) && Enabled(g, s, step)
    requires Apply(g, s, step).writer.Storing?
    ensures var w := Apply(g, s, step).writer;
            && w.target < g.n
            && !InsertsAt(s, Apply(g, s, step), w.target)
            && (w == s.writer || w.count == 0 || (s.table[w.target].Entry? && w.count == s.table[w.target].count))
  {
    hide Unique, Chained, Index;
  }

  lemma BoundedStep(g: Layout, run: seq<State>, steps: seq<Step>, i: nat)
    requires g.Valid() && IsRun(g, run, steps) && i < |steps| && |run[0].table| == g.n
    requires StateInv(g, run[i]) && Bounded(g, run, steps, i)
    ensures Bounded(g, run, steps, i + 1)
  {
    var s, step, s' := run[i], steps[i], run[i + 1];
    assert Follows(g, s, step, s');
    hide Inv, Apply, Enabled, IsRun, WriterKnows;
    forall p | 0 <= p < g.n && p < |s'.table| && s'.table[p].Entry?
      ensures s'.table[p].count <= AddsSinceInsertion(run, steps, p, i + 1)
    {
      CellGrowth(g, s, step, p);
    }
    if s'.writer.Storing? {
      WriterGrowth(g, s, step);
    }
  }
}
