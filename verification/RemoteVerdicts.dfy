/** What a remote GET reports, from its first step to its return, in every concurrent run. */
module RemoteVerdicts {
  import opened ProbeTable
  import opened TableOps
  import opened RemoteRuns
  import opened RemoteAtomicity

  /** A work request of reader `r` was lost in steps `a` to `b`. */
  predicate GetLost(steps: seq<Step>, a: nat, b: nat, r: nat)
    requires a <= b <= |steps|
  {
    exists j :: a <= j < b && LosesGet(steps[j], r)
  }

  predicate LosesGet(step: Step, r: nat) {
    step == GetFails(r) || (step.FetchAndAdd? && step.r == r && !step.acked)
  }

  /** The fetch-and-adds of reader `r` in steps `a` to `b`. */
  function AddsBy(steps: seq<Step>, a: nat, b: nat, r: nat): nat
    requires a <= b <= |steps|
  {
    if a == b then 0
    else AddsBy(steps, a, b - 1, r) + if steps[b - 1].FetchAndAdd? && steps[b - 1].r == r then 1 else 0
  }

  /** Reader `r` read the key's slot `p` with value `v` at step `t`. */
  predicate ReadsKey(run: seq<State>, steps: seq<Step>, t: nat, r: nat, key: string, p: nat, v: string)
    requires |run| == |steps| + 1
  {
    && t < |steps| && steps[t] == ReadSlot(r)
    && p < |run[t].table| && run[t].table[p].Holds(key) && run[t].table[p].value == v
  }

  ghost predicate FoundAt(run: seq<State>, steps: seq<Step>, a: nat, b: nat, r: nat, key: string, p: nat, v: string)
    requires |run| == |steps| + 1
  {
    exists t :: a <= t < b && ReadsKey(run, steps, t, r, key, p, v)
  }

  /** Step `u` is an acknowledged fetch-and-add of reader `r` on slot `p` that returned `c`. */
  predicate AddsAt(run: seq<State>, steps: seq<Step>, u: nat, r: nat, p: nat, c: nat)
    requires |run| == |steps| + 1
  {
    && u < |steps| && steps[u] == FetchAndAdd(r, c, true)
    && p < |run[u].table|
    && (run[u].table[p].Entry? ==>
          c == run[u].table[p].count && run[u + 1].table == run[u].table[p := Bumped(run[u].table[p])])
  }

  /** A slot in which the key was read during the call was added to during the call, and held this count. */
  ghost predicate Counted(run: seq<State>, steps: seq<Step>, a: nat, b: nat, r: nat, key: string, v: string, c: nat)
    requires |run| == |steps| + 1
  {
    exists p, u :: a <= u < b && AddsAt(run, steps, u, r, p, c) && FoundAt(run, steps, a, u, r, key, p, v)
  }

  /** What is known of a GET that began at step `a`, of its result and its fetch-and-add. */
  ghost predicate GetSoFar(run: seq<State>, steps: seq<Step>, a: nat, b: nat, r: nat, key: string, meta: bool)
    requires a < b < |run| && |run| == |steps| + 1
  {
    && r in run[b].readers
    && run[b].readers[r].key == key
    && match run[b].readers[r]
       case Probing(_, _, m) => m == meta && !GetLost(steps, a, b, r) && AddsBy(steps, a, b, r) == 0
       case Adding(_, p, v) =>
         && meta && !GetLost(steps, a, b, r) && AddsBy(steps, a, b, r) == 0
         && FoundAt(run, steps, a, b, r, key, p, v)
       case Finished(_, result) =>
         && (result.LinkFailed? <==> GetLost(steps, a, b, r))
         && (result.Miss? ==> AddsBy(steps, a, b, r) == 0)
         && AddsBy(steps, a, b, r) <= 1
         && (result.Hit? && !meta ==> result.counter == None && AddsBy(steps, a, b, r) == 0)
         && (result.Hit? && meta ==>
               && AddsBy(steps, a, b, r) == 1 && result.counter.Some?
               && Counted(run, steps, a, b, r, key, result.value, result.counter.value))
  }

  lemma LostGrows(steps: seq<Step>, a: nat, b: nat, r: nat)
    requires a <= b < |steps|
    ensures GetLost(steps, a, b + 1, r) <==> GetLost(steps, a, b, r) || LosesGet(steps[b], r)
  {
    hide LosesGet;
    if GetLost(steps, a, b, r) {
      var j :| a <= j < b && LosesGet(steps[j], r);
      assert LosesGet(steps[j], r);
    }
    if LosesGet(steps[b], r) {
      assert a <= b < b + 1;
    }
  }

  lemma FoundStays(run: seq<State>, steps: seq<Step>, a: nat, b: nat, r: nat, key: string, p: nat, v: string)
    requires |run| == |steps| + 1 && FoundAt(run, steps, a, b, r, key, p, v)
    ensures FoundAt(run, steps, a, b + 1, r, key, p, v)
  {
    hide ReadsKey;
    var t :| a <= t < b && ReadsKey(run, steps, t, r, key, p, v);
    assert ReadsKey(run, steps, t, r, key, p, v);
  }

  lemma CountedStays(run: seq<State>, steps: seq<Step>, a: nat, b: nat, r: nat, key: string, v: string, c: nat)
    requires |run| == |steps| + 1 && Counted(run, steps, a, b, r, key, v, c)
    ensures Counted(run, steps, a, b + 1, r, key, v, c)
  {
    hide AddsAt, FoundAt;
    var p, u :| a <= u < b && AddsAt(run, steps, u, r, p, c) && FoundAt(run, steps, a, u, r, key, p, v);
    assert AddsAt(run, steps, u, r, p, c) && FoundAt(run, steps, a, u, r, key, p, v);
  }

  /** A slot READ of the call. */
  lemma GetReads(g: Layout, run: seq<State>, steps: seq<Step>, a: nat, b: nat, r: nat, key: string, meta: bool)
    requires g.Valid() && IsRun(g, run, steps) && a < b < |steps| && steps[b] == ReadSlot(r)
    requires GetSoFar(run, steps, a, b, r, key, meta)
    ensures GetSoFar(run, steps, a, b + 1, r, key, meta)
  {
    hide GetLost, Counted, Inv;
    LostGrows(steps, a, b, r);
    assert Follows(g, run[b], steps[b], run[b + 1]);
    var rd, rd' := run[b].readers[r], run[b + 1].readers[r];
    if rd'.Adding? {
      assert ReadsKey(run, steps, b, r, key, rd'.pos, rd'.value);
    }
  }

  /** The fetch-and-add of the call. */
  lemma GetAdds(g: Layout, run: seq<State>, steps: seq<Step>, a: nat, b: nat, r: nat, key: string, meta: bool)
    requires g.Valid() && IsRun(g, run, steps) && a < b < |steps|
    requires steps[b].FetchAndAdd? && steps[b].r == r
    requires GetSoFar(run, steps, a, b, r, key, meta)
    ensures GetSoFar(run, steps, a, b + 1, r, key, meta)
  {
    hide GetLost, FoundAt, Inv;
    LostGrows(steps, a, b, r);
    assert Follows(g, run[b], steps[b], run[b + 1]);
    if steps[b].acked {
      var rd := run[b].readers[r];
      assert AddsAt(run, steps, b, r, rd.pos, steps[b].seen) && FoundAt(run, steps, a, b, r, key, rd.pos, rd.value);
    }
  }

  lemma OthersLeaveGet(g: Layout, run: seq<State>, steps: seq<Step>, a: nat, b: nat, r: nat, key: string, meta: bool)
    requires g.Valid() && IsRun(g, run, steps) && a < b < |steps|
    requires !(steps[b].BeginGet? && steps[b].r == r) && steps[b] != ReadSlot(r)
    requires !(steps[b].FetchAndAdd? && steps[b].r == r)
    requires GetSoFar(run, steps, a, b, r, key, meta)
    ensures GetSoFar(run, steps, a, b + 1, r, key, meta)
  {
    hide GetLost, FoundAt, Counted, Inv, ServerSet, ServerErase;
    LostGrows(steps, a, b, r);
    assert Follows(g, run[b], steps[b], run[b + 1]);
    var rd := run[b].readers[r];
    if rd.Adding? {
      FoundStays(run, steps, a, b, r, key, rd.pos, rd.value);
    }
    if rd.Finished? && rd.result.Hit? && meta {
      CountedStays(run, steps, a, b, r, key, rd.result.value, rd.result.counter.value);
    }
  }

  lemma {:induction false} GetProceeds(g: Layout, run: seq<State>, steps: seq<Step>, a: nat, b: nat,
                                       r: nat, key: string, meta: bool)
    requires g.Valid() && IsRun(g, run, steps) && IsGetCall(steps, a, b, r, key, meta)
    ensures GetSoFar(run, steps, a, b, r, key, meta)
  {
    hide GetSoFar, Follows, Initial;
    if b == a + 1 {
      GetBegins(g, run, steps, a, b, r, key, meta);
      BegunGet(run, steps, a, r, key, meta);
    } else {
      GetProceeds(g, run, steps, a, b - 1, r, key, meta);
      if steps[b - 1] == ReadSlot(r) {
        GetReads(g, run, steps, a, b - 1, r, key, meta);
      } else if steps[b - 1].FetchAndAdd? && steps[b - 1].r == r {
        GetAdds(g, run, steps, a, b - 1, r, key, meta);
      } else {
        OthersLeaveGet(g, run, steps, a, b - 1, r, key, meta);
      }
    }
  }

  lemma BegunGet(run: seq<State>, steps: seq<Step>, a: nat, r: nat, key: string, meta: bool)
    requires a < |steps| && |run| == |steps| + 1 && steps[a] == BeginGet(r, key, meta)
    requires r in run[a + 1].readers && run[a + 1].readers[r] == Probing(key, 0, meta)
    ensures GetSoFar(run, steps, a, a + 1, r, key, meta)
  {
    LostGrows(steps, a, a, r);
  }

  /**
   What a finished remote GET reports, in any run.  It reports a failed link exactly when one of
   its work requests was lost.  A hit without metadata carries no counter and added nothing.  A
   hit with metadata made exactly one fetch-and-add, acknowledged, on a slot in which the call had
   read its key and value, and carries the count that slot held then.  A miss added nothing.
   */
  lemma RemoteGetVerdict(g: Layout, run: seq<State>, steps: seq<Step>, a: nat, b: nat, r: nat, key: string, meta: bool)
    requires g.Valid() && IsRun(g, run, steps) && IsGetCall(steps, a, b, r, key, meta)
    requires r in run[b].readers && run[b].readers[r].Finished?
    ensures var result := run[b].readers[r].result;
            && (result.LinkFailed? <==> GetLost(steps, a, b, r))
            && (result.Miss? || (result.Hit? && !meta) ==> AddsBy(steps, a, b, r) == 0)
            && (result.Hit? && !meta ==> result.counter == None)
            && (result.Hit? && meta ==>
                  && AddsBy(steps, a, b, r) == 1 && result.counter.Some?
                  && Counted(run, steps, a, b, r, key, result.value, result.counter.value))
  {
    GetProceeds(g, run, steps, a, b, r, key, meta);
    hide GetLost, Counted, Follows, Initial;
  }
}
