/** Sequential runs of the one-sided table: any mix of server and client operations. */
module TableRuns {
  import opened ProbeTable
  import opened TableOps

  datatype Op =
    | Set(key: string, value: string)
    | Erase(key: string)
    | Get(key: string)
    | RemoteSet(key: string, value: string)
    | RemoteGet(key: string, meta: bool)

  datatype Reply = Verdict(ok: bool) | Answer(found: Option<string>)

  function Exec(g: Layout, t: Table, op: Op): (r: (Table, Reply))
    requires g.Valid() && |t| == g.n
    ensures |r.0| == g.n
  {
    match op
    case Set(k, v) => var (t', ok) := ServerSet(g, t, k, v); (t', Verdict(ok))
    case Erase(k) => var (t', ok) := ServerErase(g, t, k); (t', Verdict(ok))
    case Get(k) => (t, Answer(Lookup(g, t, k)))
    case RemoteSet(k, v) => var (t', error) := ClientSet(g, t, k, v); (t', Verdict(error.None?))
    case RemoteGet(k, meta) =>
      var (t', found) := ClientGet(g, t, k, meta);
      (t', Answer(if found.Some? then Some(found.value.0) else None))
  }

  function EmptyTable(g: Layout): (t: Table)
    ensures |t| == g.n && forall p :: 0 <= p < g.n ==> t[p].Vacant?
  {
    seq(g.n, _ => Vacant)
  }

  /** The table after a history of operations on an empty one. */
  function TableAfter(g: Layout, ops: seq<Op>): (t: Table)
    requires g.Valid()
    ensures |t| == g.n
  {
    if ops == [] then EmptyTable(g)
    else Exec(g, TableAfter(g, ops[..|ops| - 1]), ops[|ops| - 1]).0
  }

  /** The reply to operation `i` of a history. */
  function ReplyAt(g: Layout, ops: seq<Op>, i: nat): Reply
    requires g.Valid() && i < |ops|
  {
    Exec(g, TableAfter(g, ops[..i]), ops[i]).1
  }

  /** What an operation with this reply does to a plain map. */
  function MapStep(m: map<string, string>, op: Op, reply: Reply): map<string, string> {
    if !reply.Verdict? || !reply.ok then m
    else match op
      case Set(k, v) => m[k := v]
      case RemoteSet(k, v) => m[k := v]
      case Erase(k) => m - {k}
      case _ => m
  }

  /** The plain map after the same history with the same verdicts. */
  function MapAfter(g: Layout, ops: seq<Op>): map<string, string>
    requires g.Valid()
  {
    if ops == [] then map[]
    else
      var i := |ops| - 1;
      MapStep(MapAfter(g, ops[..i]), ops[i], ReplyAt(g, ops, i))
  }

  /** A fresh insertion of `k` restarts its tally, a successful metadata GET adds one. */
  function TallyStep(m: map<string, string>, op: Op, reply: Reply, k: string, tally: nat): nat {
    if op.key != k then tally
    else if (op.Set? || op.RemoteSet?) && reply == Verdict(true) && k !in m then 0
    else if op.RemoteGet? && op.meta && k in m then tally + 1
    else tally
  }

  /** Successful metadata GETs of `k` since `k` was last inserted afresh. */
  function HitsSinceInsertion(g: Layout, ops: seq<Op>, k: string): nat
    requires g.Valid()
  {
    if ops == [] then 0
    else
      var i := |ops| - 1;
      TallyStep(MapAfter(g, ops[..i]), ops[i], ReplyAt(g, ops, i), k, HitsSinceInsertion(g, ops[..i], k))
  }

  lemma EmptyTableIsEmptyMap(g: Layout)
    requires g.Valid()
    ensures Inv(g, EmptyTable(g))
    ensures Values(EmptyTable(g)) == map[]
    ensures Counts(EmptyTable(g)) == map[]
  {
    assert Index(EmptyTable(g)) == map[];
  }

  /** What an operation with this reply does to the counters. */
  function CountsStep(c: map<string, nat>, op: Op, reply: Reply): map<string, nat> {
    match op
    case RemoteGet(k, meta) => if meta && k in c then c[k := (c[k] + 1) % COUNTER_RANGE] else c
    case Get(_) => c
    case Erase(k) => c - {k}
    case _ => if reply == Verdict(true) then c[op.key := if op.key in c then c[op.key] else 0] else c
  }

  lemma SetIsViewStep(g: Layout, t: Table, op: Op)
    requires g.Valid() && Inv(g, t) && op.Set?
    ensures var (t', reply) := Exec(g, t, op);
            && Inv(g, t')
            && Values(t') == MapStep(Values(t), op, reply)
            && Counts(t') == CountsStep(Counts(t), op, reply)
  {
    hide Values, Counts, Vacancies, Unique, Chained, Index, ServerSet;
    ServerSetIsMapUpdate(g, t, op.key, op.value);
  }

  lemma RemoteSetIsViewStep(g: Layout, t: Table, op: Op)
    requires g.Valid() && Inv(g, t) && op.RemoteSet?
    ensures var (t', reply) := Exec(g, t, op);
            && Inv(g, t')
            && Values(t') == MapStep(Values(t), op, reply)
            && Counts(t') == CountsStep(Counts(t), op, reply)
  {
    hide Values, Counts, Unique, Chained, Index, ClientSet;
    ClientSetIsMapUpdate(g, t, op.key, op.value);
  }

  lemma EraseIsViewStep(g: Layout, t: Table, op: Op)
    requires g.Valid() && Inv(g, t) && op.Erase?
    ensures var (t', reply) := Exec(g, t, op);
            && Inv(g, t')
            && reply == Verdict(op.key in Values(t))
            && Values(t') == MapStep(Values(t), op, reply)
            && Counts(t') == CountsStep(Counts(t), op, reply)
  {
    hide Values, Counts, Vacancies, Unique, Chained, Index, ServerErase;
    ServerEraseIsMapRemoval(g, t, op.key);
    assert op.key !in Values(t) ==> Values(t) - {op.key} == Values(t);
  }

  lemma GetIsViewStep(g: Layout, t: Table, op: Op)
    requires g.Valid() && Inv(g, t) && (op.Get? || op.RemoteGet?)
    ensures var (t', reply) := Exec(g, t, op);
            && Inv(g, t')
            && reply == Answer(Find(Values(t), op.key))
            && Values(t') == MapStep(Values(t), op, reply)
            && Counts(t') == CountsStep(Counts(t), op, reply)
  {
    hide Values, Counts, Vacancies, Unique, Chained, Index, ClientGet, Lookup;
    if op.Get? {
      LookupIsMapLookup(g, t, op.key);
    } else {
      ClientGetIsMapLookup(g, t, op.key, op.meta);
    }
  }

  lemma ExecIsViewStep(g: Layout, t: Table, op: Op)
    requires g.Valid() && Inv(g, t)
    ensures var (t', reply) := Exec(g, t, op);
            && Inv(g, t')
            && Values(t') == MapStep(Values(t), op, reply)
            && Counts(t') == CountsStep(Counts(t), op, reply)
            && (op.Erase? ==> reply == Verdict(op.key in Values(t)))
            && (op.Get? || op.RemoteGet? ==> reply == Answer(Find(Values(t), op.key)))
  {
    match op
    case Set(_, _) => SetIsViewStep(g, t, op);
    case RemoteSet(_, _) => RemoteSetIsViewStep(g, t, op);
    case Erase(_) => EraseIsViewStep(g, t, op);
    case Get(_) => GetIsViewStep(g, t, op);
    case RemoteGet(_, _) => GetIsViewStep(g, t, op);
  }

  /** In every run the table invariant holds and the table is the plain map. */
  lemma {:induction false} RunsRefineMap(g: Layout, ops: seq<Op>)
    requires g.Valid()
    ensures Inv(g, TableAfter(g, ops))
    ensures Values(TableAfter(g, ops)) == MapAfter(g, ops)
  {
    if ops == [] {
      EmptyTableIsEmptyMap(g);
    } else {
      var i := |ops| - 1;
      RunsRefineMap(g, ops[..i]);
      ExecIsViewStep(g, TableAfter(g, ops[..i]), ops[i]);
    }
  }

  /** In every run each read and each erase is answered as the plain map would. */
  lemma RepliesAreMapReplies(g: Layout, ops: seq<Op>, i: nat)
    requires g.Valid() && i < |ops|
    ensures ops[i].Erase? ==> ReplyAt(g, ops, i) == Verdict(ops[i].key in MapAfter(g, ops[..i]))
    ensures ops[i].Get? || ops[i].RemoteGet? ==>
              ReplyAt(g, ops, i) == Answer(Find(MapAfter(g, ops[..i]), ops[i].key))
  {
    RunsRefineMap(g, ops[..i]);
    ExecIsViewStep(g, TableAfter(g, ops[..i]), ops[i]);
  }

  lemma SameKeys(t: Table)
    requires Unique(t)
    ensures Counts(t).Keys == Values(t).Keys
  {
  }

  lemma TallyFollowsCounts(m: map<string, string>, c: map<string, nat>, op: Op, reply: Reply, k: string, tally: nat)
    requires c.Keys == m.Keys
    requires k in c ==> c[k] == tally % COUNTER_RANGE
    ensures var c' := CountsStep(c, op, reply);
            k in c' ==> c'[k] == TallyStep(m, op, reply, k, tally) % COUNTER_RANGE
  {
  }

  /**
   In every run a stored key's counter is, modulo 2^64, the number of successful metadata
   GETs since the key was last inserted afresh.
   */
  lemma {:induction false} CounterIsHits(g: Layout, ops: seq<Op>, k: string)
    requires g.Valid()
    ensures Inv(g, TableAfter(g, ops))
    ensures k in Counts(TableAfter(g, ops)) ==>
              Counts(TableAfter(g, ops))[k] == HitsSinceInsertion(g, ops, k) % COUNTER_RANGE
  {
    if ops == [] {
      EmptyTableIsEmptyMap(g);
    } else {
      var i := |ops| - 1;
      var t := TableAfter(g, ops[..i]);
      CounterIsHits(g, ops[..i], k);
      RunsRefineMap(g, ops[..i]);
      ExecIsViewStep(g, t, ops[i]);
      SameKeys(t);
      TallyFollowsCounts(Values(t), Counts(t), ops[i], ReplyAt(g, ops, i), k, HitsSinceInsertion(g, ops[..i], k));
    }
  }
}
