/** What remote callers can rely on in every concurrent run of the exported table. */
module RemoteAtomicity {
  import opened ProbeTable
  import opened SlotLayout
  import opened TableOps
  import opened RemoteRuns

  /** The map a state stands for. */
  ghost function MapOf(s: State): map<string, string> {
    if Unique(s.table) then Values(s.table) else map[]
  }

  // ---------------------------------------------------------------------------
  // GET
  // ---------------------------------------------------------------------------

  /** In this state the map gives this answer for the key. A call whose link failed answers nothing. */
  ghost predicate Answers(s: State, key: string, result: GetResult) {
    match result
    case Hit(v, _) => Find(MapOf(s), key) == Some(v)
    case Miss => Find(MapOf(s), key) == None
    case LinkFailed => true
  }

  ghost predicate AnsweredWithin(run: seq<State>, a: nat, b: nat, key: string, result: GetResult)
    requires b < |run|
  {
    exists t :: a <= t <= b && Answers(run[t], key, result)
  }

  /** The key is stored, in a slot the reader has not passed. */
  ghost predicate Ahead(g: Layout, t: Table, key: string, i: nat)
    requires g.Valid() && Inv(g, t)
  {
    key in Index(t) && Index(t)[key] < g.n && i <= g.Offset(key, Index(t)[key])
  }

  /** What is known of the call of reader `r` that was at its first probe in `run[a]`. */
  ghost predicate CallSoFar(g: Layout, run: seq<State>, a: nat, b: nat, r: nat, key: string)
    requires g.Valid() && b < |run| && Inv(g, run[b].table)
  {
    && r in run[b].readers
    && run[b].readers[r].key == key
    && match run[b].readers[r]
       case Probing(_, i, _) => AnsweredWithin(run, a, b, key, Miss) || Ahead(g, run[b].table, key, i)
       case Adding(_, _, v) => AnsweredWithin(run, a, b, key, Hit(v, None))
       case Finished(_, result) => AnsweredWithin(run, a, b, key, result)
  }

  lemma Extend(run: seq<State>, a: nat, b: nat, key: string, result: GetResult)
    requires b + 1 < |run| && AnsweredWithin(run, a, b, key, result)
    ensures AnsweredWithin(run, a, b + 1, key, result)
  {
    var t :| a <= t <= b && Answers(run[t], key, result);
    assert Answers(run[t], key, result);
  }

  /** A reader whose key lies ahead of it does not miss; a reader that hits reads the map's value. */
  lemma ReadIsRight(g: Layout, t: Table, rd: Reader)
    requires g.Valid() && Inv(g, t) && rd.Probing? && rd.i < g.n
    ensures var rd' := AfterRead(g, rd, t[g.Pos(rd.key, rd.i)]);
            && rd'.key == rd.key
            && (rd'.Adding? ==> Find(Values(t), rd.key) == Some(rd'.value))
            && (rd'.Finished? && rd'.result.Hit? ==> Find(Values(t), rd.key) == Some(rd'.result.value))
            && (Ahead(g, t, rd.key, rd.i) ==> !(rd'.Finished? && rd'.result.Miss?))
            && (Ahead(g, t, rd.key, rd.i) && rd'.Probing? ==> Ahead(g, t, rd.key, rd'.i))
  {
    var c := t[g.Pos(rd.key, rd.i)];
    if c.Holds(rd.key) {
      EntryViews(t, g.Pos(rd.key, rd.i));
    }
    if Ahead(g, t, rd.key, rd.i) {
      var p := Index(t)[rd.key];
      assert t[p].Holds(rd.key);
      assert SolidUpTo(g, t, rd.key, g.Offset(rd.key, p));
    }
  }

  /** A key that stays stored stays ahead; one that does not is absent now. */
  lemma StillAheadOrAbsent(g: Layout, s: State, s': State, key: string, i: nat)
    requires g.Valid() && Inv(g, s.table) && Inv(g, s'.table) && SlotsStable(s.table, s'.table)
    requires Ahead(g, s.table, key, i)
    ensures Ahead(g, s'.table, key, i) || Answers(s', key, Miss)
  {
    if key !in Index(s'.table) {
      assert key !in Values(s'.table);
    }
  }

  /** One step of the run, seen from an ongoing call. */
  lemma CallStep(g: Layout, run: seq<State>, steps: seq<Step>, a: nat, b: nat, r: nat, key: string)
    requires g.Valid() && IsRun(g, run, steps) && a <= b < |steps|
    requires StateInv(g, run[b]) && StateInv(g, run[b + 1]) && CallSoFar(g, run, a, b, r, key)
    requires !(steps[b].BeginGet? && steps[b].r == r)
    ensures CallSoFar(g, run, a, b + 1, r, key)
  {
    var s, step, s' := run[b], steps[b], run[b + 1];
    assert Follows(g, s, step, s');
    TableStep(g, s, step);
    var rd := s.readers[r];
    if step.ReadSlot? && step.r == r {
      ReadStep(g, run, steps, a, b, r, key);
    } else if step.FetchAndAdd? && step.r == r {
      Extend(run, a, b, key, Hit(rd.value, None));
      var t :| a <= t <= b + 1 && Answers(run[t], key, Hit(rd.value, None));
      assert Answers(run[t], key, s'.readers[r].result);
    } else if step.GetFails? && step.r == r {
      assert Answers(run[b + 1], key, LinkFailed);
    } else {
      assert s'.readers[r] == rd;
      match rd
      case Probing(_, i, _) =>
        if AnsweredWithin(run, a, b, key, Miss) {
          Extend(run, a, b, key, Miss);
        } else {
          StillAheadOrAbsent(g, s, s', key, i);
        }
      case Adding(_, _, v) => Extend(run, a, b, key, Hit(v, None));
      case Finished(_, result) => Extend(run, a, b, key, result);
    }
  }

  lemma ReadStep(g: Layout, run: seq<State>, steps: seq<Step>, a: nat, b: nat, r: nat, key: string)
    requires g.Valid() && IsRun(g, run, steps) && a <= b < |steps|
    requires StateInv(g, run[b]) && StateInv(g, run[b + 1]) && CallSoFar(g, run, a, b, r, key)
    requires steps[b] == ReadSlot(r)
    ensures CallSoFar(g, run, a, b + 1, r, key)
  {
    var s, s' := run[b], run[b + 1];
    assert Follows(g, s, steps[b], s');
    var rd, rd' := s.readers[r], s'.readers[r];
    assert s'.table == s.table;
    ReadIsRight(g, s.table, rd);
    if AnsweredWithin(run, a, b, key, Miss) {
      Extend(run, a, b, key, Miss);
    }
    match rd'
    case Probing(_, _, _) =>
    case Adding(_, _, v) => assert Answers(run[b + 1], key, Hit(v, None));
    case Finished(_, result) =>
      if result.Hit? {
        assert Answers(run[b + 1], key, result);
      }
  }

  /** At the first probe the key is absent, or its slot lies ahead. */
  lemma CallStarts(g: Layout, run: seq<State>, a: nat, r: nat, key: string, meta: bool)
    requires g.Valid() && a < |run| && StateInv(g, run[a])
    requires r in run[a].readers && run[a].readers[r] == Probing(key, 0, meta)
    ensures CallSoFar(g, run, a, a, r, key)
  {
    if key in Index(run[a].table) {
      assert Ahead(g, run[a].table, key, 0);
    } else {
      assert key !in Values(run[a].table);
      assert Answers(run[a], key, Miss);
    }
  }

  lemma {:induction false} CallProceeds(g: Layout, run: seq<State>, steps: seq<Step>, a: nat, b: nat,
                                        r: nat, key: string, meta: bool)
    requires g.Valid() && IsRun(g, run, steps) && a <= b < |run|
    requires r in run[a].readers && run[a].readers[r] == Probing(key, 0, meta)
    requires forall j :: a <= j < b ==> !(steps[j].BeginGet? && steps[j].r == r)
    ensures StateInv(g, run[b]) && CallSoFar(g, run, a, b, r, key)
  {
    RunKeepsInv(g, run, steps, b);
    if a == b {
      CallStarts(g, run, a, r, key, meta);
    } else {
      CallProceeds(g, run, steps, a, b - 1, r, key, meta);
      CallStep(g, run, steps, a, b - 1, r, key);
    }
  }

  /** Steps `a` to `b` begin with this call of reader `r`, and it begins no other. */
  predicate IsGetCall(steps: seq<Step>, a: nat, b: nat, r: nat, key: string, meta: bool) {
    && a < b <= |steps|
    && steps[a] == BeginGet(r, key, meta)
    && forall j :: a < j < b ==> !(steps[j].BeginGet? && steps[j].r == r)
  }

  lemma GetBegins(g: Layout, run: seq<State>, steps: seq<Step>, a: nat, b: nat, r: nat, key: string, meta: bool)
    requires g.Valid() && IsRun(g, run, steps) && IsGetCall(steps, a, b, r, key, meta)
    ensures r in run[a + 1].readers && run[a + 1].readers[r] == Probing(key, 0, meta)
  {
    assert Follows(g, run[a], steps[a], run[a + 1]);
  }

  /**
   Remote GET is linearizable.  For a call of reader `r` that began at step `a` and has finished
   in `run[b]`, whatever any other reader, the writer or the server did in between: a hit returns
   the value the map held for the key at some instant of the call, and a miss means the key was
   absent at some instant of the call.
   */
  lemma RemoteGetIsAtomic(g: Layout, run: seq<State>, steps: seq<Step>, a: nat, b: nat, r: nat, key: string, meta: bool)
    requires g.Valid() && IsRun(g, run, steps) && IsGetCall(steps, a, b, r, key, meta)
    requires r in run[b].readers && run[b].readers[r].Finished?
    ensures run[b].readers[r].key == key
    ensures AnsweredWithin(run, a + 1, b, key, run[b].readers[r].result)
  {
    GetBegins(g, run, steps, a, b, r, key, meta);
    CallProceeds(g, run, steps, a + 1, b, r, key, meta);
  }

  // ---------------------------------------------------------------------------
  // SET and server mutations
  // ---------------------------------------------------------------------------

  /** The effects of the first `i` steps, in order, on a map. */
  ghost function Replay(g: Layout, run: seq<State>, steps: seq<Step>, i: nat): map<string, string>
    requires g.Valid() && IsRun(g, run, steps) && i < |run|
  {
    if i == 0 then MapOf(run[0])
    else
      assert Follows(g, run[i - 1], steps[i - 1], run[i]);
      MapEffect(Replay(g, run, steps, i - 1), EffectOf(g, run[i - 1], steps[i - 1]))
  }

  /**
   The map is the replay of the writes in the order they took effect: the one slot WRITE of
   each remote SET and each server operation.  No other step changes it.
   */
  lemma {:induction false} MapIsReplayOfWrites(g: Layout, run: seq<State>, steps: seq<Step>, i: nat)
    requires g.Valid() && IsRun(g, run, steps) && i < |run|
    ensures Unique(run[i].table) && Values(run[i].table) == Replay(g, run, steps, i)
  {
    hide Values, MapEffect, EffectOf, Apply;
    RunKeepsInv(g, run, steps, i);
    if i > 0 {
      MapIsReplayOfWrites(g, run, steps, i - 1);
      RunKeepsInv(g, run, steps, i - 1);
      assert Follows(g, run[i - 1], steps[i - 1], run[i]);
      TableStep(g, run[i - 1], steps[i - 1]);
    }
  }

  /** How many slot WRITEs steps `a` to `b` contain. */
  function Writes(steps: seq<Step>, a: nat, b: nat): nat
    requires a <= b <= |steps|
  {
    if a == b then 0 else Writes(steps, a, b - 1) + if steps[b - 1].StoreSlot? then 1 else 0
  }

  /** Steps `a` to `b` begin with this SET, and no other begins. */
  predicate IsSetCall(steps: seq<Step>, a: nat, b: nat, key: string, value: string) {
    && a < b <= |steps|
    && steps[a] == BeginSet(key, value)
    && forall j :: a < j < b ==> !steps[j].BeginSet?
  }

  /** A WRITE was acknowledged in steps `a` to `b`. */
  predicate WriteAcked(steps: seq<Step>, a: nat, b: nat)
    requires a <= b <= |steps|
  {
    exists j :: a <= j < b && steps[j] == StoreSlot(true)
  }

  /** A work request of the SET was lost in steps `a` to `b`. */
  predicate SetLost(steps: seq<Step>, a: nat, b: nat)
    requires a <= b <= |steps|
  {
    exists j :: a <= j < b && (steps[j] == SetFails || steps[j] == StoreSlot(false))
  }

  /** What is known of the SET that began at step `a`. */
  ghost predicate SetSoFar(run: seq<State>, steps: seq<Step>, a: nat, b: nat, key: string, value: string)
    requires a < b < |run| && |run| == |steps| + 1
  {
    match run[b].writer
    case Quiet => false
    case Returned(k, v, result) =>
      && k == key && v == value
      && (result.BadSize? <==> !LegalSizes(key, value))
      && (result.Stored? <==> WriteAcked(steps, a, b))
      && (result.LinkLost? <==> SetLost(steps, a, b))
      && (result.Stored? ==> Writes(steps, a, b) == 1)
      && (result.BadSize? || result.Full? ==> Writes(steps, a, b) == 0)
      && Writes(steps, a, b) <= 1
      && (result.Full? ==> exists t :: a < t <= b && AllEntries(run[t].table) && key !in MapOf(run[t]))
    case w =>
      && w.key == key && w.value == value && LegalSizes(key, value)
      && Writes(steps, a, b) == 0 && !WriteAcked(steps, a, b) && !SetLost(steps, a, b)
  }

  lemma OutcomesGrow(steps: seq<Step>, a: nat, b: nat)
    requires a <= b < |steps|
    ensures WriteAcked(steps, a, b + 1) <==> WriteAcked(steps, a, b) || steps[b] == StoreSlot(true)
    ensures SetLost(steps, a, b + 1) <==> SetLost(steps, a, b) || steps[b] == SetFails || steps[b] == StoreSlot(false)
  {
    if WriteAcked(steps, a, b) {
      var j :| a <= j < b && steps[j] == StoreSlot(true);
      assert steps[j] == StoreSlot(true);
    }
    if SetLost(steps, a, b) {
      var j :| a <= j < b && (steps[j] == SetFails || steps[j] == StoreSlot(false));
      assert steps[j] == SetFails || steps[j] == StoreSlot(false);
    }
  }

  /** One step of the run, seen from an ongoing SET. */
  lemma SetStep(g: Layout, run: seq<State>, steps: seq<Step>, a: nat, b: nat, key: string, value: string)
    requires g.Valid() && IsRun(g, run, steps) && a < b < |steps|
    requires StateInv(g, run[b]) && SetSoFar(run, steps, a, b, key, value)
    requires !steps[b].BeginSet?
    ensures SetSoFar(run, steps, a, b + 1, key, value)
  {
    hide Unique, Chained, Index, StopFrom, ServerSet, ServerErase, WriteAcked, SetLost;
    OutcomesGrow(steps, a, b);
    var s, step, s' := run[b], steps[b], run[b + 1];
    assert Follows(g, s, step, s');
    if step.WalkSlot? {
      WalkStep(g, s.table, s.writer);
      if s'.writer.Returned? {
        KeyNotInMap(s, s.writer.key);
        assert AllEntries(run[b].table) && key !in MapOf(run[b]);
      }
    }
  }

  lemma KeyNotInMap(s: State, key: string)
    requires Unique(s.table) && key !in Index(s.table)
    ensures key !in MapOf(s)
  {
  }

  /** The first step of a SET: illegal sizes are rejected at once, anything else starts to probe. */
  lemma SetBegins(g: Layout, run: seq<State>, steps: seq<Step>, a: nat, key: string, value: string)
    requires g.Valid() && IsRun(g, run, steps) && a < |steps| && steps[a] == BeginSet(key, value)
    ensures SetSoFar(run, steps, a, a + 1, key, value)
    ensures LegalSizes(key, value) ==> run[a + 1].writer == Walking(key, value, 0, None)
  {
    assert Follows(g, run[a], steps[a], run[a + 1]);
    OutcomesGrow(steps, a, a);
  }

  /**
   The verdict of a remote SET, from its first step on.  It is rejected for its sizes exactly when
   they are illegal; it reports success exactly when its WRITE was acknowledged, and then wrote
   exactly once; it reports a lost link exactly when a work request was lost, and then wrote at
   most once; and it reports a full table only when at some instant of the call every slot held
   another key, and wrote nothing.  Whatever it wrote was its own key and value.
   */
  lemma {:induction false} RemoteSetVerdict(g: Layout, run: seq<State>, steps: seq<Step>, a: nat, b: nat,
                                            key: string, value: string)
    requires g.Valid() && IsRun(g, run, steps) && IsSetCall(steps, a, b, key, value)
    ensures SetSoFar(run, steps, a, b, key, value)
    ensures forall j :: a < j < b && steps[j].StoreSlot? ==>
              Follows(g, run[j], steps[j], run[j + 1]) && EffectOf(g, run[j], steps[j]) == Put(key, value)
  {
    hide Follows, Enabled, Apply, SetSoFar;
    if b == a + 1 {
      SetBegins(g, run, steps, a, key, value);
    } else {
      RemoteSetVerdict(g, run, steps, a, b - 1, key, value);
      RunKeepsInv(g, run, steps, b - 1);
      SetStep(g, run, steps, a, b - 1, key, value);
      if steps[b - 1].StoreSlot? {
        StoreIsPut(g, run[b - 1], steps[b - 1], run[b]);
        WriterIsCaller(run, steps, a, b - 1, key, value);
      }
    }
  }

  lemma WriterIsCaller(run: seq<State>, steps: seq<Step>, a: nat, b: nat, key: string, value: string)
    requires a < b < |run| && |run| == |steps| + 1 && SetSoFar(run, steps, a, b, key, value)
    ensures run[b].writer.Storing? ==> run[b].writer.key == key && run[b].writer.value == value
  {
  }

  lemma StoreIsPut(g: Layout, s: State, step: Step, s': State)
    requires g.Valid() && Follows(g, s, step, s') && step.StoreSlot?
    ensures s.writer.Storing? && EffectOf(g, s, step) == Put(s.writer.key, s.writer.value)
  {
  }

  /** GETs and writes together: each GET answers from the writes that had taken effect at one instant of the call. */
  lemma RemoteGetReadsReplayedWrites(g: Layout, run: seq<State>, steps: seq<Step>, a: nat, b: nat,
                                     r: nat, key: string, meta: bool)
    requires g.Valid() && IsRun(g, run, steps) && IsGetCall(steps, a, b, r, key, meta)
    requires r in run[b].readers && run[b].readers[r].Finished? && !run[b].readers[r].result.LinkFailed?
    ensures var result := run[b].readers[r].result;
            exists t :: a < t <= b
                        && Find(Replay(g, run, steps, t), key) == if result.Hit? then Some(result.value) else None
  {
    var result := run[b].readers[r].result;
    RemoteGetIsAtomic(g, run, steps, a, b, r, key, meta);
    var t :| a + 1 <= t <= b && Answers(run[t], key, result);
    MapIsReplayOfWrites(g, run, steps, t);
    assert Find(Replay(g, run, steps, t), key) == if result.Hit? then Some(result.value) else None;
  }

  // ---------------------------------------------------------------------------
  // Undisturbed calls
  // ---------------------------------------------------------------------------

  /** A reader's slot-by-slot walk over a table nobody changes. */
  function ReadOn(g: Layout, t: Table, rd: Reader): Reader
    requires g.Valid() && |t| == g.n && (rd.Probing? ==> rd.i < g.n)
    decreases if rd.Probing? then g.n - rd.i else 0
  {
    if rd.Probing? then ReadOn(g, t, AfterRead(g, rd, t[g.Pos(rd.key, rd.i)])) else rd
  }

  lemma {:induction false} ReadOnFrom(g: Layout, t: Table, rd: Reader)
    requires g.Valid() && |t| == g.n && rd.Probing? && rd.i < g.n
    requires forall m :: 0 <= m < rd.i ==> !Stops(t[g.Pos(rd.key, m)], rd.key)
    ensures ReadOn(g, t, rd) ==
            var j := Stop(g, t, rd.key);
            if j < g.n && t[g.Pos(rd.key, j)].Entry? then
              var p := g.Pos(rd.key, j);
              if rd.meta then Adding(rd.key, p, t[p].value) else Finished(rd.key, Hit(t[p].value, None))
            else Finished(rd.key, Miss)
    decreases g.n - rd.i
  {
    if Stops(t[g.Pos(rd.key, rd.i)], rd.key) {
      assert Stop(g, t, rd.key) == rd.i;
    } else if rd.i + 1 < g.n {
      ReadOnFrom(g, t, rd.(i := rd.i + 1));
    } else {
      assert Stop(g, t, rd.key) == g.n;
    }
  }

  /** A GET carried out with nobody else acting and nothing lost: its remaining steps, one after another. */
  ghost function GetAlone(g: Layout, s: State, r: nat): State
    requires g.Valid() && |s.table| == g.n && r in s.readers
    requires s.readers[r].Probing? ==> s.readers[r].i < g.n
    requires s.readers[r].Adding? ==> s.readers[r].pos < g.n && s.table[s.readers[r].pos].Entry?
    decreases if s.readers[r].Probing? then g.n - s.readers[r].i + 1 else if s.readers[r].Adding? then 1 else 0
  {
    var rd := s.readers[r];
    match rd
    case Probing(_, _, _) => GetAlone(g, Apply(g, s, ReadSlot(r)), r)
    case Adding(_, pos, _) => Apply(g, s, FetchAndAdd(r, s.table[pos].count, true))
    case Finished(_, _) => s
  }

  lemma {:induction false} GetAloneReads(g: Layout, s: State, r: nat)
    requires g.Valid() && |s.table| == g.n && r in s.readers
    requires s.readers[r].Probing? && s.readers[r].i < g.n
    ensures var rd := ReadOn(g, s.table, s.readers[r]);
            && (rd.Adding? ==> rd.pos < g.n && s.table[rd.pos].Entry?)
            && !rd.Probing?
            && GetAlone(g, s, r) == GetAlone(g, s.(readers := s.readers[r := rd]), r)
    decreases g.n - s.readers[r].i
  {
    var rd := s.readers[r];
    var s' := Apply(g, s, ReadSlot(r));
    assert s'.readers[r] == AfterRead(g, rd, s.table[g.Pos(rd.key, rd.i)]);
    assert s' == s.(readers := s.readers[r := s'.readers[r]]);
    if s'.readers[r].Probing? {
      GetAloneReads(g, s', r);
      var last := ReadOn(g, s.table, rd);
      assert s'.readers[r := last] == s.readers[r := last];
    } else {
      assert ReadOn(g, s.table, rd) == s'.readers[r];
    }
  }

  /** What the whole-table GET reports, as the result of a call. */
  function ResultOf(found: Option<(string, nat)>, meta: bool): GetResult {
    if found.None? then Miss else Hit(found.value.0, if meta then Some(found.value.1) else None)
  }

  /** Undisturbed, a GET from its first step to its return does what the whole-table GET does. */
  lemma UndisturbedGet(g: Layout, s: State, r: nat, key: string, meta: bool)
    requires g.Valid() && |s.table| == g.n && Enabled(g, s, BeginGet(r, key, meta))
    ensures var (t', found) := ClientGet(g, s.table, key, meta);
            GetAlone(g, Apply(g, s, BeginGet(r, key, meta)), r)
            == State(t', s.readers[r := Finished(key, ResultOf(found, meta))], s.writer)
  {
    var begun := Apply(g, s, BeginGet(r, key, meta));
    GetAloneReads(g, begun, r);
    ReadOnFrom(g, s.table, Probing(key, 0, meta));
    var rd := ReadOn(g, s.table, Probing(key, 0, meta));
    hide ReadOn, Inv, Index;
    assert begun.readers[r := rd] == s.readers[r := rd];
    var last := Finished(key, ResultOf(ClientGet(g, s.table, key, meta).1, meta));
    assert s.readers[r := rd][r := last] == s.readers[r := last];
  }

  /** The writer's slot-by-slot walk over a table nobody changes. */
  function WalkOn(g: Layout, t: Table, w: Writer): Writer
    requires g.Valid() && |t| == g.n && (w.Walking? ==> w.i < g.n)
    decreases if w.Walking? then g.n - w.i else 0
  {
    if w.Walking? then WalkOn(g, t, AfterWalk(g, w, t[g.Pos(w.key, w.i)])) else w
  }

  lemma {:induction false} WalkOnFrom(g: Layout, t: Table, w: Writer)
    requires g.Valid() && |t| == g.n && w.Walking? && w.i < g.n
    requires forall m :: 0 <= m < w.i ==> !Stops(t[g.Pos(w.key, m)], w.key)
    requires var f := FirstTomb(g, t, w.key, w.i);
             w.tomb == if f < w.i then Some(g.Pos(w.key, f)) else None
    ensures WalkOn(g, t, w) ==
            var j := Stop(g, t, w.key);
            var f := FirstTomb(g, t, w.key, j);
            if j < g.n && t[g.Pos(w.key, j)].Entry? then
              Storing(w.key, w.value, g.Pos(w.key, j), t[g.Pos(w.key, j)].count)
            else if f < g.n then Storing(w.key, w.value, g.Pos(w.key, f), 0)
            else Returned(w.key, w.value, Full)
    decreases g.n - w.i
  {
    var p := g.Pos(w.key, w.i);
    var f := FirstTomb(g, t, w.key, w.i);
    var f' := FirstTomb(g, t, w.key, w.i + 1);
    assert f < w.i ==> f' == f;
    assert f == w.i ==> f' == if t[p].Tombstone? then w.i else w.i + 1;
    if Stops(t[p], w.key) {
      assert Stop(g, t, w.key) == w.i;
    } else if w.i + 1 < g.n {
      WalkOnFrom(g, t, AfterWalk(g, w, t[p]));
    } else {
      assert Stop(g, t, w.key) == g.n;
    }
  }

  /** A SET carried out with nobody else acting and nothing lost. */
  ghost function SetAlone(g: Layout, s: State): State
    requires g.Valid() && |s.table| == g.n
    requires s.writer.Walking? ==> s.writer.i < g.n
    requires s.writer.Storing? ==> s.writer.target < g.n
    requires s.writer.Walking? && s.writer.tomb.Some? ==> s.writer.tomb.value < g.n
    decreases if s.writer.Walking? then g.n - s.writer.i + 1 else if s.writer.Storing? then 1 else 0
  {
    match s.writer
    case Walking(_, _, _, _) => SetAlone(g, Apply(g, s, WalkSlot))
    case Storing(_, _, _, _) => Apply(g, s, StoreSlot(true))
    case _ => s
  }

  lemma {:induction false} SetAloneWalks(g: Layout, s: State)
    requires g.Valid() && |s.table| == g.n && s.writer.Walking? && s.writer.i < g.n
    requires s.writer.tomb.Some? ==> s.writer.tomb.value < g.n
    ensures var w := WalkOn(g, s.table, s.writer);
            && (w.Storing? ==> w.target < g.n)
            && !w.Walking?
            && SetAlone(g, s) == SetAlone(g, s.(writer := w))
    decreases g.n - s.writer.i
  {
    var s' := Apply(g, s, WalkSlot);
    assert s' == s.(writer := s'.writer);
    if s'.writer.Walking? {
      SetAloneWalks(g, s');
    } else {
      assert WalkOn(g, s.table, s.writer) == s'.writer;
    }
  }

  /** What the whole-table SET reports, as the result of a call. */
  function VerdictOf(error: Option<SetError>): SetResult {
    match error
    case None => Stored
    case Some(TableFull) => Full
    case Some(_) => BadSize
  }

  /** Undisturbed, a SET from its first step to its return does what the whole-table SET does. */
  lemma UndisturbedSet(g: Layout, s: State, key: string, value: string)
    requires g.Valid() && |s.table| == g.n && !s.writer.Active()
    ensures var (t', error) := ClientSet(g, s.table, key, value);
            SetAlone(g, Apply(g, s, BeginSet(key, value)))
            == State(t', s.readers, Returned(key, value, VerdictOf(error)))
  {
    if LegalSizes(key, value) {
      SetAloneWalks(g, Apply(g, s, BeginSet(key, value)));
      WalkOnFrom(g, s.table, Walking(key, value, 0, None));
      hide WalkOn;
    }
  }
}
