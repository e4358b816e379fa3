/**
 The whole TCP server against its log: the store is the log replayed, and what each client gets
 depends only on the bytes it sent and the stores its requests met.
 */
module TcpReplay {
  import opened TextProtocol
  import opened Dispatch
  import opened EventLoop
  import opened Framing
  import opened Scheduling
  import opened TcpServer
  import opened TcpPlaces
  import opened TcpStreams

  // ---------------------------------------------------------------------------
  // The log
  // ---------------------------------------------------------------------------

  function LinesOf(log: seq<Dispatched>): (r: seq<string>)
    ensures |r| == |log| && forall i :: 0 <= i < |log| ==> r[i] == log[i].line
  {
    seq(|log|, i requires 0 <= i < |log| => log[i].line)
  }

  /** The lines one connection dispatched, in order. */
  function OwnLines(log: seq<Dispatched>, h: Handle): seq<string> {
    if log == [] then []
    else
      var last := log[|log| - 1];
      OwnLines(log[..|log| - 1], h) + (if last.who == h then [last.line] else [])
  }

  /** The replies to one connection's requests when the whole log is replayed from an empty store. */
  function OwnReplies(log: seq<Dispatched>, h: Handle): seq<string> {
    if log == [] then []
    else
      OwnReplies(log[..|log| - 1], h)
      + (if log[|log| - 1].who == h then [Replies(map[], LinesOf(log))[|log| - 1]] else [])
  }

  /** The store each of one connection's requests met. */
  function StoresMet(log: seq<Dispatched>, h: Handle): seq<KvStore> {
    if log == [] then []
    else
      var before := log[..|log| - 1];
      StoresMet(before, h) + (if log[|log| - 1].who == h then [StoreAfter(map[], LinesOf(before))] else [])
  }

  ghost predicate HistoryOk(s: State, h: Handle)
    requires IsClient(s, h)
  {
    s.frames[h].lines == OwnLines(s.log, h) && s.frames[h].replies == OwnReplies(s.log, h)
  }

  ghost predicate LogOk(s: State) {
    && s.store == StoreAfter(map[], LinesOf(s.log))
    && NewlineFree(LinesOf(s.log))
    && (forall i :: 0 <= i < |s.log| ==> s.log[i].who in s.frames)
    && (forall h :: IsClient(s, h) ==> HistoryOk(s, h))
  }

  lemma LogExtended(log: seq<Dispatched>, d: Dispatched, h: Handle)
    ensures LinesOf(log + [d]) == LinesOf(log) + [d.line]
    ensures StoreAfter(map[], LinesOf(log + [d])) == Execute(StoreAfter(map[], LinesOf(log)), d.line).0
    ensures OwnLines(log + [d], h) == OwnLines(log, h) + (if d.who == h then [d.line] else [])
    ensures OwnReplies(log + [d], h) == OwnReplies(log, h)
            + (if d.who == h then [Execute(StoreAfter(map[], LinesOf(log)), d.line).1] else [])
  {
    hide Execute;
    var longer := log + [d];
    assert longer[..|log|] == log;
    assert LinesOf(longer)[..|log|] == LinesOf(log);
    assert LinesOf(longer) == LinesOf(log) + [d.line];
  }

  lemma {:induction false} NothingOwn(log: seq<Dispatched>, h: Handle)
    requires forall i :: 0 <= i < |log| ==> log[i].who != h
    ensures OwnLines(log, h) == [] && OwnReplies(log, h) == []
  {
    if log != [] {
      NothingOwn(log[..|log| - 1], h);
    }
  }

  lemma ProcessKeepsLog(s: State, h: Handle)
    requires LogOk(s) && RunsClient(s, h)
    ensures LogOk(DoProcess(s, h))
  {
    hide Execute, Find, ParseRequest, LinesOf, OwnLines, OwnReplies, StoreAfter;
    var c := s.frames[h];
    var s' := DoProcess(s, h);
    assert HistoryOk(s, h);
    if Find(c.inbound, '\n') < |c.inbound| {
      var line := c.inbound[..Find(c.inbound, '\n')];
      var d := Dispatched(h, line);
      forall x | IsClient(s', x)
        ensures HistoryOk(s', x)
      {
        assert HistoryOk(s, x);
        LogExtended(s.log, d, x);
      }
      LogExtended(s.log, d, h);
    } else {
      forall x | IsClient(s', x)
        ensures HistoryOk(s', x)
      {
        assert HistoryOk(s, x);
      }
    }
  }

  /** No request was executed; connections present before are as they were, new ones have no history. */
  lemma LogUntouched(s: State, s': State)
    requires LogOk(s) && s'.store == s.store && s'.log == s.log
    requires forall h :: h in s.frames ==> h in s'.frames
    requires forall h :: IsClient(s', h) ==>
               if h in s.frames
               then IsClient(s, h) && s'.frames[h].lines == s.frames[h].lines
                    && s'.frames[h].replies == s.frames[h].replies
               else s'.frames[h] == NEW_CLIENT
    ensures LogOk(s')
  {
    hide LinesOf, OwnLines, OwnReplies, StoreAfter;
    forall h | IsClient(s', h)
      ensures HistoryOk(s', h)
    {
      if h in s.frames {
        assert HistoryOk(s, h);
      } else {
        NothingOwn(s.log, h);
      }
    }
  }

  lemma AcceptKeepsLog(s: State, result: AcceptResult)
    requires LogOk(s) && FramesOk(s) && Enabled(s, AcceptOne(result))
    ensures LogOk(DoAccept(s, result))
  {
    hide LogOk;
    LogUntouched(s, DoAccept(s, result));
  }

  lemma TransferKeepsLog(s: State, step: Step)
    requires LogOk(s) && Enabled(s, step) && (step.Receive? || step.SendSome?)
    ensures LogOk(Apply(s, step))
  {
    hide LogOk;
    LogUntouched(s, Apply(s, step));
  }

  lemma SchedulingKeepsLog(s: State, step: Step)
    requires LogOk(s) && Enabled(s, step) && (step.Resume? || step.AwaitClients? || step.Poll?)
    ensures LogOk(Apply(s, step))
  {
    hide LogOk, WakeAll;
    LogUntouched(s, Apply(s, step));
  }

  lemma StepKeepsLog(s: State, step: Step)
    requires LogOk(s) && FramesOk(s) && Enabled(s, step)
    ensures LogOk(Apply(s, step))
  {
    hide LogOk, FramesOk, DoReceive, DoProcess, DoSend, DoAccept, WakeAll;
    match step
    case Process(h) => ProcessKeepsLog(s, h);
    case AcceptOne(result) => AcceptKeepsLog(s, result);
    case Receive(_, _) => TransferKeepsLog(s, step);
    case SendSome(_, _) => TransferKeepsLog(s, step);
    case _ => SchedulingKeepsLog(s, step);
  }

  lemma InitialLog(s: State, listener: int)
    requires Initial(s, listener)
    ensures LogOk(s) && StreamsOk(s)
  {
    assert LinesOf([]) == [];
  }

  ghost predicate ServerOk(s: State) {
    PlacesOk(s) && StreamsOk(s) && LogOk(s)
  }

  lemma StepKeepsServer(s: State, step: Step)
    requires ServerOk(s) && Enabled(s, step)
    ensures ServerOk(Apply(s, step))
  {
    hide SchedOk, FramesOk, StreamsOk, LogOk, Apply, Enabled;
    StepKeepsPlaces(s, step);
    StepKeepsStreams(s, step);
    StepKeepsLog(s, step);
  }

  lemma InitialServer(s: State, listener: int)
    requires Initial(s, listener)
    ensures ServerOk(s)
  {
    InitialPlaces(s, listener);
    InitialLog(s, listener);
    hide PlacesOk, StreamsOk, LogOk;
  }

  lemma {:induction false} RunKeepsServer(listener: int, run: seq<State>, steps: seq<Step>, n: nat)
    requires IsRun(listener, run, steps) && n <= |steps|
    ensures ServerOk(run[n])
  {
    hide ServerOk, Apply, Enabled, Initial;
    if n == 0 {
      InitialServer(run[0], listener);
    } else {
      RunKeepsServer(listener, run, steps, n - 1);
      assert Follows(run[n - 1], steps[n - 1], run[n]);
      StepKeepsServer(run[n - 1], steps[n - 1]);
    }
  }

  // ---------------------------------------------------------------------------
  // The bytes received
  // ---------------------------------------------------------------------------

  /** Everything recv() handed to one connection, in order, however it was cut up. */
  function BytesFor(steps: seq<Step>, h: Handle): string {
    if steps == [] then ""
    else
      var last := steps[|steps| - 1];
      BytesFor(steps[..|steps| - 1], h) + (if last.Receive? && last.h == h && last.got.Bytes? then last.got.data else "")
  }

  ghost predicate ReceivedIs(s: State, steps: seq<Step>, h: Handle) {
    && (IsClient(s, h) ==> s.frames[h].received == BytesFor(steps, h))
    && (h !in s.frames ==> BytesFor(steps, h) == "")
  }

  lemma StepReceives(s: State, step: Step, h: Handle)
    requires FramesOk(s) && Enabled(s, step)
    ensures h in s.frames ==> h in Apply(s, step).frames && (IsClient(Apply(s, step), h) ==> IsClient(s, h))
    ensures IsClient(Apply(s, step), h) ==>
              Apply(s, step).frames[h].received
              == (if h in s.frames && s.frames[h].Client? then s.frames[h].received else "")
                 + (if step.Receive? && step.h == h && step.got.Bytes? then step.got.data else "")
    ensures step.Receive? ==> step.h in s.frames
  {
    hide WakeAll, Execute, Find, ParseRequest;
  }

  lemma {:induction false} RunReceives(listener: int, run: seq<State>, steps: seq<Step>, n: nat, h: Handle)
    requires IsRun(listener, run, steps) && n <= |steps|
    ensures ReceivedIs(run[n], steps[..n], h)
  {
    hide FramesOk, SchedOk, Apply, Enabled;
    if n > 0 {
      RunReceives(listener, run, steps, n - 1, h);
      RunKeepsPlaces(listener, run, steps, n - 1);
      assert Follows(run[n - 1], steps[n - 1], run[n]);
      assert steps[..n][..n - 1] == steps[..n - 1];
      StepReceives(run[n - 1], steps[n - 1], h);
    }
  }
}
