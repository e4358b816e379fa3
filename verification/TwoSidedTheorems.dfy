/** What the two-sided exchange guarantees in every run. */
module TwoSidedTheorems {
  import opened TextProtocol
  import opened Dispatch
  import opened TwoSided
  import opened TwoSidedRuns
  import opened TwoSidedAnswers

  // ---------------------------------------------------------------------------
  // Buffers and completions
  // ---------------------------------------------------------------------------

  /** The server never has more than one receive posted, and none from the poll that ends one to the next loop turn. */
  lemma AtMostOneReceive(run: seq<State>, steps: seq<Step>, n: nat)
    requires IsRun(run, steps) && n <= |steps|
    ensures run[n].server.receives <= 1
    ensures !run[n].serverAt.Armed? ==> run[n].server.receives == 0
  {
    hide Initial, Follows, PlaceOk, BuffersOk, StoreOk, HistoryOk;
    RunKeepsExchange(run, steps, n);
    ServerShape(run[n]);
    assert run[n].serverAt.Armed? ==> run[n].server.receives <= 1 by {
      assert SendDones(run[n].server.cq) <= |run[n].server.cq|;
    }
  }

  /**
   A buffer is touched only while nobody else uses it: a side fills its send buffer when no send
   is outstanding, posts a receive when none is, and a message arrives only while the receiving
   side is polling, before it has any received data to look at.
   */
  lemma NoBufferInUseIsTouched(run: seq<State>, steps: seq<Step>, n: nat)
    requires IsRun(run, steps) && n < |steps|
    ensures LeavesUsedBuffers(run[n], steps[n])
  {
    RunKeepsExchange(run, steps, n);
    assert Follows(run[n], steps[n], run[n + 1]);
    hide IsRun, ExchangeOk, Enabled, LeavesUsedBuffers;
    StepLeavesUsedBuffers(run[n], steps[n]);
  }

  ghost predicate LeavesUsedBuffers(s: State, step: Step) {
    && (step.ClientPostSend? ==> s.client.outgoing == [] && s.client.unacked == 0)
    && (step.ServerPostSend? ==> s.server.outgoing == [] && s.server.unacked == 0)
    && (step.ClientPostRecv? ==> s.client.receives == 0 && s.client.cq == [])
    && (step.ServerPostRecv? ==> s.server.receives == 0 && s.server.cq == [])
    && (step.RequestDelivered? ==> s.serverAt.Armed? && s.server.cq == [])
    && (step.ReplyDelivered? ==>
          && (s.clientAt.RequestPosted? || s.clientAt.PolledOnce?)
          && forall i :: 0 <= i < |s.client.cq| ==> s.client.cq[i].SendDone?)
  }

  lemma StepLeavesUsedBuffers(s: State, step: Step)
    requires ExchangeOk(s) && Enabled(s, step)
    ensures LeavesUsedBuffers(s, step)
  {
    hide WorkOk, BuffersOk, StoreOk, HistoryOk, SendDones, Sends, Receives, Nic.Valid;
    ServerShape(s);
    ClientShape(s);
  }

  /** The server's polls take its own completions, one each; the client's two take one of each kind. */
  lemma PollsTakeOwnCompletions(run: seq<State>, steps: seq<Step>, n: nat)
    requires IsRun(run, steps) && n < |steps|
    ensures PollsOwn(run[n], steps[n], run[n + 1])
  {
    RunKeepsExchange(run, steps, n);
    assert Follows(run[n], steps[n], run[n + 1]);
    hide IsRun, ExchangeOk, Enabled, PollsOwn, Apply;
    StepPollsOwn(run[n], steps[n]);
  }

  ghost predicate PollsOwn(s: State, step: Step, s': State) {
    && (step.ServerPoll? && s.serverAt.Armed? ==> |s.server.cq| == 1 && s.server.cq[0].RecvDone?)
    && (step.ServerPoll? && s.serverAt.ReplyPosted? ==> s.server.cq == [SendDone])
    && (step.ClientPoll? && s.clientAt.RequestPosted? ==> Sends(s.client) == 1 && Receives(s.client) == 1)
    && (step.ClientPoll? && s.clientAt.PolledOnce? ==> Sends(s'.client) == 0 && Receives(s'.client) == 0)
  }

  lemma StepPollsOwn(s: State, step: Step)
    requires ExchangeOk(s) && Enabled(s, step)
    ensures PollsOwn(s, step, Apply(s, step))
  {
    hide PlaceOk, BuffersOk, StoreOk, HistoryOk, SendDones, Sends, Receives;
    if step.ServerPoll? {
      hide WorkOk;
      ServerShape(s);
    } else if step.ClientPoll? {
      ClientPollTakesOwn(s);
    }
  }

  lemma ClientPollTakesOwn(s: State)
    requires WorkOk(s) && s.client.cq != []
    ensures s.clientAt.RequestPosted? ==> Sends(s.client) == 1 && Receives(s.client) == 1
    ensures s.clientAt.PolledOnce? ==>
              Sends(PollCompletion(s.client)) == 0 && Receives(PollCompletion(s.client)) == 0
  {
    hide ServerWork;
    PolledWork(s.client);
  }

  // ---------------------------------------------------------------------------
  // Answers
  // ---------------------------------------------------------------------------

  /** The store each request of this client met. */
  function StoresMet(log: seq<Entry>): seq<KvStore> {
    if log == [] then []
    else
      var before := log[..|log| - 1];
      StoresMet(before) + (if log[|log| - 1].mine then [MessagesStore(map[], MessagesOf(before))] else [])
  }

  lemma {:induction false} RepliesFromStoresMet(log: seq<Entry>)
    ensures |StoresMet(log)| == |OwnMessages(log)|
    ensures forall i :: 0 <= i < |OwnMessages(log)| ==>
              OwnReplies(log)[i] == ExecuteMessage(StoresMet(log)[i], OwnMessages(log)[i]).1
  {
    hide ExecuteMessage;
    if log != [] {
      var before := log[..|log| - 1];
      RepliesFromStoresMet(before);
      assert MessagesOf(log)[..|log| - 1] == MessagesOf(before);
    }
  }

  /**
   After its two polls the client's `recv_data` is the reply to the request it just sent, as it
   fits in a buffer, executed on the store it met.
   */
  lemma RecvDataIsTheReply(run: seq<State>, steps: seq<Step>, n: nat)
    requires IsRun(run, steps) && n <= |steps| && run[n].clientAt.PolledTwice?
    ensures run[n].client.recvLen <= |run[n].client.recvBuf|
    ensures StoresMet(run[n].log) != []
    ensures var met := StoresMet(run[n].log)[|StoresMet(run[n].log)| - 1];
            run[n].client.RecvData() == Truncated(ExecuteMessage(met, Wire(run[n].clientAt.line)).1)
  {
    hide ExecuteMessage, Truncated, OwnReplies, OwnMessages, StoresMet, WorkOk, Wire, Initial, Follows, StoreOk;
    var s := run[n];
    RunKeepsExchange(run, steps, n);
    RepliesFromStoresMet(s.log);
    ClientShape(s);
    assert !Waiting(s) && PolledReply(s);
  }

  // ---------------------------------------------------------------------------
  // What the buffer size costs
  // ---------------------------------------------------------------------------

  /** The one prefix that ends in no line end and is followed by line ends only. */
  lemma {:induction false} ChompIs(s: string, r: string)
    requires r <= s && !TrailsLineEnd(r)
    requires forall i :: |r| <= i < |s| ==> s[i] == '\n' || s[i] == '\r'
    ensures Chomp(s) == r
    decreases |s|
  {
    if |s| > |r| {
      ChompIs(s[..|s| - 1], r);
    }
  }

  /** Cutting a reply to the buffer size changes the answer exactly when more than line ends are cut. */
  lemma CutLosesNothing(reply: string)
    ensures Chomp(Truncated(reply)) == Chomp(reply) <==> |Chomp(reply)| <= MSG_SIZE
  {
    hide Chomp;
    if |Chomp(reply)| <= MSG_SIZE {
      ChompIs(Truncated(reply), Chomp(reply));
    }
  }

  /** A stored value that no message can exceed is answered whole, with or without the cut. */
  lemma ValueArrives(v: string)
    requires |v| <= VALUE_BOUND + 1 && EndsSolid(v)
    ensures Chomp(Serialize(Value(v))) == "VALUE " + v
    ensures Chomp(Truncated(Serialize(Value(v)))) == "VALUE " + v
  {
    var reply, r := Serialize(Value(v)), "VALUE " + v;
    assert reply == r + "\n";
    assert r[|r| - 1] == v[|v| - 1];
    ChompIs(reply, r);
    CutLosesNothing(reply);
    hide Chomp;
  }

  /** Of the replies only rejections can lose more than line ends. */
  lemma ValidRepliesArrive(store: KvStore, message: string)
    requires SolidStore(store)
    requires !ParseRequest(StripNewline(message)).Invalid?
    ensures |Chomp(ExecuteMessage(store, message).1)| <= MSG_SIZE
  {
    hide ParseRequest, StripNewline, Serialize, Chomp, EndsSolid, Message;
    var response := RouteRequest(store, ParseRequest(StripNewline(message))).1;
    ReplyLengths(response);
    if response.Value? {
      ValueArrives(response.payload);
    }
  }

  ghost predicate LogFits(s: State) {
    forall i :: 0 <= i < |s.log| ==> |s.log[i].message| <= MSG_SIZE
  }

  lemma {:induction false} RunFits(run: seq<State>, steps: seq<Step>, n: nat)
    requires IsRun(run, steps) && n <= |steps|
    ensures LogFits(run[n])
  {
    hide Apply, Enabled, LogFits;
    if n == 0 {
      StartFits(run[0]);
    } else {
      RunFits(run, steps, n - 1);
      assert Follows(run[n - 1], steps[n - 1], run[n]);
      StepFits(run[n - 1], steps[n - 1]);
    }
  }

  lemma StartFits(s: State)
    requires Initial(s)
    ensures LogFits(s)
  {
  }

  lemma StepFits(s: State, step: Step)
    requires LogFits(s) && Enabled(s, step)
    ensures LogFits(Apply(s, step))
  {
    hide ExecuteMessage, ParseRequest, Chomp, Truncated;
  }

  /** In every run, whatever is sent, no stored value exceeds 4090 bytes and each ends in a non-space. */
  lemma RunKeepsSolid(run: seq<State>, steps: seq<Step>, n: nat)
    requires IsRun(run, steps) && n <= |steps|
    ensures SolidStore(run[n].store)
  {
    hide SolidStore, MessagesStore, Initial, Follows, WorkOk, PlaceOk, BuffersOk, HistoryOk;
    RunKeepsExchange(run, steps, n);
    RunFits(run, steps, n);
    MessagesKeepSolid(MessagesOf(run[n].log));
  }

  /** In every run a client that asks for a stored value is answered with all of it. */
  lemma StoredValuesArriveWhole(run: seq<State>, steps: seq<Step>, n: nat, key: string)
    requires IsRun(run, steps) && n <= |steps| && key in run[n].store
    ensures var v := run[n].store[key];
            && Chomp(Truncated(Serialize(Value(v)))) == "VALUE " + v
            && Chomp(Serialize(Value(v))) == "VALUE " + v
  {
    RunKeepsSolid(run, steps, n);
    hide IsRun, Serialize, Chomp, Truncated;
    ValueArrives(run[n].store[key]);
  }

  lemma {:induction false} StoresMetAreSolid(log: seq<Entry>, i: nat)
    requires forall j :: 0 <= j < |log| ==> |log[j].message| <= MSG_SIZE
    requires i < |StoresMet(log)|
    ensures SolidStore(StoresMet(log)[i])
  {
    hide SolidStore, MessagesStore, MessagesOf;
    if log != [] {
      var before := log[..|log| - 1];
      if i < |StoresMet(before)| {
        StoresMetAreSolid(before, i);
      } else {
        MessagesKeepSolid(MessagesOf(before));
      }
    }
  }

  /**
   In every run the i-th answer is the reply to the i-th request, on the store that request met,
   without its line end. A valid request gets its reply whole; any request does exactly when the
   reply fits in a buffer but for line ends.
   */
  lemma AnswersAreReplies(run: seq<State>, steps: seq<Step>, n: nat, i: nat)
    requires IsRun(run, steps) && n <= |steps| && i < |run[n].answers|
    ensures i < |run[n].asked| && i < |StoresMet(run[n].log)|
    ensures var reply := ExecuteMessage(StoresMet(run[n].log)[i], Wire(run[n].asked[i])).1;
            && run[n].answers[i] == Chomp(Truncated(reply))
            && (run[n].answers[i] == Chomp(reply) <==> |Chomp(reply)| <= MSG_SIZE)
            && (!ParseRequest(StripNewline(Wire(run[n].asked[i]))).Invalid? ==> run[n].answers[i] == Chomp(reply))
  {
    hide ExecuteMessage, Truncated, StoresMet, Wire, Chomp, Initial, Follows, SolidStore, ParseRequest;
    AnswersAreCutReplies(run, steps, n, i);
    RunFits(run, steps, n);
    var met, message := StoresMet(run[n].log)[i], Wire(run[n].asked[i]);
    StoresMetAreSolid(run[n].log, i);
    CutLosesNothing(ExecuteMessage(met, message).1);
    if !ParseRequest(StripNewline(message)).Invalid? {
      ValidRepliesArrive(met, message);
    }
  }

  lemma AnswersAreCutReplies(run: seq<State>, steps: seq<Step>, n: nat, i: nat)
    requires IsRun(run, steps) && n <= |steps| && i < |run[n].answers|
    ensures i < |run[n].asked| && i < |StoresMet(run[n].log)|
    ensures run[n].answers[i] == Chomp(Truncated(ExecuteMessage(StoresMet(run[n].log)[i], Wire(run[n].asked[i])).1))
  {
    hide ExecuteMessage, Truncated, OwnReplies, OwnMessages, StoresMet, WorkOk, Wire, Chomp, Initial, Follows, StoreOk;
    RunKeepsExchange(run, steps, n);
    RepliesFromStoresMet(run[n].log);
  }

  // ---------------------------------------------------------------------------
  // The same as over TCP
  // ---------------------------------------------------------------------------

  lemma {:induction false} OnlyMine(log: seq<Entry>)
    requires forall i :: 0 <= i < |log| ==> log[i].mine
    ensures OwnMessages(log) == MessagesOf(log)
    ensures OwnReplies(log) == MessagesReplies(map[], MessagesOf(log))
  {
    hide ExecuteMessage, MessagesStore, OwnMessages, OwnReplies;
    if log == [] {
      NothingMine();
      assert MessagesOf(log) == [];
    } else {
      var before, last := log[..|log| - 1], log[|log| - 1];
      OnlyMine(before);
      assert log == before + [last];
      MineExecuted(before, last.message, last.mine);
      assert MessagesOf(log)[..|log| - 1] == MessagesOf(before);
    }
  }

  lemma NothingMine()
    ensures OwnMessages([]) == [] && OwnReplies([]) == []
  {
  }

  lemma LogIsMessages(s: State)
    requires ExchangeOk(s) && forall i :: 0 <= i < |s.log| ==> s.log[i].mine
    ensures |s.answers| <= |s.log| <= |s.asked|
    ensures MessagesOf(s.log) == Messages(s.asked[..|s.log|])
    ensures s.store == MessagesStore(map[], MessagesOf(s.log))
    ensures forall i :: 0 <= i < |s.answers| ==>
              s.answers[i] == Chomp(Truncated(MessagesReplies(map[], MessagesOf(s.log))[i]))
  {
    hide OwnReplies, OwnMessages, WorkOk, BuffersOk, PlaceOk, Chomp, Truncated, MessagesStore, MessagesReplies;
    OnlyMine(s.log);
    var lines := s.asked[..|s.log|];
    assert forall i :: 0 <= i < |s.log| ==> MessagesOf(s.log)[i] == Messages(lines)[i];
  }

  /**
   Transport equivalence over runs: for one client whose lines fit in a message, the store and
   the answers are those the TCP dispatcher gives for the same lines: whole, unless the reply is
   longer than a buffer by more than line ends.
   */
  lemma AnswersMatchTcp(run: seq<State>, steps: seq<Step>, n: nat)
    requires IsRun(run, steps) && n <= |steps|
    requires forall i :: 0 <= i < |run[n].log| ==> run[n].log[i].mine
    requires forall i :: 0 <= i < |run[n].asked| ==> |run[n].asked[i]| < MSG_SIZE
    ensures |run[n].answers| <= |run[n].log| <= |run[n].asked|
    ensures var lines := run[n].asked[..|run[n].log|];
            && run[n].store == StoreAfter(map[], lines)
            && forall i :: 0 <= i < |run[n].answers| ==>
                 var reply := Replies(map[], lines)[i];
                 && run[n].answers[i] == Chomp(Truncated(reply))
                 && (run[n].answers[i] == Chomp(reply) <==> |Chomp(reply)| <= MSG_SIZE)
  {
    RunKeepsExchange(run, steps, n);
    hide *;
    LogIsMessages(run[n]);
    var lines := run[n].asked[..|run[n].log|];
    TransportsAgree(map[], lines);
    forall i | 0 <= i < |run[n].answers|
      ensures var reply := Replies(map[], lines)[i];
              Chomp(Truncated(reply)) == Chomp(reply) <==> |Chomp(reply)| <= MSG_SIZE
    {
      CutLosesNothing(Replies(map[], lines)[i]);
    }
  }

  // ---------------------------------------------------------------------------
  // Sizes
  // ---------------------------------------------------------------------------

  /** Some stored value went over 4089 bytes in the first `n` steps. */
  ghost predicate OverBound(run: seq<State>, n: nat)
    requires n < |run|
  {
    exists m :: 0 <= m <= n && !BoundedStore(run[m].store)
  }

  ghost predicate LongSetIn(log: seq<Entry>) {
    exists i :: 0 <= i < |log| && LongSet(log[i].message)
  }

  /**
   In every run stored values stay within 4089 bytes, so that every VALUE reply fits in a message
   with its newline, exactly as long as no 4096-byte SET of a one-byte key has been executed.
   */
  lemma {:induction false} BoundHoldsWithoutLongSet(run: seq<State>, steps: seq<Step>, n: nat)
    requires IsRun(run, steps) && n <= |steps|
    ensures OverBound(run, n) <==> LongSetIn(run[n].log)
  {
    hide BoundedStore, LongSet, Follows, ExecuteMessage, Initial;
    if n == 0 {
      StartsBounded(run, steps);
    } else {
      BoundHoldsWithoutLongSet(run, steps, n - 1);
      var s, s' := run[n - 1], run[n];
      assert Follows(s, steps[n - 1], s');
      if OverBound(run, n - 1) {
        KeepsLongSet(s, steps[n - 1], s');
      } else {
        assert BoundedStore(s.store);
        StepBreaksBound(s, steps[n - 1], s');
      }
    }
  }

  lemma StartsBounded(run: seq<State>, steps: seq<Step>)
    requires IsRun(run, steps)
    ensures !OverBound(run, 0) && !LongSetIn(run[0].log)
  {
    assert BoundedStore(map[]);
  }

  lemma KeepsLongSet(s: State, step: Step, s': State)
    requires Follows(s, step, s') && LongSetIn(s.log)
    ensures LongSetIn(s'.log)
  {
    hide LongSet, ExecuteMessage, ParseRequest, Chomp;
    LogExtends(s, step);
    var i :| 0 <= i < |s.log| && LongSet(s.log[i].message);
    assert s'.log[i] == s.log[i];
  }

  lemma StepBreaksBound(s: State, step: Step, s': State)
    requires Follows(s, step, s') && BoundedStore(s.store) && !LongSetIn(s.log)
    ensures !BoundedStore(s'.store) <==> LongSetIn(s'.log)
  {
    hide LongSet, BoundedStore, ExecuteMessage, ParseRequest, Chomp, PostSend, Arrived, PollCompletion;
    match step
    case ServerDispatch =>
      MessageBreaksBound(s.store, s.server.RecvData());
      OneMoreMessage(s.log, Entry(true, s.server.RecvData()));
    case OtherRequest(message) =>
      MessageBreaksBound(s.store, message);
      OneMoreMessage(s.log, Entry(false, message));
    case _ =>
  }

  lemma OneMoreMessage(log: seq<Entry>, entry: Entry)
    ensures LongSetIn(log + [entry]) <==> LongSetIn(log) || LongSet(entry.message)
  {
    hide LongSet;
    var longer := log + [entry];
    if LongSetIn(log) {
      var i :| 0 <= i < |log| && LongSet(log[i].message);
      assert longer[i] == log[i];
    }
    if LongSet(entry.message) {
      assert longer[|log|] == entry;
    }
  }

  predicate EndsLine(message: string) {
    message != "" && message[|message| - 1] == '\n'
  }

  /** A run whose messages carry their newline keeps the bound, and every VALUE reply goes out whole. */
  lemma ValueRepliesFit(run: seq<State>, steps: seq<Step>, n: nat, key: string)
    requires IsRun(run, steps) && n <= |steps| && key in run[n].store
    requires forall i :: 0 <= i < |run[n].log| ==> EndsLine(run[n].log[i].message)
    ensures |run[n].store[key]| <= VALUE_BOUND
    ensures Truncated(Serialize(Value(run[n].store[key]))) == Serialize(Value(run[n].store[key]))
  {
    hide Initial, Follows, Serialize;
    BoundHoldsWithoutLongSet(run, steps, n);
    ReplyLengths(Value(run[n].store[key]));
    assert BoundedStore(run[n].store);
  }

  lemma LogExtends(s: State, step: Step)
    requires Enabled(s, step)
    ensures s.log <= Apply(s, step).log
  {
  }
}
