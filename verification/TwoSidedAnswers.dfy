/** The client of the two-sided exchange gets the reply to the request it just sent, in every run. */
module TwoSidedAnswers {
  import opened TextProtocol
  import opened Dispatch
  import opened TwoSided
  import opened TwoSidedRuns

  /** The current request is not executed yet. */
  predicate Waiting(s: State) {
    s.client.outgoing != [] || (s.serverAt.Armed? && s.server.cq != []) || s.serverAt.Received?
  }

  /** What is executed is what was asked, and what was answered are the replies, both in order. */
  ghost predicate HistoryOk(s: State) {
    && |s.asked| == |OwnMessages(s.log)| + (if Waiting(s) then 1 else 0)
    && (forall i :: 0 <= i < |OwnMessages(s.log)| ==> OwnMessages(s.log)[i] == Wire(s.asked[i]))
    && |s.asked| == |s.answers| + (if Asking(s.clientAt) then 1 else 0)
    && |s.answers| <= |OwnMessages(s.log)|
    && (forall i :: 0 <= i < |s.answers| ==> s.answers[i] == Chomp(Truncated(OwnReplies(s.log)[i])))
  }

  ghost predicate ExchangeOk(s: State) {
    WorkOk(s) && PlaceOk(s) && BuffersOk(s) && StoreOk(s) && HistoryOk(s)
  }

  lemma InitialExchange(s: State)
    requires Initial(s)
    ensures ExchangeOk(s)
  {
    assert MessagesOf([]) == [];
  }

  lemma StepKeepsBuffers(s: State, step: Step)
    requires WorkOk(s) && PlaceOk(s) && BuffersOk(s) && StoreOk(s) && Enabled(s, step)
    ensures BuffersOk(Apply(s, step))
  {
    hide WorkOk, PlaceOk, BuffersOk, StoreOk, Apply, Enabled;
    match step
    case ClientPoll => ClientPollKeepsBuffers(s);
    case ServerPoll => ServerPollKeepsBuffers(s);
    case ClientPostRecv(_) => ClientPostsKeepBuffers(s, step);
    case ClientPostSend => ClientPostsKeepBuffers(s, step);
    case ClientRead => ClientPostsKeepBuffers(s, step);
    case ServerPostRecv => ServerKeepsBuffers(s, step);
    case ServerDispatch => ServerKeepsBuffers(s, step);
    case ServerPostSend => ServerKeepsBuffers(s, step);
    case RequestDelivered => RequestDeliveryKeepsBuffers(s);
    case ReplyDelivered => ReplyDeliveryKeepsBuffers(s);
    case ClientSendCompletes => ClientCompletionKeepsBuffers(s);
    case ServerSendCompletes => ServerCompletionKeepsBuffers(s);
    case _ => OthersKeepBuffers(s, step);
  }

  lemma ReadKeepsHistory(s: State)
    requires ExchangeOk(s) && Enabled(s, ClientRead)
    ensures HistoryOk(Apply(s, ClientRead))
  {
    hide Chomp, Truncated, OwnReplies, OwnMessages, Wire, WorkOk, StoreOk;
    ClientShape(s);
    assert PolledReply(s);
    assert !Waiting(s);
  }

  lemma DispatchKeepsHistory(s: State)
    requires ExchangeOk(s) && Enabled(s, ServerDispatch)
    ensures HistoryOk(Apply(s, ServerDispatch))
  {
    hide Chomp, Truncated, OwnReplies, OwnMessages, Wire, WorkOk, ExecuteMessage, ParseRequest, MessagesStore, MessagesOf;
    MineExecuted(s.log, s.server.RecvData(), true);
    ClientShape(s);
    assert Serving(s) && Waiting(s);
  }

  lemma OtherKeepsHistory(s: State, message: string)
    requires HistoryOk(s) && Enabled(s, OtherRequest(message))
    ensures HistoryOk(Apply(s, OtherRequest(message)))
  {
    hide Chomp, Truncated, OwnReplies, OwnMessages, Wire, ExecuteMessage, MessagesStore, MessagesOf;
    MineExecuted(s.log, message, false);
  }

  lemma TransfersKeepHistory(s: State, step: Step)
    requires ExchangeOk(s) && Enabled(s, step)
    requires !step.ClientRead? && !step.ServerDispatch? && !step.OtherRequest?
    ensures HistoryOk(Apply(s, step))
  {
    hide Chomp, Truncated, OwnReplies, OwnMessages, Wire, WorkOk, StoreOk, BuffersOk, Overwrite;
    ServerShape(s);
    ClientShape(s);
    hide Sends, Receives;
    StepKeepsWork(s, step);
    ServerShape(Apply(s, step));
  }

  lemma StepKeepsExchange(s: State, step: Step)
    requires ExchangeOk(s) && Enabled(s, step)
    ensures ExchangeOk(Apply(s, step))
  {
    hide WorkOk, PlaceOk, BuffersOk, StoreOk, HistoryOk, Apply, Enabled;
    StepKeepsWork(s, step);
    StepKeepsPlace(s, step);
    StepKeepsBuffers(s, step);
    StepKeepsStore(s, step);
    match step
    case ClientRead => ReadKeepsHistory(s);
    case ServerDispatch => DispatchKeepsHistory(s);
    case OtherRequest(message) => OtherKeepsHistory(s, message);
    case _ => TransfersKeepHistory(s, step);
  }

  lemma {:induction false} RunKeepsExchange(run: seq<State>, steps: seq<Step>, n: nat)
    requires IsRun(run, steps) && n <= |steps|
    ensures ExchangeOk(run[n])
  {
    hide ExchangeOk, Apply, Enabled, Initial;
    if n == 0 {
      InitialExchange(run[0]);
    } else {
      RunKeepsExchange(run, steps, n - 1);
      assert Follows(run[n - 1], steps[n - 1], run[n]);
      StepKeepsExchange(run[n - 1], steps[n - 1]);
    }
  }
}
