/** What the two-sided exchange guarantees in every interleaving. */
module TwoSidedRuns {
  import opened TextProtocol
  import opened Dispatch
  import opened TwoSided

  // ---------------------------------------------------------------------------
  // Each side's outstanding work
  // ---------------------------------------------------------------------------

  function SendDones(cq: seq<Completion>): (n: nat)
    ensures n <= |cq|
  {
    if cq == [] then 0 else (if cq[0].SendDone? then 1 else 0) + SendDones(cq[1..])
  }

  lemma {:induction false} SendDonesAppend(cq: seq<Completion>, c: Completion)
    ensures SendDones(cq + [c]) == SendDones(cq) + (if c.SendDone? then 1 else 0)
  {
    if cq == [] {
      assert cq + [c] == [c];
    } else {
      SendDonesAppend(cq[1..], c);
      assert (cq + [c])[1..] == cq[1..] + [c];
    }
  }

  /** Sends that still need a completion to be polled, and receives likewise. */
  function Sends(n: Nic): nat { |n.outgoing| + n.unacked + SendDones(n.cq) }

  function Receives(n: Nic): nat { n.receives + |n.cq| - SendDones(n.cq) }

  /** Every poll finds a completion of the work posted in this request, in either order. */
  ghost predicate ClientWork(n: Nic, at: ClientAt) {
    match at
    case Idle => Sends(n) == 0 && Receives(n) == 0
    case RecvPosted(_) => Sends(n) == 0 && Receives(n) == 1
    case RequestPosted(_) => Sends(n) == 1 && Receives(n) == 1
    case PolledOnce(_) => Sends(n) + Receives(n) == 1
    case PolledTwice(_) => Sends(n) == 0 && Receives(n) == 0
  }

  /** The server waits for one receive, or for one send, and for nothing while it parses. */
  ghost predicate ServerWork(n: Nic, at: ServerAt) {
    match at
    case Armed => Sends(n) == 0 && Receives(n) == 1
    case ReplyPosted(_) => Sends(n) == 1 && Receives(n) == 0
    case _ => Sends(n) == 0 && Receives(n) == 0
  }

  ghost predicate WorkOk(s: State) {
    Valid(s) && ClientWork(s.client, s.clientAt) && ServerWork(s.server, s.serverAt)
  }

  lemma ArrivedWork(from: Nic, to: Nic)
    requires from.Valid() && to.Valid() && CanDeliver(from, to)
    ensures Arrived(from, to).Valid() && Transmitted(from).Valid()
    ensures Sends(Arrived(from, to)) == Sends(to) && Receives(Arrived(from, to)) == Receives(to)
    ensures Sends(Transmitted(from)) == Sends(from) && Receives(Transmitted(from)) == Receives(from)
  {
    SendDonesAppend(to.cq, RecvDone(from.outgoing[0]));
  }

  lemma AckedWork(n: Nic)
    requires n.Valid() && n.unacked > 0
    ensures Acked(n).Valid() && Sends(Acked(n)) == Sends(n) && Receives(Acked(n)) == Receives(n)
  {
    SendDonesAppend(n.cq, SendDone);
  }

  lemma PolledWork(n: Nic)
    requires n.Valid() && n.cq != []
    ensures PollCompletion(n).Valid()
    ensures Sends(PollCompletion(n)) == Sends(n) - (if n.cq[0].SendDone? then 1 else 0)
    ensures Receives(PollCompletion(n)) == Receives(n) - (if n.cq[0].SendDone? then 0 else 1)
  {
  }

  lemma PostedWork(n: Nic, data: string)
    requires n.Valid()
    ensures PostRecv(n).Valid() && PostSend(n, data).Valid()
    ensures Sends(PostRecv(n)) == Sends(n) && Receives(PostRecv(n)) == Receives(n) + 1
    ensures Sends(PostSend(n, data)) == Sends(n) + 1 && Receives(PostSend(n, data)) == Receives(n)
  {
  }

  lemma StepKeepsWork(s: State, step: Step)
    requires WorkOk(s) && Enabled(s, step)
    ensures WorkOk(Apply(s, step)) && Valid(Apply(s, step))
  {
    hide PostSend, Arrived, ExecuteMessage, Chomp, ParseRequest, SendDones, Sends, Receives, Nic.Valid, PostRecv, Acked;
    match step
    case ClientPostRecv(_) => PostedWork(s.client, "");
    case ClientPostSend => PostedWork(s.client, s.clientAt.line + "\n");
    case ClientPoll => PolledWork(s.client);
    case ServerPostRecv => PostedWork(s.server, "");
    case ServerPoll => PolledWork(s.server);
    case ServerPostSend => PostedWork(s.server, s.serverAt.reply);
    case RequestDelivered => ArrivedWork(s.client, s.server);
    case ReplyDelivered => ArrivedWork(s.server, s.client);
    case ClientSendCompletes => AckedWork(s.client);
    case ServerSendCompletes => AckedWork(s.server);
    case _ =>
  }

  // ---------------------------------------------------------------------------
  // Where the current request is
  // ---------------------------------------------------------------------------

  /** The client has posted a request and not yet returned its answer. */
  predicate Asking(at: ClientAt) { at.RequestPosted? || at.PolledOnce? || at.PolledTwice? }

  /** The server holds the current request or its undelivered reply. */
  predicate Serving(s: State) {
    match s.serverAt
    case Armed => s.server.cq != []
    case Received => true
    case Replying(_, _) => true
    case ReplyPosted(_) => s.server.outgoing != []
    case _ => false
  }

  /** The request is at the client, at the server, or answered, and exactly one of these. */
  ghost predicate PlaceOk(s: State) {
    && (s.clientAt.RecvPosted? ==> s.client.receives == 1)
    && (s.client.outgoing != [] ==> Asking(s.clientAt) && s.client.receives == 1)
    && (Serving(s) ==> Asking(s.clientAt) && s.client.receives == 1)
    && (Asking(s.clientAt) && s.client.receives == 1 ==> (s.client.outgoing != [] <==> !Serving(s)))
  }

  /** What a channel of at most one message looks like on the receiving side. */
  lemma ServerShape(s: State)
    requires WorkOk(s)
    ensures s.serverAt.Armed? ==> s.server.outgoing == [] && s.server.unacked == 0
    ensures s.serverAt.Armed? && s.server.cq != [] ==>
              |s.server.cq| == 1 && s.server.cq[0].RecvDone? && s.server.receives == 0
    ensures s.serverAt.Armed? && s.server.cq == [] ==> s.server.receives == 1
    ensures !s.serverAt.Armed? ==> s.server.receives == 0
    ensures !s.serverAt.ReplyPosted? ==> s.server.outgoing == [] && s.server.unacked == 0
    ensures !s.serverAt.ReplyPosted? && !s.serverAt.Armed? ==> s.server.cq == []
    ensures s.serverAt.ReplyPosted? ==> |s.server.outgoing| <= 1
    ensures s.serverAt.ReplyPosted? && s.server.cq != [] ==> s.server.outgoing == [] && s.server.cq == [SendDone]
    ensures s.serverAt.ReplyPosted? && s.server.unacked > 0 ==> s.server.outgoing == []
  {
    if s.server.cq != [] {
      assert SendDones(s.server.cq) == (if s.server.cq[0].SendDone? then 1 else 0) + SendDones(s.server.cq[1..]);
    }
  }

  lemma {:induction false} AllSendDone(cq: seq<Completion>)
    requires SendDones(cq) == |cq|
    ensures forall i :: 0 <= i < |cq| ==> cq[i].SendDone?
  {
    if cq != [] {
      AllSendDone(cq[1..]);
      assert forall i :: 0 < i < |cq| ==> cq[i] == cq[1..][i - 1];
    }
  }

  lemma ClientShape(s: State)
    requires WorkOk(s)
    ensures s.client.receives <= 1 && |s.client.outgoing| <= 1
    ensures s.client.outgoing != [] ==> s.clientAt.RequestPosted? || s.clientAt.PolledOnce?
    ensures s.clientAt.RecvPosted? && s.client.receives == 1 ==> s.client.cq == []
    ensures s.client.receives == 1 ==>
              !s.clientAt.PolledTwice? && forall i :: 0 <= i < |s.client.cq| ==> s.client.cq[i].SendDone?
    ensures s.clientAt.Idle? || s.clientAt.PolledTwice? ==> s.client.receives == 0 && s.client.cq == []
    ensures s.clientAt.Idle? || s.clientAt.RecvPosted? ==> s.client.unacked == 0
  {
    if s.client.cq != [] {
      assert SendDones(s.client.cq) == (if s.client.cq[0].SendDone? then 1 else 0) + SendDones(s.client.cq[1..]);
    }
    if s.client.receives == 1 {
      AllSendDone(s.client.cq);
    }
  }

  lemma DeliveryKeepsPlace(s: State, step: Step)
    requires WorkOk(s) && PlaceOk(s) && Enabled(s, step) && (step.RequestDelivered? || step.ReplyDelivered?)
    ensures PlaceOk(Apply(s, step))
  {
    hide WorkOk, Overwrite, Nic.Valid, SendDones, Sends, Receives;
    ServerShape(s);
    ClientShape(s);
  }

  lemma ClientKeepsPlace(s: State, step: Step)
    requires WorkOk(s) && PlaceOk(s) && Enabled(s, step)
    requires step.ClientPostRecv? || step.ClientPostSend? || step.ClientPoll? || step.ClientRead?
             || step.ClientSendCompletes?
    ensures PlaceOk(Apply(s, step))
  {
    hide Chomp, Truncated, WorkOk, Overwrite, Nic.Valid, SendDones, Sends, Receives;
    StepKeepsWork(s, step);
    ClientShape(s);
    ClientShape(Apply(s, step));
  }

  lemma ServerKeepsPlace(s: State, step: Step)
    requires WorkOk(s) && PlaceOk(s) && Enabled(s, step)
    requires !step.RequestDelivered? && !step.ReplyDelivered?
    requires !step.ClientPostRecv? && !step.ClientPostSend? && !step.ClientPoll? && !step.ClientRead?
             && !step.ClientSendCompletes?
    ensures PlaceOk(Apply(s, step))
  {
    hide ExecuteMessage, ParseRequest, Truncated, WorkOk, Overwrite, Nic.Valid, SendDones, Sends, Receives;
    StepKeepsWork(s, step);
    ServerShape(s);
    ServerShape(Apply(s, step));
  }

  lemma StepKeepsPlace(s: State, step: Step)
    requires WorkOk(s) && PlaceOk(s) && Enabled(s, step)
    ensures PlaceOk(Apply(s, step))
  {
    hide WorkOk, PlaceOk, Apply, Enabled;
    match step
    case RequestDelivered => DeliveryKeepsPlace(s, step);
    case ReplyDelivered => DeliveryKeepsPlace(s, step);
    case ClientPostRecv(_) => ClientKeepsPlace(s, step);
    case ClientPostSend => ClientKeepsPlace(s, step);
    case ClientPoll => ClientKeepsPlace(s, step);
    case ClientRead => ClientKeepsPlace(s, step);
    case ClientSendCompletes => ClientKeepsPlace(s, step);
    case _ => ServerKeepsPlace(s, step);
  }

  // ---------------------------------------------------------------------------
  // What the buffers hold
  // ---------------------------------------------------------------------------

  function MessagesOf(log: seq<Entry>): (r: seq<string>)
    ensures |r| == |log| && forall i :: 0 <= i < |log| ==> r[i] == log[i].message
  {
    seq(|log|, i requires 0 <= i < |log| => log[i].message)
  }

  /** The messages of this client, in the order they were executed. */
  function OwnMessages(log: seq<Entry>): seq<string> {
    if log == [] then []
    else
      var last := log[|log| - 1];
      OwnMessages(log[..|log| - 1]) + (if last.mine then [last.message] else [])
  }

  /** The replies to this client's messages when the whole log is replayed from an empty store. */
  function OwnReplies(log: seq<Entry>): (r: seq<string>)
    ensures |r| == |OwnMessages(log)|
  {
    if log == [] then []
    else
      OwnReplies(log[..|log| - 1])
      + (if log[|log| - 1].mine then [MessagesReplies(map[], MessagesOf(log))[|log| - 1]] else [])
  }

  /** A request as it is put on the wire. */
  function Wire(line: string): string { Truncated(line + "\n") }

  function LastOf(texts: seq<string>): string {
    if texts == [] then "" else texts[|texts| - 1]
  }

  /** Wherever the request is before it is executed, it is this message. */
  ghost predicate RequestIs(s: State, message: string)
    requires Valid(s)
  {
    && (s.client.outgoing != [] ==> s.client.sendBuf[..s.client.outgoing[0]] == message)
    && (s.serverAt.Armed? && s.server.cq != [] && s.server.cq[0].RecvDone? ==>
          s.server.recvBuf[..s.server.cq[0].len] == message)
    && (s.serverAt.Received? ==> s.server.RecvData() == message)
  }

  /** The client has polled its receive completion. */
  predicate PolledReply(s: State) {
    s.clientAt.PolledTwice? || (s.clientAt.PolledOnce? && Receives(s.client) == 0)
  }

  /** Wherever the reply is, it is this one, as it fits in a buffer. */
  ghost predicate ReplyIs(s: State, reply: string)
    requires Valid(s)
  {
    && (s.serverAt.Replying? ==> s.serverAt.reply == reply)
    && (s.serverAt.ReplyPosted? && s.server.outgoing != [] ==>
          s.server.sendBuf[..s.server.outgoing[0]] == Truncated(reply))
    && (forall i :: 0 <= i < |s.client.cq| && s.client.cq[i].RecvDone? ==>
          s.client.recvBuf[..s.client.cq[i].len] == Truncated(reply))
    && (PolledReply(s) ==> s.client.RecvData() == Truncated(reply))
  }

  ghost predicate BuffersOk(s: State) {
    && Valid(s)
    && RequestIs(s, Wire(LastOf(s.asked)))
    && ReplyIs(s, LastOf(OwnReplies(s.log)))
    && (Asking(s.clientAt) ==> s.asked != [] && s.clientAt.line == LastOf(s.asked))
  }

  lemma SentBytes(n: Nic, data: string)
    requires n.Valid()
    ensures PostSend(n, data).sendBuf[..|Truncated(data)|] == Truncated(data)
  {
    hide Truncated;
  }

  lemma ArrivedBytes(from: Nic, to: Nic)
    requires from.Valid() && to.Valid() && CanDeliver(from, to)
    ensures from.outgoing[0] <= |Arrived(from, to).recvBuf|
    ensures Arrived(from, to).recvBuf[..from.outgoing[0]] == from.sendBuf[..from.outgoing[0]]
    ensures Arrived(from, to).cq == to.cq + [RecvDone(from.outgoing[0])]
    ensures Arrived(from, to).outgoing == to.outgoing && Arrived(from, to).sendBuf == to.sendBuf
    ensures Arrived(from, to).recvLen == to.recvLen && Arrived(from, to).receives == to.receives - 1
  {
  }

  lemma MineExecuted(log: seq<Entry>, message: string, mine: bool)
    ensures MessagesOf(log + [Entry(mine, message)]) == MessagesOf(log) + [message]
    ensures MessagesStore(map[], MessagesOf(log + [Entry(mine, message)]))
            == ExecuteMessage(MessagesStore(map[], MessagesOf(log)), message).0
    ensures OwnMessages(log + [Entry(mine, message)]) == OwnMessages(log) + (if mine then [message] else [])
    ensures OwnReplies(log + [Entry(mine, message)])
            == OwnReplies(log) + (if mine then [ExecuteMessage(MessagesStore(map[], MessagesOf(log)), message).1] else [])
  {
    hide ExecuteMessage;
    var longer := log + [Entry(mine, message)];
    assert longer[..|log|] == log;
    assert MessagesOf(longer) == MessagesOf(log) + [message];
    assert MessagesOf(longer)[..|log|] == MessagesOf(log);
  }

  ghost predicate StoreOk(s: State) {
    s.store == MessagesStore(map[], MessagesOf(s.log))
  }

  lemma StepKeepsStore(s: State, step: Step)
    requires StoreOk(s) && Enabled(s, step)
    ensures StoreOk(Apply(s, step))
  {
    hide ExecuteMessage, MessagesStore, MessagesOf, Chomp, ParseRequest;
    match step
    case ServerDispatch => MineExecuted(s.log, s.server.RecvData(), true);
    case OtherRequest(message) => MineExecuted(s.log, message, false);
    case _ =>
  }

  lemma ClientPostsKeepBuffers(s: State, step: Step)
    requires WorkOk(s) && PlaceOk(s) && BuffersOk(s) && Enabled(s, step)
    requires step.ClientPostRecv? || step.ClientPostSend? || step.ClientRead?
    ensures BuffersOk(Apply(s, step))
  {
    hide Chomp, Truncated, OwnReplies, Overwrite, WorkOk;
    StepKeepsWork(s, step);
    StepKeepsPlace(s, step);
    ClientShape(s);
    ServerShape(s);
    if step.ClientPostSend? {
      SentBytes(s.client, s.clientAt.line + "\n");
      assert LastOf(s.asked + [s.clientAt.line]) == s.clientAt.line;
    }
  }

  lemma ClientPollKeepsBuffers(s: State)
    requires WorkOk(s) && PlaceOk(s) && BuffersOk(s) && Enabled(s, ClientPoll)
    ensures BuffersOk(Apply(s, ClientPoll))
  {
    hide Chomp, Truncated, OwnReplies, Wire;
    PolledWork(s.client);
  }

  lemma ServerPollKeepsBuffers(s: State)
    requires WorkOk(s) && PlaceOk(s) && BuffersOk(s) && Enabled(s, ServerPoll)
    ensures BuffersOk(Apply(s, ServerPoll))
  {
    hide Chomp, Truncated, OwnReplies, Wire, WorkOk, SendDones;
    StepKeepsWork(s, ServerPoll);
    ServerShape(s);
  }

  lemma ServerKeepsBuffers(s: State, step: Step)
    requires WorkOk(s) && PlaceOk(s) && BuffersOk(s) && StoreOk(s) && Enabled(s, step)
    requires step.ServerPostRecv? || step.ServerDispatch? || step.ServerPostSend?
    ensures BuffersOk(Apply(s, step))
  {
    hide Truncated, OwnReplies, OwnMessages, Overwrite, WorkOk;
    hide ExecuteMessage, ParseRequest, Wire, MessagesStore, MessagesOf;
    StepKeepsWork(s, step);
    StepKeepsPlace(s, step);
    ServerShape(s);
    ClientShape(s);
    match step
    case ServerDispatch => MineExecuted(s.log, s.server.RecvData(), true);
    case ServerPostSend => SentBytes(s.server, s.serverAt.reply);
    case _ =>
  }

  lemma RequestDeliveryKeepsBuffers(s: State)
    requires WorkOk(s) && PlaceOk(s) && BuffersOk(s) && Enabled(s, RequestDelivered)
    ensures BuffersOk(Apply(s, RequestDelivered))
  {
    hide Truncated, OwnReplies, Wire, Arrived, WorkOk;
    StepKeepsWork(s, RequestDelivered);
    ServerShape(s);
    ClientShape(s);
    ArrivedBytes(s.client, s.server);
    ArrivedWork(s.client, s.server);
  }

  lemma ReplyDeliveryKeepsBuffers(s: State)
    requires WorkOk(s) && PlaceOk(s) && BuffersOk(s) && Enabled(s, ReplyDelivered)
    ensures BuffersOk(Apply(s, ReplyDelivered))
  {
    hide Truncated, OwnReplies, Wire, Arrived, WorkOk;
    StepKeepsWork(s, ReplyDelivered);
    ServerShape(s);
    ClientShape(s);
    ArrivedBytes(s.server, s.client);
    ArrivedWork(s.server, s.client);
  }

  lemma ClientCompletionKeepsBuffers(s: State)
    requires WorkOk(s) && BuffersOk(s) && Enabled(s, ClientSendCompletes)
    ensures BuffersOk(Apply(s, ClientSendCompletes))
  {
    hide Truncated, OwnReplies, Wire, WorkOk, SendDones, Sends, Receives, LastOf;
    StepKeepsWork(s, ClientSendCompletes);
    AckedWork(s.client);
  }

  lemma ServerCompletionKeepsBuffers(s: State)
    requires WorkOk(s) && BuffersOk(s) && Enabled(s, ServerSendCompletes)
    ensures BuffersOk(Apply(s, ServerSendCompletes))
  {
    hide Truncated, OwnReplies, Wire, WorkOk, SendDones, Sends, Receives, LastOf;
    StepKeepsWork(s, ServerSendCompletes);
    ServerShape(s);
  }

  lemma OthersKeepBuffers(s: State, step: Step)
    requires BuffersOk(s) && Enabled(s, step)
    requires step.OtherRequest? || step.ClientBreaks? || step.ServerBreaks?
    ensures BuffersOk(Apply(s, step))
  {
    hide Truncated, OwnReplies, OwnMessages, Wire, ExecuteMessage, MessagesOf, MessagesStore, SendDones, Nic.RecvData;
    if step.OtherRequest? {
      MineExecuted(s.log, step.message, false);
    }
  }
}
