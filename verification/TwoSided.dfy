/**
 The two-sided exchange: a client and a server loop, each with one completion queue and two
 pinned buffers, over a reliable ordered channel that delivers a message only into a posted
 receive.  Other clients of the store act at any time.
 */
module TwoSided {
  import opened TextProtocol
  import opened Dispatch

  // ---------------------------------------------------------------------------
  // A queue pair with its buffers
  // ---------------------------------------------------------------------------

  datatype Completion = SendDone | RecvDone(len: nat)

  /**
   `receives` counts posted receives not yet filled, `outgoing` the lengths of posted sends not
   yet transmitted, `unacked` the transmitted ones without completion. The adapter reads and
   writes the buffers themselves when it transmits.
   */
  datatype Nic = Nic(
    sendBuf: string, recvBuf: string, recvLen: nat,
    receives: nat, outgoing: seq<nat>, unacked: nat, cq: seq<Completion>)
  {
    ghost predicate Valid() {
      && |sendBuf| == MSG_SIZE && |recvBuf| == MSG_SIZE && recvLen <= MSG_SIZE
      && (forall i :: 0 <= i < |outgoing| ==> outgoing[i] <= MSG_SIZE)
      && (forall i :: 0 <= i < |cq| && cq[i].RecvDone? ==> cq[i].len <= MSG_SIZE)
    }

    /** The bytes of the most recent receive completion. */
    function RecvData(): string
      requires recvLen <= |recvBuf|
    {
      recvBuf[..recvLen]
    }
  }

  /** memcpy to the start of a buffer. */
  function Overwrite(buf: string, data: string): string
    requires |data| <= |buf|
  {
    data + buf[|data|..]
  }

  function PostRecv(n: Nic): Nic {
    n.(receives := n.receives + 1)
  }

  function PostSend(n: Nic, data: string): Nic
    requires |n.sendBuf| == MSG_SIZE
  {
    var sent := Truncated(data);
    n.(sendBuf := Overwrite(n.sendBuf, sent), outgoing := n.outgoing + [|sent|])
  }

  /** The oldest completion is taken; a receive completion sets the received length. */
  function PollCompletion(n: Nic): Nic
    requires n.cq != []
  {
    var taken := n.(cq := n.cq[1..]);
    if n.cq[0].RecvDone? then taken.(recvLen := n.cq[0].len) else taken
  }

  predicate CanDeliver(from: Nic, to: Nic) {
    from.outgoing != [] && to.receives > 0
  }

  /** The oldest message leaves the sender's buffer as it is now. */
  function Transmitted(from: Nic): Nic
    requires from.outgoing != []
  {
    from.(outgoing := from.outgoing[1..], unacked := from.unacked + 1)
  }

  /** ... and arrives in the receiver's buffer. */
  function Arrived(from: Nic, to: Nic): Nic
    requires from.Valid() && to.Valid() && CanDeliver(from, to)
  {
    var len := from.outgoing[0];
    to.(recvBuf := Overwrite(to.recvBuf, from.sendBuf[..len]),
        receives := to.receives - 1,
        cq := to.cq + [RecvDone(len)])
  }

  /** A transmitted send completes. */
  function Acked(n: Nic): Nic
    requires n.unacked > 0
  {
    n.(unacked := n.unacked - 1, cq := n.cq + [SendDone])
  }

  // ---------------------------------------------------------------------------
  // Both sides
  // ---------------------------------------------------------------------------

  /** Where the client is in one request. */
  datatype ClientAt =
    | Idle
    | RecvPosted(line: string)
    | RequestPosted(line: string)
    | PolledOnce(line: string)
    | PolledTwice(line: string)

  /** Where the server is in its loop. */
  datatype ServerAt =
    | LoopTop
    | Armed
    | Received
    | Replying(reply: string, quits: bool)
    | ReplyPosted(quits: bool)
    | Stopped

  /** An executed request, of this client or of another one. */
  datatype Entry = Entry(mine: bool, message: string)

  datatype State = State(
    client: Nic, clientAt: ClientAt, clientUp: bool,
    server: Nic, serverAt: ServerAt, serverUp: bool,
    store: KvStore, log: seq<Entry>,
    asked: seq<string>, answers: seq<string>)

  datatype Step =
    | ClientPostRecv(line: string)
    | ClientPostSend
    | ClientPoll
    | ClientRead
    | ServerPostRecv
    | ServerPoll
    | ServerDispatch
    | ServerPostSend
    | RequestDelivered
    | ReplyDelivered
    | ClientSendCompletes
    | ServerSendCompletes
    | OtherRequest(message: string)
    | ClientBreaks
    | ServerBreaks

  ghost predicate Valid(s: State) { s.client.Valid() && s.server.Valid() }

  ghost predicate Enabled(s: State, step: Step) {
    && Valid(s)
    && match step
       case ClientPostRecv(_) => s.clientUp && s.clientAt.Idle?
       case ClientPostSend => s.clientUp && s.clientAt.RecvPosted?
       case ClientPoll => s.clientUp && (s.clientAt.RequestPosted? || s.clientAt.PolledOnce?) && s.client.cq != []
       case ClientRead => s.clientUp && s.clientAt.PolledTwice?
       case ServerPostRecv => s.serverUp && s.serverAt.LoopTop?
       case ServerPoll => s.serverUp && (s.serverAt.Armed? || s.serverAt.ReplyPosted?) && s.server.cq != []
       case ServerDispatch => s.serverUp && s.serverAt.Received?
       case ServerPostSend => s.serverUp && s.serverAt.Replying?
       case RequestDelivered => s.serverUp && CanDeliver(s.client, s.server)
       case ReplyDelivered => s.clientUp && CanDeliver(s.server, s.client)
       case ClientSendCompletes => s.client.unacked > 0
       case ServerSendCompletes => s.server.unacked > 0
       case OtherRequest(message) => |message| <= MSG_SIZE
       case ClientBreaks => true
       case ServerBreaks => true
  }

  predicate TrailsLineEnd(s: string) {
    s != "" && (s[|s| - 1] == '\n' || s[|s| - 1] == '\r')
  }

  /** A reply as the client returns it. */
  function Chomp(s: string): (r: string)
    ensures r <= s && !TrailsLineEnd(r)
    ensures forall i :: |r| <= i < |s| ==> s[i] == '\n' || s[i] == '\r'
  {
    if TrailsLineEnd(s) then Chomp(s[..|s| - 1]) else s
  }

  method ChompLoop(received: string) returns (response: string)
    ensures response == Chomp(received)
  {
    response := received;
    while response != "" && (response[|response| - 1] == '\n' || response[|response| - 1] == '\r')
      invariant Chomp(response) == Chomp(received)
      decreases |response|
    {
      response := response[..|response| - 1];
    }
  }

  function Dispatched(s: State): State
    requires s.server.recvLen <= |s.server.recvBuf|
  {
    var message := s.server.RecvData();
    var (store, reply) := ExecuteMessage(s.store, message);
    s.(store := store,
       log := s.log + [Entry(true, message)],
       serverAt := Replying(reply, ParseRequest(StripNewline(message)).Quit?))
  }

  ghost function Apply(s: State, step: Step): State
    requires Enabled(s, step)
  {
    match step
    case ClientPostRecv(line) => s.(client := PostRecv(s.client), clientAt := RecvPosted(line))
    case ClientPostSend =>
      s.(client := PostSend(s.client, s.clientAt.line + "\n"),
         clientAt := RequestPosted(s.clientAt.line),
         asked := s.asked + [s.clientAt.line])
    case ClientPoll =>
      s.(client := PollCompletion(s.client),
         clientAt := if s.clientAt.RequestPosted? then PolledOnce(s.clientAt.line) else PolledTwice(s.clientAt.line))
    case ClientRead => s.(clientAt := Idle, answers := s.answers + [Chomp(s.client.RecvData())])
    case ServerPostRecv => s.(server := PostRecv(s.server), serverAt := Armed)
    case ServerPoll =>
      s.(server := PollCompletion(s.server),
         serverAt := if s.serverAt.Armed? then Received
                     else if s.serverAt.quits then Stopped else LoopTop)
    case ServerDispatch => Dispatched(s)
    case ServerPostSend =>
      s.(server := PostSend(s.server, s.serverAt.reply), serverAt := ReplyPosted(s.serverAt.quits))
    case RequestDelivered =>
      s.(client := Transmitted(s.client), server := Arrived(s.client, s.server))
    case ReplyDelivered =>
      s.(server := Transmitted(s.server), client := Arrived(s.server, s.client))
    case ClientSendCompletes => s.(client := Acked(s.client))
    case ServerSendCompletes => s.(server := Acked(s.server))
    case OtherRequest(message) =>
      s.(store := ExecuteMessage(s.store, message).0, log := s.log + [Entry(false, message)])
    case ClientBreaks => s.(clientUp := false)
    case ServerBreaks => s.(serverUp := false)
  }

  predicate Fresh(n: Nic) {
    n.receives == 0 && n.outgoing == [] && n.unacked == 0 && n.cq == []
  }

  ghost predicate Initial(s: State) {
    && Valid(s) && Fresh(s.client) && Fresh(s.server)
    && s.clientAt == Idle && s.serverAt == LoopTop && s.clientUp && s.serverUp
    && s.store == map[] && s.log == [] && s.asked == [] && s.answers == []
  }

  ghost predicate Follows(s: State, step: Step, s': State) {
    Enabled(s, step) && s' == Apply(s, step)
  }

  ghost predicate IsRun(run: seq<State>, steps: seq<Step>) {
    && |run| == |steps| + 1
    && Initial(run[0])
    && forall i :: 0 <= i < |steps| ==> Follows(run[i], steps[i], run[i + 1])
  }
}
