/** The two-sided half of the verbs context: pinned buffers written in place, and one completion queue. */
module RdmaContext {
  import opened TextProtocol
  import opened Dispatch
  import opened TwoSided

  class Context {
    const sendBuf: array<char>
    const recvBuf: array<char>
    var recvLen: nat
    var receives: nat
    var outgoing: seq<nat>
    var unacked: nat
    var cq: seq<Completion>

    ghost predicate Valid()
      reads this, sendBuf, recvBuf
    {
      sendBuf != recvBuf && View().Valid()
    }

    /** The queue pair this object is. */
    ghost function View(): Nic
      reads this, sendBuf, recvBuf
    {
      Nic(sendBuf[..], recvBuf[..], recvLen, receives, outgoing, unacked, cq)
    }

    constructor ()
      ensures Valid() && Fresh(View()) && fresh(sendBuf) && fresh(recvBuf)
    {
      sendBuf := new char[MSG_SIZE](_ => '\0');
      recvBuf := new char[MSG_SIZE](_ => '\0');
      recvLen, receives, outgoing, unacked, cq := 0, 0, [], 0, [];
    }

    /** `up` says whether the verbs call succeeds. */
    method PostRecv(up: bool) returns (ok: bool)
      requires Valid()
      modifies this`receives
      ensures Valid() && ok == up
      ensures View() == if up then TwoSided.PostRecv(old(View())) else old(View())
    {
      if up {
        receives := receives + 1;
      }
      ok := up;
    }

    /** Bytes are copied to the start of a buffer. */
    static method Copy(data: string, buf: array<char>)
      requires |data| <= buf.Length
      modifies buf
      ensures buf[..] == Overwrite(old(buf[..]), data)
    {
      for i := 0 to |data|
        invariant forall j :: 0 <= j < i ==> buf[j] == data[j]
        invariant forall j :: i <= j < buf.Length ==> buf[j] == old(buf[j])
      {
        buf[i] := data[i];
      }
    }

    /** The buffer is filled before the call is made, so also when it fails. */
    method PostSend(data: string, up: bool) returns (ok: bool)
      requires Valid()
      modifies this`outgoing, sendBuf
      ensures Valid() && ok == up
      ensures var posted := TwoSided.PostSend(old(View()), data);
              View() == if up then posted else old(View()).(sendBuf := posted.sendBuf)
    {
      var sent := if |data| < MSG_SIZE then data else data[..MSG_SIZE];
      Copy(sent, sendBuf);
      if up {
        outgoing := outgoing + [|sent|];
      }
      ok := up;
    }

    /**
     One completion is taken from the queue, once there is one. `good` says whether its status is
     success; a failed one is taken too, but records nothing.
     */
    method PollCompletion(good: bool) returns (ok: bool)
      requires Valid() && cq != []
      modifies this`cq, this`recvLen
      ensures Valid() && ok == good
      ensures View() == if good then TwoSided.PollCompletion(old(View())) else old(View()).(cq := old(cq)[1..])
    {
      var completion := cq[0];
      cq := cq[1..];
      if good && completion.RecvDone? {
        recvLen := completion.len;
      }
      ok := good;
    }

    method RecvData() returns (data: string)
      requires Valid()
      ensures data == View().RecvData()
    {
      data := recvBuf[..recvLen];
    }

    /** The adapter: a message arrives in the posted receive. */
    method Deposit(data: string)
      requires Valid() && receives > 0 && |data| <= MSG_SIZE
      modifies this`receives, this`cq, recvBuf
      ensures Valid()
      ensures View() == old(View()).(recvBuf := Overwrite(old(recvBuf[..]), data),
                                     receives := old(receives) - 1, cq := old(cq) + [RecvDone(|data|)])
    {
      Copy(data, recvBuf);
      receives := receives - 1;
      cq := cq + [RecvDone(|data|)];
    }

    /** The adapter: the oldest posted send leaves the buffer as it is now. */
    method Transmit() returns (wire: string)
      requires Valid() && outgoing != []
      modifies this`outgoing, this`unacked
      ensures Valid() && wire == sendBuf[..old(outgoing[0])]
      ensures View() == Transmitted(old(View()))
    {
      wire := sendBuf[..outgoing[0]];
      outgoing, unacked := outgoing[1..], unacked + 1;
    }

    /** The adapter: a transmitted send completes. */
    method Complete()
      requires Valid() && unacked > 0
      modifies this`unacked, this`cq
      ensures Valid() && View() == Acked(old(View()))
    {
      unacked, cq := unacked - 1, cq + [SendDone];
    }
  }

  /**
   `two_sided_request_response`: the adapter transmits the request and delivers `reply`, and the
   two completions arrive in either order. `up(i)` says whether the i-th verbs call succeeds.
   */
  method RequestResponse(ctx: Context, command: string, before: string, reply: string, sendFirst: bool, up: nat -> bool)
    returns (ok: bool, wire: string, response: string)
    requires ctx.Valid() && Fresh(ctx.View()) && |reply| <= MSG_SIZE
    modifies ctx, ctx.sendBuf, ctx.recvBuf
    ensures ctx.Valid() && (ok ==> Fresh(ctx.View()))
    ensures ok <==> up(0) && up(1) && up(2) && up(3)
    ensures wire == if up(0) && up(1) then Truncated(command + "\n") else ""
    ensures response == if ok then Chomp(reply) else before
  {
    wire, response := "", before;
    ok := ctx.PostRecv(up(0));
    if !ok {
      return;
    }
    ok := ctx.PostSend(command + "\n", up(1));
    if !ok {
      return;
    }
    wire := ctx.Transmit();
    if sendFirst {
      ctx.Complete();
      ok := ctx.PollCompletion(up(2));
      if !ok {
        return;
      }
      ctx.Deposit(reply);
    } else {
      ctx.Deposit(reply);
      ok := ctx.PollCompletion(up(2));
      if !ok {
        return;
      }
      ctx.Complete();
    }
    ok := ctx.PollCompletion(up(3));
    if !ok {
      return;
    }
    var received := ctx.RecvData();
    response := ChompLoop(received);
  }

  // ---------------------------------------------------------------------------
  // The server loop
  // ---------------------------------------------------------------------------

  /** The verbs call at which a turn of the loop fails. */
  datatype Failure = Nowhere | AtPostRecv | AtReceive | AtPostSend | AtSendDone

  /** A message that arrives, and how far its turn gets. */
  datatype Turn = Turn(message: string, fails: Failure) {
    predicate IsExecuted() { !fails.AtPostRecv? && !fails.AtReceive? }

    predicate IsSent() { IsExecuted() && !fails.AtPostSend? }

    /** The loop goes on after this turn. */
    predicate GoesOn() { fails.Nowhere? && !ParseRequest(StripNewline(message)).Quit? }
  }

  /** Arm a receive, into which the message arrives, and take it. */
  method ReceiveMessage(ctx: Context, turn: Turn) returns (ok: bool, data: string)
    requires ctx.Valid() && Fresh(ctx.View()) && |turn.message| <= MSG_SIZE
    modifies ctx, ctx.recvBuf
    ensures ctx.Valid() && ok == turn.IsExecuted()
    ensures ok ==> Fresh(ctx.View()) && data == turn.message
  {
    data := "";
    ok := ctx.PostRecv(!turn.fails.AtPostRecv?);
    if !ok {
      return;
    }
    ctx.Deposit(turn.message);
    ok := ctx.PollCompletion(!turn.fails.AtReceive?);
    if !ok {
      return;
    }
    data := ctx.RecvData();
  }

  /** Send a reply and wait for its completion. */
  method SendReply(ctx: Context, reply: string, turn: Turn) returns (ok: bool, wire: string)
    requires ctx.Valid() && Fresh(ctx.View()) && turn.IsExecuted()
    modifies ctx, ctx.sendBuf
    ensures ctx.Valid() && ok == turn.fails.Nowhere? && (ok ==> Fresh(ctx.View()))
    ensures wire == if turn.IsSent() then Truncated(reply) else ""
  {
    wire := "";
    ok := ctx.PostSend(reply, !turn.fails.AtPostSend?);
    if !ok {
      return;
    }
    wire := ctx.Transmit();
    ctx.Complete();
    ok := ctx.PollCompletion(!turn.fails.AtSendDone?);
  }

  /** One turn of the server loop: a message arrives in the posted receive, and is answered. */
  method ServeOne(ctx: Context, shared: Shared, turn: Turn) returns (goesOn: bool, wire: string)
    requires ctx.Valid() && Fresh(ctx.View()) && |turn.message| <= MSG_SIZE
    modifies ctx, ctx.sendBuf, ctx.recvBuf, shared
    ensures ctx.Valid() && (goesOn ==> Fresh(ctx.View()))
    ensures shared.contents ==
            if turn.IsExecuted() then ExecuteMessage(old(shared.contents), turn.message).0 else old(shared.contents)
    ensures wire == if turn.IsSent() then Truncated(ExecuteMessage(old(shared.contents), turn.message).1) else ""
    ensures goesOn <==> turn.fails.Nowhere? && !ParseRequest(StripNewline(turn.message)).Quit?
  {
    hide ParseRequest, Serialize, Truncated, RouteRequest, HandleRequest;
    wire, goesOn := "", false;
    var ok, line := ReceiveMessage(ctx, turn);
    if !ok {
      return;
    }
    if line != "" && line[|line| - 1] == '\n' {
      line := line[..|line| - 1];
    }
    var request := ParseRequest(line);
    RoutesAlike(shared.contents, request);
    var response := shared.Handle(request);
    ok, wire := SendReply(ctx, Serialize(response), turn);
    goesOn := ok && !request.Quit?;
  }

  /** The turns the loop takes: up to the first failure or QUIT. */
  function TurnsTaken(turns: seq<Turn>): (n: nat)
    ensures n <= |turns|
  {
    if turns == [] then 0 else if turns[0].GoesOn() then 1 + TurnsTaken(turns[1..]) else 1
  }

  /** The messages executed: of the turns taken only the last may fail before it executes its message. */
  function ExecutedBy(turns: seq<Turn>): (messages: seq<string>)
    ensures |turns| - 1 <= |messages| <= |turns|
    ensures forall i :: 0 <= i < |messages| ==> messages[i] == turns[i].message
  {
    var n := if turns == [] || turns[|turns| - 1].IsExecuted() then |turns| else |turns| - 1;
    seq(n, i requires 0 <= i < n => turns[i].message)
  }

  /**
   A loop over these messages takes `n` turns: none but the last of them failed or asked to quit,
   and it stops before the messages run out only because the last one did.
   */
  ghost predicate StopsAt(turns: seq<Turn>, n: nat) {
    && n <= |turns| && (turns != [] ==> n > 0)
    && (forall i :: 0 <= i < n - 1 ==>
          turns[i].fails.Nowhere? && !ParseRequest(StripNewline(turns[i].message)).Quit?)
    && (n < |turns| ==> !turns[n - 1].fails.Nowhere? || ParseRequest(StripNewline(turns[n - 1].message)).Quit?)
  }

  lemma {:induction false} LoopEnds(turns: seq<Turn>)
    ensures StopsAt(turns, TurnsTaken(turns))
  {
    hide ParseRequest, StripNewline;
    if turns != [] && turns[0].GoesOn() {
      LoopEnds(turns[1..]);
      var n := TurnsTaken(turns[1..]);
      assert forall i :: 0 < i < |turns| ==> turns[i] == turns[1..][i - 1];
    }
  }

  /** Nothing after a QUIT is taken. */
  lemma QuitEndsTheLoop(turns: seq<Turn>, i: nat)
    requires i < |turns| && ParseRequest(StripNewline(turns[i].message)).Quit?
    ensures TurnsTaken(turns) <= i + 1
  {
    hide ParseRequest, StripNewline, TurnsTaken;
    LoopEnds(turns);
  }

  /** These turns were taken: their messages executed in order, and their replies sent in order. */
  ghost predicate Served(start: KvStore, store: KvStore, wires: seq<string>, taken: seq<Turn>) {
    && (forall i :: 0 <= i < |taken| - 1 ==> taken[i].GoesOn())
    && var executed := ExecutedBy(taken);
       && store == MessagesStore(start, executed)
       && |wires| == |executed| - (if taken != [] && taken[|taken| - 1].fails.AtPostSend? then 1 else 0)
       && forall i :: 0 <= i < |wires| ==> wires[i] == Truncated(MessagesReplies(start, executed)[i])
  }

  /** What one turn of the loop does. */
  ghost predicate TurnDone(turn: Turn, store: KvStore, store': KvStore, wire: string) {
    && store' == (if turn.IsExecuted() then ExecuteMessage(store, turn.message).0 else store)
    && (turn.IsSent() ==> wire == Truncated(ExecuteMessage(store, turn.message).1))
  }

  lemma ServedNone(start: KvStore)
    ensures Served(start, start, [], [])
  {
  }

  lemma AllExecuted(taken: seq<Turn>)
    requires forall i :: 0 <= i < |taken| ==> taken[i].GoesOn()
    ensures |ExecutedBy(taken)| == |taken|
    ensures taken != [] ==> !taken[|taken| - 1].fails.AtPostSend?
  {
    hide ParseRequest, StripNewline;
  }

  lemma OneMoreReply(start: KvStore, messages: seq<string>, message: string)
    ensures MessagesStore(start, messages + [message]) == ExecuteMessage(MessagesStore(start, messages), message).0
    ensures MessagesReplies(start, messages + [message])
            == MessagesReplies(start, messages) + [ExecuteMessage(MessagesStore(start, messages), message).1]
  {
    hide ExecuteMessage;
    assert (messages + [message])[..|messages|] == messages;
  }

  lemma ServedOneMore(start: KvStore, store: KvStore, wires: seq<string>, taken: seq<Turn>, turn: Turn,
                      store': KvStore, wire: string)
    requires Served(start, store, wires, taken) && TurnDone(turn, store, store', wire)
    requires forall i :: 0 <= i < |taken| ==> taken[i].GoesOn()
    ensures Served(start, store', if turn.IsSent() then wires + [wire] else wires, taken + [turn])
  {
    hide ExecuteMessage, Truncated, Turn.GoesOn, ParseRequest, StripNewline, MessagesStore, MessagesReplies;
    AllExecuted(taken);
    var longer := taken + [turn];
    var executed := ExecutedBy(taken);
    assert forall i :: 0 <= i < |longer| - 1 ==> longer[i] == taken[i];
    if turn.IsExecuted() {
      OneMoreReply(start, executed, turn.message);
      assert ExecutedBy(longer) == executed + [turn.message];
    } else {
      assert ExecutedBy(longer) == executed;
    }
  }

  /**
   The server loop over the messages that arrive: it executes and answers each in order, and ends
   at a failed call or after QUIT.
   */
  method Serve(ctx: Context, shared: Shared, turns: seq<Turn>) returns (wires: seq<string>)
    requires ctx.Valid() && Fresh(ctx.View())
    requires forall i :: 0 <= i < |turns| ==> |turns[i].message| <= MSG_SIZE
    modifies ctx, ctx.sendBuf, ctx.recvBuf, shared
    ensures Served(old(shared.contents), shared.contents, wires, turns[..TurnsTaken(turns)])
    ensures StopsAt(turns, TurnsTaken(turns))
  {
    LoopEnds(turns);
    hide ParseRequest, ExecuteMessage, Truncated, StripNewline, Served, Fresh, StopsAt;
    wires := [];
    ghost var start := shared.contents;
    var i := 0;
    ServedNone(start);
    while i < |turns|
      invariant ctx.Valid() && Fresh(ctx.View())
      invariant i <= |turns| && forall j :: 0 <= j < i ==> turns[j].GoesOn()
      invariant TurnsTaken(turns) == i + TurnsTaken(turns[i..])
      invariant Served(start, shared.contents, wires, turns[..i])
    {
      ghost var before := shared.contents;
      var goesOn, wire := ServeOne(ctx, shared, turns[i]);
      ServedOneMore(start, before, wires, turns[..i], turns[i], shared.contents, wire);
      assert turns[..i + 1] == turns[..i] + [turns[i]];
      if turns[i].IsSent() {
        wires := wires + [wire];
      }
      i := i + 1;
      if !goesOn {
        break;
      }
    }
    assert i == TurnsTaken(turns);
  }
}
