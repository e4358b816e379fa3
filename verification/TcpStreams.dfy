/**
 What each connection's coroutine has read, executed and sent, in every run of the server.
 */
module TcpStreams {
  import opened TextProtocol
  import opened Dispatch
  import opened EventLoop
  import opened LineIo
  import opened Framing
  import opened TcpServer
  import opened TcpPlaces

  // ---------------------------------------------------------------------------
  // One connection
  // ---------------------------------------------------------------------------

  predicate Quits(line: string) { ParseRequest(line).Quit? }

  predicate NoQuit(lines: seq<string>) {
    forall i :: 0 <= i < |lines| ==> !Quits(lines[i])
  }

  /** What was sent, with what remains of the current reply, is all replies in order; QUIT comes last. */
  ghost predicate OutputOk(c: Frame)
    requires c.Client?
  {
    match c.stage
    case Sending(reply, offset, quits) =>
      && c.lines != [] && offset <= |reply|
      && c.sent + reply[offset..] == Concat(c.replies)
      && quits == Quits(c.lines[|c.lines| - 1])
      && NoQuit(c.lines[..|c.lines| - 1])
    case _ => c.sent == Concat(c.replies) && NoQuit(c.lines)
  }

  ghost predicate StreamOk(c: Frame)
    requires c.Client?
  {
    && NewlineFree(c.lines)
    && c.received == Joined(c.lines) + c.inbound
    && |c.replies| == |c.lines|
    && OutputOk(c)
  }

  /** Nothing is left to process. */
  predicate Drained(c: Frame)
    requires c.Client?
  {
    c.stage.Receiving? && '\n' !in c.inbound
  }

  lemma ReceivedMore(c: Frame, data: string)
    requires c.Client? && c.stage.Receiving? && StreamOk(c)
    ensures StreamOk(c.(inbound := c.inbound + data, received := c.received + data))
  {
    hide Joined, Concat, Quits, NewlineFree;
    assert Joined(c.lines) + c.inbound + data == Joined(c.lines) + (c.inbound + data);
  }

  lemma OneMoreLine(lines: seq<string>, line: string)
    ensures Joined(lines + [line]) == Joined(lines) + line + "\n"
    ensures NewlineFree(lines) && '\n' !in line ==> NewlineFree(lines + [line])
  {
    assert (lines + [line])[..|lines|] == lines;
  }

  lemma LineExecuted(c: Frame, reply: string)
    requires c.Client? && c.stage.Processing? && StreamOk(c)
    requires Find(c.inbound, '\n') < |c.inbound|
    ensures var n := Find(c.inbound, '\n');
            StreamOk(Executed(c, c.inbound[..n], c.inbound[n + 1..], reply))
  {
    hide ParseRequest, Concat, Joined, NewlineFree;
    var n := Find(c.inbound, '\n');
    var line, rest := c.inbound[..n], c.inbound[n + 1..];
    var c' := Executed(c, line, rest, reply);
    OneMoreLine(c.lines, line);
    ConcatAppend(c.replies, reply);
    assert c.inbound == line + "\n" + rest;
    assert c'.lines[..|c'.lines| - 1] == c.lines;
    assert c'.received == Joined(c'.lines) + rest;
    assert reply[0..] == reply;
  }

  lemma PartSent(c: Frame, n: nat)
    requires c.Client? && c.stage.Sending? && StreamOk(c) && c.stage.offset + n <= |c.stage.reply|
    ensures StreamOk(SentMore(c, n))
  {
    hide Concat, Joined, Quits;
    var reply, from := c.stage.reply, c.stage.offset;
    assert reply[from..] == reply[from..from + n] + reply[from + n..];
    assert c.sent + reply[from..] == (c.sent + reply[from..from + n]) + reply[from + n..];
  }

  /** A reply is through and the session goes on. */
  lemma ReplyDone(c: Frame)
    requires c.Client? && c.stage.Sending? && StreamOk(c)
    requires c.stage.offset == |c.stage.reply| && !c.stage.quits
    ensures StreamOk(c.(stage := Processing))
  {
    hide Concat, Joined, Quits;
    assert c.stage.reply[c.stage.offset..] == "";
    assert c.sent + "" == c.sent;
    forall i | 0 <= i < |c.lines|
      ensures !Quits(c.lines[i])
    {
      if i < |c.lines| - 1 {
        assert c.lines[..|c.lines| - 1][i] == c.lines[i];
      }
    }
  }

  // ---------------------------------------------------------------------------
  // All connections
  // ---------------------------------------------------------------------------

  predicate IsClient(s: State, h: Handle) { h in s.frames && s.frames[h].Client? }

  predicate WaitsToRead(s: State, h: Handle) { h in s.sched.places && s.sched.places[h].AtRead? }

  ghost predicate ConnectionOk(s: State, h: Handle)
    requires IsClient(s, h)
  {
    StreamOk(s.frames[h]) && (WaitsToRead(s, h) ==> Drained(s.frames[h]))
  }

  ghost predicate ConnectionFor(s: State, h: Handle) {
    IsClient(s, h) && ConnectionOk(s, h)
  }

  ghost predicate StreamsOk(s: State) {
    forall h :: IsClient(s, h) ==> ConnectionOk(s, h)
  }

  lemma OthersKeep(s: State, s': State, h: Handle)
    requires StreamsOk(s)
    requires forall x :: IsClient(s', x) && x != h ==>
               IsClient(s, x) && s'.frames[x] == s.frames[x] && (WaitsToRead(s', x) ==> WaitsToRead(s, x))
    requires IsClient(s', h) ==> ConnectionOk(s', h)
    ensures StreamsOk(s')
  {
    hide StreamOk, Drained;
  }

  lemma ReceiveKeepsStreams(s: State, h: Handle, got: RecvResult)
    requires StreamsOk(s) && RunsClient(s, h) && s.frames[h].stage.Receiving?
    ensures StreamsOk(DoReceive(s, h, got))
  {
    var c := s.frames[h];
    assert ConnectionOk(s, h);
    if got.Bytes? {
      ReceivedMore(c, got.data);
    }
    if got.RecvWouldBlock? {
      assert StreamOk(c.(stage := Processing));
    }
    hide StreamOk, StreamsOk;
    OthersKeep(s, DoReceive(s, h, got), h);
  }

  lemma LineKeepsConnection(s: State, h: Handle)
    requires RunsClient(s, h) && ConnectionFor(s, h) && s.frames[h].stage.Processing?
    requires Find(s.frames[h].inbound, '\n') < |s.frames[h].inbound|
    ensures ConnectionFor(DoProcess(s, h), h)
  {
    hide StreamOk, Execute, Find, ParseRequest, Drained;
    var c := s.frames[h];
    LineExecuted(c, Execute(s.store, c.inbound[..Find(c.inbound, '\n')]).1);
  }

  lemma NoLineKeepsConnection(s: State, h: Handle)
    requires RunsClient(s, h) && ConnectionFor(s, h) && s.frames[h].stage.Processing?
    requires Find(s.frames[h].inbound, '\n') == |s.frames[h].inbound|
    ensures ConnectionFor(DoProcess(s, h), h)
  {
    var c := s.frames[h];
    assert StreamOk(c.(stage := Receiving));
    hide StreamOk;
  }

  lemma ProcessKeepsStreams(s: State, h: Handle)
    requires StreamsOk(s) && RunsClient(s, h) && s.frames[h].stage.Processing?
    ensures StreamsOk(DoProcess(s, h))
  {
    assert ConnectionOk(s, h);
    hide StreamOk, StreamsOk, ConnectionOk, DoProcess, Find, ParseRequest, Drained, WaitsToRead;
    if Find(s.frames[h].inbound, '\n') < |s.frames[h].inbound| {
      LineKeepsConnection(s, h);
    } else {
      NoLineKeepsConnection(s, h);
    }
    ProcessLeavesOthers(s, h);
    OthersKeep(s, DoProcess(s, h), h);
  }

  lemma ProcessLeavesOthers(s: State, h: Handle)
    requires RunsClient(s, h) && s.frames[h].stage.Processing?
    ensures var s' := DoProcess(s, h);
            forall x :: IsClient(s', x) && x != h ==>
              IsClient(s, x) && s'.frames[x] == s.frames[x] && (WaitsToRead(s', x) ==> WaitsToRead(s, x))
  {
    hide Execute, Find, ParseRequest, Executed;
  }

  lemma SendKeepsStreams(s: State, h: Handle, answer: SendAnswer)
    requires StreamsOk(s) && Enabled(s, SendSome(h, answer))
    ensures StreamsOk(DoSend(s, h, answer))
  {
    var c := s.frames[h];
    assert ConnectionOk(s, h);
    if answer.Took? {
      PartSent(c, answer.n);
      var sent := SentMore(c, answer.n);
      if sent.stage.offset == |sent.stage.reply| && !sent.stage.quits {
        ReplyDone(sent);
      }
    }
    hide StreamOk, StreamsOk;
    OthersKeep(s, DoSend(s, h, answer), h);
  }

  lemma AcceptKeepsStreams(s: State, result: AcceptResult)
    requires StreamsOk(s) && FramesOk(s) && Enabled(s, AcceptOne(result))
    ensures StreamsOk(DoAccept(s, result))
  {
    assert StreamOk(NEW_CLIENT);
    hide StreamOk, StreamsOk;
    var h := if result.NewConnection? && result.nonBlocking then |s.frames| else ACCEPTOR;
    OthersKeep(s, DoAccept(s, result), h);
  }

  lemma SchedulingKeepsStreams(s: State, step: Step)
    requires StreamsOk(s) && FramesOk(s) && Enabled(s, step)
    requires step.Resume? || step.AwaitClients? || step.Poll?
    ensures StreamsOk(Apply(s, step))
  {
    hide StreamOk, StreamsOk, WakeUp;
    OthersKeep(s, Apply(s, step), ACCEPTOR);
  }

  lemma StepKeepsStreams(s: State, step: Step)
    requires StreamsOk(s) && FramesOk(s) && Enabled(s, step)
    ensures StreamsOk(Apply(s, step))
  {
    hide StreamsOk, FramesOk, DoReceive, DoProcess, DoSend, DoAccept;
    match step
    case Receive(h, got) => ReceiveKeepsStreams(s, h, got);
    case Process(h) => ProcessKeepsStreams(s, h);
    case SendSome(h, answer) => SendKeepsStreams(s, h, answer);
    case AcceptOne(result) => AcceptKeepsStreams(s, result);
    case _ => SchedulingKeepsStreams(s, step);
  }
}
