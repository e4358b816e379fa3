/** When a connection of the TCP server suspends and ends, and that it serves whatever it has received. */
module TcpLifetime {
  import opened TextProtocol
  import opened Dispatch
  import opened EventLoop
  import opened LineIo
  import opened Framing
  import opened Scheduling
  import opened TcpServer
  import opened TcpPlaces
  import opened TcpStreams
  import opened TcpReplay
  import opened TcpTheorems
  import opened Connection

  // ---------------------------------------------------------------------------
  // A reply is never left without bytes to send
  // ---------------------------------------------------------------------------

  /** While the connection lives, a reply being sent has bytes left. */
  predicate SendDue(s: State, h: Handle) {
    IsClient(s, h) && s.sched.Alive(h) && s.frames[h].stage.Sending? ==>
      s.frames[h].stage.offset < |s.frames[h].stage.reply|
  }

  lemma ExecutedReply(store: KvStore, line: string)
    ensures Execute(store, line).1 != ""
  {
    hide ParseRequest, HandleRequest, Serialize;
    RepliesAreNotEmpty(HandleRequest(store, ParseRequest(line)).1);
  }

  lemma ProcessKeepsDue(s: State, p: Handle, h: Handle)
    requires RunsClient(s, p) && s.frames[p].stage.Processing? && SendDue(s, h)
    ensures SendDue(DoProcess(s, p), h)
  {
    hide Execute, Find, ParseRequest;
    var c := s.frames[p];
    ExecutedReply(s.store, c.inbound[..Find(c.inbound, '\n')]);
  }

  /** The scheduling steps leave every connection's frame as it is; a new one holds nothing. */
  lemma SchedulingKeepsFrame(s: State, step: Step, h: Handle)
    requires FramesOk(s) && Enabled(s, step)
    requires step.Resume? || step.Poll? || step.AcceptOne? || step.AwaitClients?
    ensures IsClient(s, h) ==> IsClient(Apply(s, step), h) && Apply(s, step).frames[h] == s.frames[h]
    ensures IsClient(Apply(s, step), h) ==> IsClient(s, h) || Apply(s, step).frames[h] == NEW_CLIENT
  {
    hide WakeAll, Dequeue, IsPollSet, IsReport;
  }

  lemma LivesNow(s: State, step: Step, h: Handle)
    requires PlacesOk(s) && Enabled(s, step) && IsClient(s, h) && Apply(s, step).sched.Alive(h)
    ensures s.sched.Alive(h)
  {
    hide SchedOk, Apply, Enabled;
    StepDestroysOnce(s, step, h);
  }

  lemma SchedulingKeepsDue(s: State, step: Step, h: Handle)
    requires PlacesOk(s) && Enabled(s, step) && SendDue(s, h)
    requires step.Resume? || step.Poll? || step.AcceptOne? || step.AwaitClients?
    ensures SendDue(Apply(s, step), h)
  {
    hide SchedOk, FramesOk, Apply, Enabled;
    SchedulingKeepsFrame(s, step, h);
    if IsClient(s, h) && Apply(s, step).sched.Alive(h) {
      LivesNow(s, step, h);
    }
  }

  lemma StepKeepsDue(s: State, step: Step, h: Handle)
    requires PlacesOk(s) && Enabled(s, step) && SendDue(s, h)
    ensures SendDue(Apply(s, step), h)
  {
    hide PlacesOk, DoProcess;
    match step
    case Process(p) => ProcessKeepsDue(s, p, h);
    case Receive(_, _) =>
    case SendSome(_, _) =>
    case _ => SchedulingKeepsDue(s, step, h);
  }

  lemma {:induction false} RunKeepsDue(listener: int, run: seq<State>, steps: seq<Step>, n: nat, h: Handle)
    requires IsRun(listener, run, steps) && n <= |steps|
    ensures SendDue(run[n], h)
  {
    hide SendDue, PlacesOk, Apply, Enabled, Initial;
    if n == 0 {
      StartsDue(run[0], listener, h);
    } else {
      RunKeepsDue(listener, run, steps, n - 1, h);
      RunKeepsPlaces(listener, run, steps, n - 1);
      assert Follows(run[n - 1], steps[n - 1], run[n]);
      StepKeepsDue(run[n - 1], steps[n - 1], h);
    }
  }

  lemma StartsDue(s: State, listener: int, h: Handle)
    requires Initial(s, listener)
    ensures SendDue(s, h)
  {
  }

  // ---------------------------------------------------------------------------
  // How a connection ends
  // ---------------------------------------------------------------------------

  /** Every reply is on the wire, and the last request was a QUIT. */
  predicate QuitAnswered(s: State, h: Handle) {
    var lines := OwnLines(s.log, h);
    && IsClient(s, h)
    && s.frames[h].sent == Concat(OwnReplies(s.log, h))
    && lines != [] && Quits(lines[|lines| - 1])
  }

  /** The kernel told the connection that it is over. */
  predicate IsHangUp(step: Step, h: Handle) {
    step == Receive(h, EndOfFile) || step == Receive(h, RecvError) || step == SendSome(h, SendError)
  }

  lemma OnlyWholeReplies(sent: string, rest: string, all: string)
    requires sent + rest == all
    ensures sent == all <==> rest == ""
  {
    assert |all| == |sent| + |rest|;
    if rest == "" {
      assert sent + rest == sent;
    }
  }

  /** A QUIT is answered when its reply is through. */
  lemma QuitAnsweredMeans(s: State, h: Handle)
    requires ServerOk(s) && IsClient(s, h)
    ensures var stage := s.frames[h].stage;
            QuitAnswered(s, h) <==> stage.Sending? && stage.offset == |stage.reply| && stage.quits
  {
    hide Concat, Joined, Quits, OwnLines, OwnReplies, PlacesOk, NewlineFree, LinesOf, StoreAfter;
    assert ConnectionOk(s, h) && HistoryOk(s, h);
    var c := s.frames[h];
    if c.stage.Sending? {
      OnlyWholeReplies(c.sent, c.stage.reply[c.stage.offset..], Concat(c.replies));
    } else if c.lines != [] {
      assert !Quits(c.lines[|c.lines| - 1]);
    }
  }

  /** A step this connection makes. */
  predicate OwnStep(step: Step, h: Handle) {
    match step
    case Receive(who, _) => who == h
    case Process(who) => who == h
    case SendSome(who, _) => who == h
    case _ => false
  }

  /** A connection makes steps exactly while it runs, and nobody else does then. */
  lemma RunningActs(s: State, step: Step, h: Handle)
    requires PlacesOk(s) && Enabled(s, step) && IsClient(s, h)
    ensures OwnStep(step, h) <==> RunsClient(s, h)
  {
    hide ReadyOk, WaitersOk, DescriptorsOk, IsPollSet, IsReport;
    assert s.sched.IsAt(h, Running) ==> !s.sched.Idle();
  }

  /** What destroys a frame in one of its own steps. */
  lemma OwnStepCloses(s: State, step: Step, h: Handle)
    requires RunsClient(s, h) && Enabled(s, step) && OwnStep(step, h)
    ensures var s' := Apply(s, step);
            && (IsHangUp(step, h) ==> !s'.sched.Alive(h))
            && (!s'.sched.Alive(h) && !IsHangUp(step, h) ==>
                  var stage := s'.frames[h].stage;
                  stage.Sending? && stage.offset == |stage.reply| && stage.quits)
  {
    hide Execute, Find, ParseRequest;
  }

  lemma StaysClient(s: State, step: Step, h: Handle)
    requires FramesOk(s) && Enabled(s, step) && IsClient(s, h)
    ensures IsClient(Apply(s, step), h)
  {
    hide WakeAll, Dequeue, IsPollSet, IsReport, Execute, Find, ParseRequest;
  }

  /** Steps of others leave it alive. */
  lemma OtherStepKeepsAlive(s: State, step: Step, h: Handle)
    requires PlacesOk(s) && Enabled(s, step) && IsClient(s, h) && s.sched.Alive(h) && !OwnStep(step, h)
    ensures Apply(s, step).sched.Alive(h)
  {
    StepKeepsPlaces(s, step);
    StaysClient(s, step, h);
    StepDestroysOnce(s, step, h);
    RunningActs(s, step, h);
    hide Apply, Enabled, SchedOk, OwnStep;
    assert s.sched.IsAt(h, Running) ==> RunsClient(s, h) by { RunningFrame(s, h); }
  }

  lemma RunningFrame(s: State, h: Handle)
    requires PlacesOk(s) && IsClient(s, h)
    ensures h in s.sched.fds && (s.sched.IsAt(h, Running) <==> RunsClient(s, h))
  {
    hide ReadyOk, WaitersOk, DescriptorsOk;
  }

  /**
   A live connection ends with a step exactly when the kernel reports end of file or an error on
   it, or this step put the last byte of the reply to its QUIT on the wire.
   */
  lemma ClosesExactlyWhen(listener: int, run: seq<State>, steps: seq<Step>, n: nat, h: Handle)
    requires IsRun(listener, run, steps) && n < |steps|
    requires IsClient(run[n], h) && run[n].sched.Alive(h)
    ensures !run[n + 1].sched.Alive(h) <==> IsHangUp(steps[n], h) || QuitAnswered(run[n + 1], h)
  {
    hide Apply, Enabled, Initial, QuitAnswered, StreamsOk, LogOk, SchedOk, FramesOk;
    RunKeepsServer(listener, run, steps, n);
    RunKeepsServer(listener, run, steps, n + 1);
    RunKeepsDue(listener, run, steps, n + 1, h);
    assert Follows(run[n], steps[n], run[n + 1]);
    RunningActs(run[n], steps[n], h);
    StaysClient(run[n], steps[n], h);
    if OwnStep(steps[n], h) {
      OwnStepCloses(run[n], steps[n], h);
    } else {
      NoHangUp(steps[n], h);
      OtherStepKeepsAlive(run[n], steps[n], h);
    }
    QuitAnsweredMeans(run[n + 1], h);
  }

  lemma NoHangUp(step: Step, h: Handle)
    requires !OwnStep(step, h)
    ensures !IsHangUp(step, h)
  {
  }

  /** Where its own step leaves a running connection. */
  lemma OwnStepSuspends(s: State, step: Step, h: Handle)
    requires RunsClient(s, h) && Enabled(s, step) && OwnStep(step, h)
    ensures var s' := Apply(s, step);
            && (WaitsToRead(s', h) <==> step == Process(h) && '\n' !in s.frames[h].inbound)
            && (WaitsToWrite(s', h) <==> step == SendSome(h, SendWouldBlock))
            && (step == Receive(h, RecvRetry) || step == SendSome(h, SendRetry) ==> s' == s)
            && (!s'.sched.Alive(h) || WaitsToRead(s', h) || WaitsToWrite(s', h) || s'.sched.IsAt(h, Running))
  {
    hide Execute, ParseRequest;
  }

  /**
   A running connection suspends exactly when it finds no newline in its buffer or send() would
   block; an interrupted call changes nothing.
   */
  lemma SuspendsExactlyWhen(listener: int, run: seq<State>, steps: seq<Step>, n: nat, h: Handle)
    requires IsRun(listener, run, steps) && n < |steps|
    requires RunsClient(run[n], h)
    ensures var s, s' := run[n], run[n + 1];
            && (WaitsToRead(s', h) <==> steps[n] == Process(h) && '\n' !in s.frames[h].inbound)
            && (WaitsToWrite(s', h) <==> steps[n] == SendSome(h, SendWouldBlock))
            && (steps[n] == Receive(h, RecvRetry) || steps[n] == SendSome(h, SendRetry) ==> s' == s)
            && (!s'.sched.Alive(h) || WaitsToRead(s', h) || WaitsToWrite(s', h) || s'.sched.IsAt(h, Running))
  {
    RunKeepsPlaces(listener, run, steps, n);
    assert Follows(run[n], steps[n], run[n + 1]);
    RunningActs(run[n], steps[n], h);
    hide Apply, Enabled, Initial, RunsClient;
    OwnStepSuspends(run[n], steps[n], h);
  }

  predicate WaitsToWrite(s: State, h: Handle) { h in s.sched.places && s.sched.places[h].AtWrite? }

  // ---------------------------------------------------------------------------
  // The acceptor
  // ---------------------------------------------------------------------------

  /**
   After an answer that says nobody is there, and after any unexpected failure, the acceptor's
   next step is to wait; after any other answer it accepts again.  Only a connection that
   could be made nonblocking changes anything else.
   */
  lemma AcceptorGoesOn(listener: int, run: seq<State>, steps: seq<Step>, n: nat)
    requires IsRun(listener, run, steps) && n < |steps| && steps[n].AcceptOne?
    ensures var s, s', result := run[n], run[n + 1], steps[n].result;
            var stops := result.AcceptWouldBlock? || result.AcceptError?;
            && (Enabled(s', AwaitClients) <==> stops)
            && (Enabled(s', AcceptOne(AcceptRetry)) <==> !stops)
            && (!(result.NewConnection? && result.nonBlocking) ==>
                  && s'.store == s.store && s'.log == s.log && s'.sched == s.sched
                  && s'.frames.Keys == s.frames.Keys
                  && forall h :: IsClient(s, h) ==> s'.frames[h] == s.frames[h])
  {
    RunKeepsPlaces(listener, run, steps, n);
    assert Follows(run[n], steps[n], run[n + 1]);
    hide Apply, Enabled, PlacesOk, Initial, RunsAcceptor;
    AcceptStep(run[n], steps[n].result);
    AcceptorNext(run[n + 1]);
  }

  lemma AcceptorNext(s: State)
    ensures Enabled(s, AwaitClients) <==> RunsAcceptor(s, false)
    ensures Enabled(s, AcceptOne(AcceptRetry)) <==> RunsAcceptor(s, true)
  {
  }

  lemma AcceptStep(s: State, result: AcceptResult)
    requires PlacesOk(s) && Enabled(s, AcceptOne(result))
    ensures var s', stops := Apply(s, AcceptOne(result)), result.AcceptWouldBlock? || result.AcceptError?;
            && RunsAcceptor(s', !stops) && !RunsAcceptor(s', stops)
            && (!(result.NewConnection? && result.nonBlocking) ==>
                  && s'.store == s.store && s'.log == s.log && s'.sched == s.sched
                  && s'.frames.Keys == s.frames.Keys
                  && forall h :: IsClient(s, h) ==> s'.frames[h] == s.frames[h])
  {
    hide SchedOk;
  }

  // ---------------------------------------------------------------------------
  // Everything received is served
  // ---------------------------------------------------------------------------

  /** A step of this connection on which nothing fails and nothing more has arrived. */
  predicate Untroubled(step: Step, h: Handle) {
    step == Receive(h, RecvWouldBlock) || step == Process(h) || (step.SendSome? && step.h == h && step.answer.Took?)
  }

  /** The connection waits for more, or has answered a QUIT and ended. */
  predicate Settled(s: State, h: Handle) {
    IsClient(s, h) && if QuitAnswered(s, h) then !s.sched.Alive(h) else WaitsToRead(s, h)
  }

  /** The next step when the kernel takes all it is offered. */
  function NextStep(s: State, h: Handle): Step
    requires RunsClient(s, h) && SendDue(s, h)
  {
    match s.frames[h].stage
    case Receiving => Receive(h, RecvWouldBlock)
    case Processing => Process(h)
    case Sending(reply, offset, _) => SendSome(h, Took(|reply| - offset))
  }

  function Rank(stage: Stage): nat {
    if stage.Processing? then 0 else 1
  }

  lemma NextStepProgresses(s: State, h: Handle)
    requires RunsClient(s, h) && SendDue(s, h)
    ensures Enabled(s, NextStep(s, h)) && Untroubled(NextStep(s, h), h)
    ensures var s' := Apply(s, NextStep(s, h));
            && IsClient(s', h) && s'.frames[h].received == s.frames[h].received
            && (RunsClient(s', h) ==>
                  || |s'.frames[h].inbound| < |s.frames[h].inbound|
                  || (s'.frames[h].inbound == s.frames[h].inbound && Rank(s'.frames[h].stage) < Rank(s.frames[h].stage)))
            && (!RunsClient(s', h) ==>
                  || (WaitsToRead(s', h) && !s'.frames[h].stage.Sending?)
                  || (!s'.sched.Alive(h) && s'.frames[h].stage.Sending? && s'.frames[h].stage.quits
                      && s'.frames[h].stage.offset == |s'.frames[h].stage.reply|))
  {
    hide Execute, Find, ParseRequest;
  }

  lemma {:induction false} Settles(s: State, h: Handle) returns (steps: seq<Step>, s': State)
    requires ServerOk(s) && RunsClient(s, h) && SendDue(s, h)
    ensures Reaches(s, steps, s') && forall i :: 0 <= i < |steps| ==> Untroubled(steps[i], h)
    ensures ServerOk(s') && Settled(s', h) && s'.frames[h].received == s.frames[h].received
    decreases |s.frames[h].inbound|, Rank(s.frames[h].stage)
  {
    hide Reaches, PlacesOk, StreamsOk, LogOk, Enabled, Apply, NextStep, QuitAnswered, Untroubled, SendDue;
    var step := NextStep(s, h);
    NextStepProgresses(s, h);
    StepKeepsServer(s, step);
    StepKeepsDue(s, step, h);
    var next := Apply(s, step);
    var more;
    if RunsClient(next, h) {
      more, s' := Settles(next, h);
    } else {
      QuitAnsweredMeans(next, h);
      NoSteps(next);
      more, s' := [], next;
    }
    ReachesAfter(s, step, more, s');
    steps := [step] + more;
  }

  /** Own steps without trouble that settle the connection, with nothing more received. */
  ghost predicate SettlesBy(s: State, h: Handle, steps: seq<Step>, s': State) {
    && Reaches(s, steps, s')
    && (forall i :: 0 <= i < |steps| ==> Untroubled(steps[i], h))
    && IsClient(s', h)
  }

  /** Where a settled connection stands, told by the bytes it received. */
  ghost predicate Served(s: State, h: Handle, received: string) {
    var (lines, rest) := Split(received);
    var own := OwnLines(s.log, h);
    && IsClient(s, h)
    && s.frames[h].sent == Concat(OwnReplies(s.log, h))
    && if NoQuit(lines) then own == lines && s.frames[h].inbound == rest && WaitsToRead(s, h)
       else own <= lines && own != [] && NoQuit(own[..|own| - 1]) && Quits(own[|own| - 1]) && !s.sched.Alive(h)
  }

  lemma SettledIsServed(s: State, h: Handle)
    requires ServerOk(s) && Settled(s, h)
    ensures Served(s, h, s.frames[h].received)
  {
    hide Concat, Joined, Quits, OwnReplies, PlacesOk, LinesOf, StoreAfter, Split, OwnLines;
    var c := s.frames[h];
    assert ConnectionOk(s, h) && HistoryOk(s, h);
    QuitAnsweredMeans(s, h);
    if QuitAnswered(s, h) {
      SplitKeepsLines(c.lines, c.inbound);
      assert c.lines != [] && Quits(c.lines[|c.lines| - 1]);
      assert c.received == Joined(c.lines) + c.inbound;
      assert c.lines <= Split(c.received).0;
      assert Split(c.received).0[|c.lines| - 1] == c.lines[|c.lines| - 1];
    } else {
      SplitIsUnique(c.lines, c.inbound);
    }
  }

  /**
   From every reachable state in which a connection runs, its own steps, as long as nothing fails
   and nothing more arrives, bring it to where it has executed and answered every complete line
   received so far and waits for more; or, when there is a QUIT among them, every line up to the
   first QUIT, and the connection is closed.
   */
  lemma ServesWhatItReceived(listener: int, run: seq<State>, steps: seq<Step>, n: nat, h: Handle)
    requires IsRun(listener, run, steps) && n <= |steps| && RunsClient(run[n], h)
    ensures exists more, s' :: SettlesBy(run[n], h, more, s') && Served(s', h, BytesFor(steps[..n], h))
  {
    hide ServerOk, SendDue, Reaches, Untroubled, Settled, Served, BytesFor, StreamOk, Drained, OwnLines, OwnReplies,
      Follows, Initial;
    var s := run[n];
    RunKeepsServer(listener, run, steps, n);
    RunKeepsDue(listener, run, steps, n, h);
    ReachableClient(listener, run, steps, n, h);
    var more, s' := Settles(s, h);
    SettledIsServed(s', h);
    SettledIsClient(s', h);
    assert SettlesBy(s, h, more, s');
  }

  lemma SettledIsClient(s: State, h: Handle)
    requires Settled(s, h)
    ensures IsClient(s, h)
  {
  }
}
