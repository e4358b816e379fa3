/** Complete lines a connection loses when its peer closes: exactly when, and a run in which it does. */
module TcpEndOfFile {
  import opened TextProtocol
  import opened Dispatch
  import opened EventLoop
  import opened Framing
  import opened Scheduling
  import opened TcpServer
  import opened TcpPlaces
  import opened TcpStreams
  import opened TcpReplay
  import opened TcpTheorems

  /** The bytes one connection received since recv() last told it to wait, or since it was accepted. */
  function Recent(steps: seq<Step>, h: Handle): string {
    if steps == [] then "" else After(Recent(steps[..|steps| - 1], h), steps[|steps| - 1], h)
  }

  function After(recent: string, step: Step, h: Handle): string {
    if !step.Receive? || step.h != h then recent
    else if step.got.Bytes? then recent + step.got.data
    else if step.got.RecvWouldBlock? then ""
    else recent
  }

  /** A newline is buffered while receiving exactly when one came in this drain. */
  ghost predicate RecentOk(s: State, steps: seq<Step>, h: Handle) {
    && (h !in s.frames ==> Recent(steps, h) == "")
    && (IsClient(s, h) && s.frames[h].stage.Receiving? ==>
          ('\n' in s.frames[h].inbound <==> '\n' in Recent(steps, h)))
    && (IsClient(s, h) && !s.frames[h].stage.Receiving? ==> Recent(steps, h) == "")
  }

  lemma RecentGrows(steps: seq<Step>, step: Step, h: Handle)
    ensures Recent(steps + [step], h) == After(Recent(steps, h), step, h)
  {
    assert (steps + [step])[..|steps|] == steps;
  }

  lemma StepKeepsRecent(s: State, step: Step, steps: seq<Step>, h: Handle)
    requires FramesOk(s) && Enabled(s, step) && RecentOk(s, steps, h)
    ensures RecentOk(Apply(s, step), steps + [step], h)
  {
    RecentGrows(steps, step, h);
    hide Recent, WakeAll, Execute, ParseRequest, Find;
  }

  lemma {:induction false} RunKeepsRecent(listener: int, run: seq<State>, steps: seq<Step>, n: nat, h: Handle)
    requires IsRun(listener, run, steps) && n <= |steps|
    ensures RecentOk(run[n], steps[..n], h)
  {
    hide SchedOk, FramesOk, Apply, Enabled, Recent;
    if n == 0 {
      StartsRecent(run[0], listener, h);
    } else {
      RunKeepsRecent(listener, run, steps, n - 1, h);
      RunKeepsPlaces(listener, run, steps, n - 1);
      assert Follows(run[n - 1], steps[n - 1], run[n]);
      StepKeepsRecent(run[n - 1], steps[n - 1], steps[..n - 1], h);
      assert steps[..n] == steps[..n - 1] + [steps[n - 1]];
    }
  }

  lemma StartsRecent(s: State, listener: int, h: Handle)
    requires Initial(s, listener)
    ensures RecentOk(s, [], h)
  {
  }

  lemma SplitOfRest(lines: seq<string>, inbound: string)
    requires NewlineFree(lines)
    ensures Split(Joined(lines) + inbound).0 == lines <==> '\n' !in inbound
  {
    SplitOfJoined(lines, inbound);
    assert lines + Split(inbound).0 == lines <==> Split(inbound).0 == [];
    if '\n' !in inbound {
      FindIs(inbound, '\n', |inbound|);
    }
  }

  /**
   End of file closes the connection at once and for good, and nothing more is executed for it:
   complete lines are lost exactly when a newline came in since recv() last told it to wait, or
   since it was accepted.
   */
  lemma EndOfFileDropsLines(listener: int, run: seq<State>, steps: seq<Step>, n: nat, h: Handle)
    requires IsRun(listener, run, steps) && n < |steps| && steps[n] == Receive(h, EndOfFile)
    ensures run[n + 1].sched.IsAt(h, Destroyed)
    ensures run[n + 1].log == run[n].log && run[n + 1].store == run[n].store
    ensures OwnLines(run[n + 1].log, h) != Split(BytesFor(steps[..n], h)).0 <==> '\n' in Recent(steps[..n], h)
  {
    hide Split, Joined, Quits, OwnLines, OwnReplies, BytesFor, Initial, OutputOk, Drained, Recent;
    assert Follows(run[n], steps[n], run[n + 1]);
    assert IsClient(run[n], h) && run[n].frames[h].stage.Receiving?;
    ReachableClient(listener, run, steps, n, h);
    RunKeepsRecent(listener, run, steps, n, h);
    SplitOfRest(run[n].frames[h].lines, run[n].frames[h].inbound);
  }

  // ---------------------------------------------------------------------------
  // A run that loses a line
  // ---------------------------------------------------------------------------

  const LISTENER := 3
  const PEER := 5
  const FIRST: Handle := 1
  const REQUEST := "GET a\n"

  /** The server before anybody connects. */
  function Listening(accepting: bool, ready: seq<Handle>, readers: Waiters, place: Place): State {
    State(map[], [], map[ACCEPTOR := Acceptor(accepting)],
          Sched(ready, readers, map[], {LISTENER}, map[ACCEPTOR := LISTENER], map[ACCEPTOR := place]))
  }

  /** The server with one connection that has executed nothing. */
  function Connected(accepting: bool, inbound: string, ready: seq<Handle>, readers: Waiters,
                     place: Place, clientPlace: Place): State {
    State(map[], [],
          map[ACCEPTOR := Acceptor(accepting), FIRST := Client(inbound, Receiving, inbound, [], [], "")],
          Sched(ready, readers, map[], if clientPlace.Destroyed? then {LISTENER} else {LISTENER, PEER},
                map[ACCEPTOR := LISTENER, FIRST := PEER], map[ACCEPTOR := place, FIRST := clientPlace]))
  }

  /** A client connects, sends one request and closes before the server gets to read. */
  function SendAndClose(): seq<Step> {
    [Resume, AwaitClients, Poll([PollFd(LISTENER, {In}, {In})]), Resume,
     AcceptOne(NewConnection(PEER, true)), AcceptOne(AcceptWouldBlock), AwaitClients,
     Resume, Receive(FIRST, Bytes(REQUEST)), Receive(FIRST, EndOfFile)]
  }

  function LosingRun(): seq<State> {
    [Listening(false, [ACCEPTOR], map[], InReady),
     Listening(false, [], map[], Running),
     Listening(true, [], map[LISTENER := ACCEPTOR], AtRead(LISTENER)),
     Listening(true, [ACCEPTOR], map[], InReady),
     Listening(true, [], map[], Running),
     Connected(true, "", [FIRST], map[], Running, InReady),
     Connected(false, "", [FIRST], map[], Running, InReady),
     Connected(true, "", [FIRST], map[LISTENER := ACCEPTOR], AtRead(LISTENER), InReady),
     Connected(true, "", [], map[LISTENER := ACCEPTOR], AtRead(LISTENER), Running),
     Connected(true, REQUEST, [], map[LISTENER := ACCEPTOR], AtRead(LISTENER), Running),
     Connected(true, REQUEST, [], map[LISTENER := ACCEPTOR], AtRead(LISTENER), Destroyed)]
  }

  lemma AcceptorResumes(accepting: bool)
    ensures Follows(Listening(accepting, [ACCEPTOR], map[], InReady), Resume, Listening(accepting, [], map[], Running))
  {
    var s, s' := Listening(accepting, [ACCEPTOR], map[], InReady), Listening(accepting, [], map[], Running);
    assert s'.sched.places == s.sched.places[ACCEPTOR := Running];
    assert Dequeue(s.sched) == s'.sched;
  }

  lemma AcceptorWaits()
    ensures Follows(Listening(false, [], map[], Running), AwaitClients,
                    Listening(true, [], map[LISTENER := ACCEPTOR], AtRead(LISTENER)))
  {
    var s := Listening(false, [], map[], Running);
    var s' := Listening(true, [], map[LISTENER := ACCEPTOR], AtRead(LISTENER));
    assert s'.sched.places == s.sched.places[ACCEPTOR := AtRead(LISTENER)];
    assert s'.frames == s.frames[ACCEPTOR := Acceptor(true)];
    assert ParkRead(s.sched, ACCEPTOR, LISTENER) == s'.sched;
  }

  lemma AcceptorWoken()
    ensures WakeUp(map[LISTENER := ACCEPTOR], map[], [PollFd(LISTENER, {In}, {In})])
            == Wake([ReaderOf(LISTENER)], [ACCEPTOR], map[], map[])
  {
    var pfd := PollFd(LISTENER, {In}, {In});
    assert [pfd][..0] == [];
    assert In in pfd.revents * {In, Err, Hup, Nval};
    var none := Wake([], [], map[LISTENER := ACCEPTOR], map[]);
    assert WakeUp(map[LISTENER := ACCEPTOR], map[], []) == none;
    assert map[LISTENER := ACCEPTOR] - {LISTENER} == map[];
    assert WakeReader(none, pfd) == Wake([ReaderOf(LISTENER)], [ACCEPTOR], map[], map[]);
  }

  lemma OneAsked()
    ensures IsPollSet(map[LISTENER := ACCEPTOR], map[], [PollFd(LISTENER, {In}, {})])
  {
    var readers: Waiters, writers: Waiters := map[LISTENER := ACCEPTOR], map[];
    var asked := [PollFd(LISTENER, {In}, {})];
    assert Wanted(readers, writers, LISTENER) == {In};
    assert asked[0].fd == LISTENER;
  }

  lemma PollReportsListener()
    ensures Follows(Listening(true, [], map[LISTENER := ACCEPTOR], AtRead(LISTENER)),
                    Poll([PollFd(LISTENER, {In}, {In})]),
                    Listening(true, [ACCEPTOR], map[], InReady))
  {
    hide WakeUp, IsPollSet;
    var s := Listening(true, [], map[LISTENER := ACCEPTOR], AtRead(LISTENER));
    var s' := Listening(true, [ACCEPTOR], map[], InReady);
    var told := [PollFd(LISTENER, {In}, {In})];
    OneAsked();
    AcceptorWoken();
    assert IsReport([PollFd(LISTENER, {In}, {})], told);
    assert WakeAll(s.sched, told).places == s'.sched.places;
    assert WakeAll(s.sched, told) == s'.sched;
  }

  lemma PeerAccepted()
    ensures Follows(Listening(true, [], map[], Running), AcceptOne(NewConnection(PEER, true)),
                    Connected(true, "", [FIRST], map[], Running, InReady))
  {
    var s, s' := Listening(true, [], map[], Running), Connected(true, "", [FIRST], map[], Running, InReady);
    assert |s.frames| == |s.frames.Keys| == |{ACCEPTOR}| == 1;
    assert s'.frames == s.frames[FIRST := NEW_CLIENT];
    assert s'.sched.places == s.sched.places[FIRST := InReady] && s'.sched.fds == s.sched.fds[FIRST := PEER];
    assert Spawn(s.sched, FIRST, PEER) == s'.sched;
  }

  lemma NobodyElseAccepted()
    ensures Follows(Connected(true, "", [FIRST], map[], Running, InReady), AcceptOne(AcceptWouldBlock),
                    Connected(false, "", [FIRST], map[], Running, InReady))
  {
    var s := Connected(true, "", [FIRST], map[], Running, InReady);
    assert s.frames[ACCEPTOR := Acceptor(false)] == Connected(false, "", [FIRST], map[], Running, InReady).frames;
  }

  lemma AcceptorWaitsAgain()
    ensures Follows(Connected(false, "", [FIRST], map[], Running, InReady), AwaitClients,
                    Connected(true, "", [FIRST], map[LISTENER := ACCEPTOR], AtRead(LISTENER), InReady))
  {
    var s := Connected(false, "", [FIRST], map[], Running, InReady);
    var s' := Connected(true, "", [FIRST], map[LISTENER := ACCEPTOR], AtRead(LISTENER), InReady);
    assert s'.sched.places == s.sched.places[ACCEPTOR := AtRead(LISTENER)];
    assert s'.frames == s.frames[ACCEPTOR := Acceptor(true)];
    assert ParkRead(s.sched, ACCEPTOR, LISTENER) == s'.sched;
  }

  lemma PeerResumes(readers: Waiters)
    ensures Follows(Connected(true, "", [FIRST], readers, AtRead(LISTENER), InReady), Resume,
                    Connected(true, "", [], readers, AtRead(LISTENER), Running))
  {
    var s := Connected(true, "", [FIRST], readers, AtRead(LISTENER), InReady);
    var s' := Connected(true, "", [], readers, AtRead(LISTENER), Running);
    assert s'.sched.places == s.sched.places[FIRST := Running];
    assert Dequeue(s.sched) == s'.sched;
  }

  lemma RequestArrives(readers: Waiters)
    ensures Follows(Connected(true, "", [], readers, AtRead(LISTENER), Running), Receive(FIRST, Bytes(REQUEST)),
                    Connected(true, REQUEST, [], readers, AtRead(LISTENER), Running))
  {
    var s := Connected(true, "", [], readers, AtRead(LISTENER), Running);
    var s' := Connected(true, REQUEST, [], readers, AtRead(LISTENER), Running);
    assert |REQUEST| == 6 && "" + REQUEST == REQUEST;
    assert s'.frames == s.frames[FIRST := Client(REQUEST, Receiving, REQUEST, [], [], "")];
  }

  lemma PeerCloses(readers: Waiters)
    ensures Follows(Connected(true, REQUEST, [], readers, AtRead(LISTENER), Running), Receive(FIRST, EndOfFile),
                    Connected(true, REQUEST, [], readers, AtRead(LISTENER), Destroyed))
  {
    var s := Connected(true, REQUEST, [], readers, AtRead(LISTENER), Running);
    var s' := Connected(true, REQUEST, [], readers, AtRead(LISTENER), Destroyed);
    assert s'.sched.places == s.sched.places[FIRST := Destroyed];
    assert Finish(s.sched, FIRST, PEER) == s'.sched;
  }

  lemma LosingRunIsRun()
    ensures IsRun(LISTENER, LosingRun(), SendAndClose())
  {
    hide Follows, Listening, Connected;
    AcceptorResumes(false);
    AcceptorWaits();
    PollReportsListener();
    AcceptorResumes(true);
    PeerAccepted();
    NobodyElseAccepted();
    AcceptorWaitsAgain();
    PeerResumes(map[LISTENER := ACCEPTOR]);
    RequestArrives(map[LISTENER := ACCEPTOR]);
    PeerCloses(map[LISTENER := ACCEPTOR]);
    StartsListening();
    var run, steps := LosingRun(), SendAndClose();
    forall i | 0 <= i < 10
      ensures Follows(run[i], steps[i], run[i + 1])
    {
    }
  }

  lemma StartsListening()
    ensures Initial(Listening(false, [ACCEPTOR], map[], InReady), LISTENER)
  {
  }

  lemma BytesGrow(steps: seq<Step>, step: Step, h: Handle)
    ensures BytesFor(steps + [step], h)
            == BytesFor(steps, h) + if step.Receive? && step.h == h && step.got.Bytes? then step.got.data else ""
  {
    assert (steps + [step])[..|steps|] == steps;
  }

  lemma {:induction false} NoBytes(steps: seq<Step>, h: Handle)
    requires forall i :: 0 <= i < |steps| ==> !steps[i].Receive?
    ensures BytesFor(steps, h) == ""
  {
    if steps != [] {
      NoBytes(steps[..|steps| - 1], h);
    }
  }

  /** In this run a complete request line is received, the peer closes, and the line is never executed. */
  lemma ALineIsLost()
    ensures IsRun(LISTENER, LosingRun(), SendAndClose())
    ensures Split(BytesFor(SendAndClose()[..9], FIRST)).0 == ["GET a"]
    ensures LosingRun()[10].log == [] && LosingRun()[10].sched.IsAt(FIRST, Destroyed)
  {
    LosingRunIsRun();
    hide IsRun, BytesFor, Split;
    var steps := SendAndClose();
    NoBytes(steps[..8], FIRST);
    assert steps[..9] == steps[..8] + [Receive(FIRST, Bytes(REQUEST))];
    BytesGrow(steps[..8], Receive(FIRST, Bytes(REQUEST)), FIRST);
    assert BytesFor(steps[..9], FIRST) == REQUEST;
    assert REQUEST == "GET a" + "\n" + "";
    FirstLine("GET a", "");
    NoLines();
  }

  lemma NoLines()
    ensures Split("") == ([], "")
  {
  }
}
