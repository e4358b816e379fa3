/** Where the server's coroutine frames are, in every run: nothing is lost, overwritten or destroyed twice. */
module TcpPlaces {
  import opened Dispatch
  import opened EventLoop
  import opened Scheduling
  import opened TcpServer
  import opened TextProtocol

  /** Frames are numbered in order of spawning; the acceptor is the first and lives on. */
  ghost predicate FramesOk(s: State) {
    && (forall h: Handle :: h in s.frames <==> h < |s.frames|)
    && s.frames.Keys == s.sched.places.Keys
    && s.sched.Alive(ACCEPTOR)
    && (forall h :: h in s.frames ==> (s.frames[h].Acceptor? <==> h == ACCEPTOR))
  }

  ghost predicate PlacesOk(s: State) {
    SchedOk(s.sched) && FramesOk(s)
  }

  lemma FirstFrameReady(s: Sched, h: Handle, fd: int)
    requires s == Sched([h], map[], map[], {fd}, map[h := fd], map[h := InReady])
    ensures SchedOk(s)
  {
    assert s.places.Keys == {h} && s.fds.Keys == {h};
    assert forall x :: x in s.places ==> x == h;
  }

  lemma InitialPlaces(s: State, listener: int)
    requires Initial(s, listener)
    ensures PlacesOk(s)
  {
    FirstFrameReady(s.sched, ACCEPTOR, listener);
    hide SchedOk;
    assert s.frames.Keys == {ACCEPTOR} && s.sched.places.Keys == {ACCEPTOR};
    assert |s.frames| == |s.frames.Keys| == 1;
  }

  // ---------------------------------------------------------------------------
  // Every step keeps it
  // ---------------------------------------------------------------------------

  /** At most the contents of one frame changed, and the acceptor was not destroyed. */
  lemma SameFrames(s: State, s': State)
    requires FramesOk(s)
    requires s'.frames.Keys == s.frames.Keys && s'.sched.places.Keys == s.sched.places.Keys
    requires forall h :: h in s.frames ==> s'.frames[h].Acceptor? == s.frames[h].Acceptor?
    requires s'.sched.Alive(ACCEPTOR)
    ensures FramesOk(s')
  {
    assert |s'.frames| == |s'.frames.Keys| == |s.frames.Keys| == |s.frames|;
  }

  lemma ClientIsNotAcceptor(s: State, h: Handle)
    requires FramesOk(s) && RunsClient(s, h)
    ensures h != ACCEPTOR
  {
  }

  lemma ReceiveKeepsPlaces(s: State, h: Handle, got: RecvResult)
    requires PlacesOk(s) && RunsClient(s, h)
    ensures PlacesOk(DoReceive(s, h, got))
  {
    hide SchedOk;
    ClientIsNotAcceptor(s, h);
    FinishKeeps(s.sched, h);
    SameFrames(s, DoReceive(s, h, got));
  }

  lemma ProcessKeepsPlaces(s: State, h: Handle)
    requires PlacesOk(s) && RunsClient(s, h)
    ensures PlacesOk(DoProcess(s, h))
  {
    hide SchedOk, Execute, Find, ParseRequest;
    ClientIsNotAcceptor(s, h);
    ParkReadKeeps(s.sched, h);
    SameFrames(s, DoProcess(s, h));
  }

  lemma SendKeepsPlaces(s: State, h: Handle, answer: SendAnswer)
    requires PlacesOk(s) && Enabled(s, SendSome(h, answer))
    ensures PlacesOk(DoSend(s, h, answer))
  {
    hide SchedOk;
    ClientIsNotAcceptor(s, h);
    FinishKeeps(s.sched, h);
    ParkWriteKeeps(s.sched, h);
    SameFrames(s, DoSend(s, h, answer));
  }

  lemma SpawnKeepsFrames(s: State, fd: int)
    requires FramesOk(s)
    ensures FramesOk(DoAccept(s, NewConnection(fd, true)))
    ensures |s.frames| !in s.frames && |s.frames| !in s.sched.places
  {
    var h := |s.frames|;
    assert h !in s.frames;
    var s' := DoAccept(s, NewConnection(fd, true));
    assert |s'.frames| == h + 1;
  }

  lemma AcceptKeepsPlaces(s: State, result: AcceptResult)
    requires PlacesOk(s) && Enabled(s, AcceptOne(result))
    ensures PlacesOk(DoAccept(s, result))
  {
    hide SchedOk;
    if result.NewConnection? && result.nonBlocking {
      SpawnKeepsFrames(s, result.fd);
      SpawnKeeps(s.sched, |s.frames|, result.fd);
    } else {
      SameFrames(s, DoAccept(s, result));
    }
  }

  lemma AwaitKeepsPlaces(s: State)
    requires PlacesOk(s) && Enabled(s, AwaitClients)
    ensures PlacesOk(Apply(s, AwaitClients))
  {
    hide SchedOk;
    ParkReadKeeps(s.sched, ACCEPTOR);
    SameFrames(s, Apply(s, AwaitClients));
  }

  lemma ResumeKeepsPlaces(s: State)
    requires PlacesOk(s) && Enabled(s, Resume)
    ensures PlacesOk(Apply(s, Resume))
  {
    DequeueKeeps(s.sched);
    assert s.sched.ready[0] in s.sched.ready;
    assert s.sched.IsAt(s.sched.ready[0], InReady);
    hide SchedOk;
    SameFrames(s, Apply(s, Resume));
  }

  lemma PollKeepsPlaces(s: State, told: seq<PollFd>)
    requires PlacesOk(s) && Enabled(s, Poll(told))
    ensures PlacesOk(Apply(s, Poll(told)))
  {
    hide SchedOk, WakeUp;
    WakeKeeps(s.sched, told);
    SameFrames(s, Apply(s, Poll(told)));
  }

  lemma StepKeepsPlaces(s: State, step: Step)
    requires PlacesOk(s) && Enabled(s, step)
    ensures PlacesOk(Apply(s, step))
  {
    hide PlacesOk, DoReceive, DoProcess, DoSend, DoAccept, WakeAll;
    match step
    case Resume => ResumeKeepsPlaces(s);
    case Receive(h, got) => ReceiveKeepsPlaces(s, h, got);
    case Process(h) => ProcessKeepsPlaces(s, h);
    case SendSome(h, answer) => SendKeepsPlaces(s, h, answer);
    case AwaitClients => AwaitKeepsPlaces(s);
    case AcceptOne(result) => AcceptKeepsPlaces(s, result);
    case Poll(told) => PollKeepsPlaces(s, told);
  }

  lemma {:induction false} RunKeepsPlaces(listener: int, run: seq<State>, steps: seq<Step>, n: nat)
    requires IsRun(listener, run, steps) && n <= |steps|
    ensures PlacesOk(run[n])
  {
    hide PlacesOk;
    if n == 0 {
      InitialPlaces(run[0], listener);
    } else {
      RunKeepsPlaces(listener, run, steps, n - 1);
      assert Follows(run[n - 1], steps[n - 1], run[n]);
      StepKeepsPlaces(run[n - 1], steps[n - 1]);
    }
  }

  // ---------------------------------------------------------------------------
  // What it means for runs
  // ---------------------------------------------------------------------------

  /** In every reachable state each spawned frame is in exactly one place, and nothing else is anywhere. */
  lemma EveryFrameInOnePlace(listener: int, run: seq<State>, steps: seq<Step>, n: nat, h: Handle)
    requires IsRun(listener, run, steps) && n <= |steps|
    ensures Occurrences(run[n].sched, h) == Count(h in run[n].frames)
  {
    RunKeepsPlaces(listener, run, steps, n);
    ExactlyOnePlace(run[n].sched, h);
  }

  /** A live frame and its own descriptor. */
  predicate IsOwner(s: Sched, h: Handle, fd: int) {
    s.Alive(h) && h in s.fds && s.fds[h] == fd
  }

  /** In every reachable state a waiter entry is for an open descriptor, by the live frame that owns it. */
  lemma NoWaiterOnClosedDescriptor(listener: int, run: seq<State>, steps: seq<Step>, n: nat, fd: int)
    requires IsRun(listener, run, steps) && n <= |steps|
    requires fd in run[n].sched.readers || fd in run[n].sched.writers
    ensures fd in run[n].sched.open
    ensures fd in run[n].sched.readers ==> IsOwner(run[n].sched, run[n].sched.readers[fd], fd)
    ensures fd in run[n].sched.writers ==> IsOwner(run[n].sched, run[n].sched.writers[fd], fd)
  {
    RunKeepsPlaces(listener, run, steps, n);
    WaiterOwns(run[n].sched, fd);
  }

  /** Entries present before and after are the same entries. */
  ghost predicate NoneOverwritten(before: Waiters, after: Waiters) {
    forall fd :: fd in before && fd in after ==> after[fd] == before[fd]
  }

  /** No step of any run replaces a waiter entry. */
  lemma NoWaiterOverwritten(listener: int, run: seq<State>, steps: seq<Step>, n: nat)
    requires IsRun(listener, run, steps) && n < |steps|
    ensures NoneOverwritten(run[n].sched.readers, run[n + 1].sched.readers)
    ensures NoneOverwritten(run[n].sched.writers, run[n + 1].sched.writers)
  {
    RunKeepsPlaces(listener, run, steps, n);
    assert Follows(run[n], steps[n], run[n + 1]);
    hide PlacesOk, Apply, Enabled, NoneOverwritten, Initial;
    StepOverwritesNone(run[n], steps[n]);
  }

  lemma StepOverwritesNone(s: State, step: Step)
    requires PlacesOk(s) && Enabled(s, step)
    ensures NoneOverwritten(s.sched.readers, Apply(s, step).sched.readers)
    ensures NoneOverwritten(s.sched.writers, Apply(s, step).sched.writers)
  {
    hide SchedOk, WakeAll, PlacesOk, Execute, Find;
    match step
    case Poll(told) => PollTakesOnly(s.sched, told);
    case Process(h) => ParkingFindsNobody(s, h);
    case SendSome(h, _) => ParkingFindsNobody(s, h);
    case AwaitClients => ParkingFindsNobody(s, ACCEPTOR);
    case _ =>
  }

  lemma ParkingFindsNobody(s: State, h: Handle)
    requires PlacesOk(s) && s.sched.IsAt(h, Running) && h in s.sched.fds
    ensures s.sched.fds[h] !in s.sched.readers && s.sched.fds[h] !in s.sched.writers
  {
    NobodyElseWaits(s.sched, h);
  }

  lemma PollTakesOnly(s: Sched, told: seq<PollFd>)
    ensures NoneOverwritten(s.readers, WakeAll(s, told).readers)
    ensures NoneOverwritten(s.writers, WakeAll(s, told).writers)
  {
    WakeUpIsExact(s.readers, s.writers, told);
    hide WakeUp;
  }

  lemma PollDestroysNobody(s: Sched, told: seq<PollFd>, h: Handle)
    requires SchedOk(s)
    ensures s.IsAt(h, Destroyed) <==> WakeAll(s, told).IsAt(h, Destroyed)
  {
    var wake := WakeUp(s.readers, s.writers, told);
    WakeUpIsExact(s.readers, s.writers, told);
    WokenPlaces(s, ReadableFds(told), WritableFds(told), wake);
    hide WokenBy, WakeUp, WaitersOk, ReadyOk, OwnDescriptors, DescriptorsOk, OneRuns, ReadableFds, WritableFds;
    assert h in wake.handles ==> s.places[h].AtRead? || s.places[h].AtWrite?;
  }

  lemma ResumeDestroysNobody(s: Sched, h: Handle)
    requires ReadyOk(s) && s.ready != []
    ensures s.IsAt(h, Destroyed) <==> Dequeue(s).IsAt(h, Destroyed)
  {
    assert s.ready[0] in s.ready;
    assert s.IsAt(s.ready[0], InReady);
  }

  lemma SpawnDestroysNobody(s: State, result: AcceptResult, h: Handle)
    requires FramesOk(s)
    ensures s.sched.IsAt(h, Destroyed) <==> DoAccept(s, result).sched.IsAt(h, Destroyed)
  {
    SpawnKeepsFrames(s, 0);
  }

  lemma StepDestroysOnce(s: State, step: Step, h: Handle)
    requires PlacesOk(s) && Enabled(s, step)
    ensures s.sched.IsAt(h, Destroyed) ==> Apply(s, step).sched.IsAt(h, Destroyed)
    ensures Apply(s, step).sched.IsAt(h, Destroyed) ==> s.sched.IsAt(h, Destroyed) || s.sched.IsAt(h, Running)
  {
    hide WakeAll, Dequeue, DoAccept, WaitersOk, OwnDescriptors, DescriptorsOk, OneRuns, ReadyOk, FramesOk, Execute, Find;
    match step
    case Poll(told) => PollDestroysNobody(s.sched, told, h);
    case Resume => ResumeDestroysNobody(s.sched, h);
    case AcceptOne(result) => SpawnDestroysNobody(s, result, h);
    case _ =>
  }

  /** A frame is destroyed at most once: only the running frame is, and no step of any run brings a destroyed one back. */
  lemma DestroyedOnce(listener: int, run: seq<State>, steps: seq<Step>, n: nat, h: Handle)
    requires IsRun(listener, run, steps) && n < |steps|
    ensures run[n].sched.IsAt(h, Destroyed) ==> run[n + 1].sched.IsAt(h, Destroyed)
    ensures run[n + 1].sched.IsAt(h, Destroyed) ==> run[n].sched.IsAt(h, Destroyed) || run[n].sched.IsAt(h, Running)
  {
    RunKeepsPlaces(listener, run, steps, n);
    assert Follows(run[n], steps[n], run[n + 1]);
    hide PlacesOk, Apply, Enabled, Initial;
    StepDestroysOnce(run[n], steps[n], h);
  }

  lemma {:induction false} DestroyedForGood(listener: int, run: seq<State>, steps: seq<Step>, i: nat, n: nat, h: Handle)
    requires IsRun(listener, run, steps) && i <= n <= |steps|
    requires run[i].sched.IsAt(h, Destroyed)
    ensures run[n].sched.IsAt(h, Destroyed)
    decreases n - i
  {
    if i < n {
      RunKeepsPlaces(listener, run, steps, i);
      assert Follows(run[i], steps[i], run[i + 1]);
      hide PlacesOk, Apply;
      StepDestroysOnce(run[i], steps[i], h);
      DestroyedForGood(listener, run, steps, i + 1, n, h);
    }
  }

  /** The acceptor lives, so when nothing is ready it waits. */
  lemma SomebodyWaits(s: State)
    requires PlacesOk(s) && s.sched.Idle() && s.sched.ready == []
    ensures s.sched.readers != map[] || s.sched.writers != map[]
  {
    assert !s.sched.IsAt(ACCEPTOR, Running) && !s.sched.IsAt(ACCEPTOR, InReady);
    assert s.sched.places[ACCEPTOR].AtRead? || s.sched.places[ACCEPTOR].AtWrite?;
  }

  /** While the server runs some coroutine always waits, so the loop never returns for lack of work. */
  lemma LoopNeverRunsOut(listener: int, run: seq<State>, steps: seq<Step>, n: nat)
    requires IsRun(listener, run, steps) && n <= |steps|
    requires run[n].sched.Idle() && run[n].sched.ready == []
    ensures run[n].sched.readers != map[] || run[n].sched.writers != map[]
  {
    RunKeepsPlaces(listener, run, steps, n);
    SomebodyWaits(run[n]);
  }

  lemma ReportWakesSomebody(s: State, told: seq<PollFd>, i: nat)
    requires Enabled(s, Poll(told)) && i < |told| && told[i].revents != {}
    ensures WakeAll(s.sched, told).ready != []
  {
    hide WakeUp, Sched.Idle;
    var asked :| IsPollSet(s.sched.readers, s.sched.writers, asked) && IsReport(asked, told);
    PollMakesProgress(s.sched.readers, s.sched.writers, asked, told, i);
  }

  /** In every run a poll that reports anything makes a frame ready, and each woken frame exactly once. */
  lemma PollWakesSomebody(listener: int, run: seq<State>, steps: seq<Step>, n: nat, i: nat)
    requires IsRun(listener, run, steps) && n < |steps| && steps[n].Poll?
    requires i < |steps[n].told| && steps[n].told[i].revents != {}
    ensures run[n + 1].sched.ready != []
    ensures ReadyOk(run[n + 1].sched)
  {
    hide ReadyOk, WaitersOk, OwnDescriptors, DescriptorsOk, OneRuns, FramesOk, Initial, WakeAll, Enabled;
    RunKeepsPlaces(listener, run, steps, n + 1);
    assert Follows(run[n], steps[n], run[n + 1]);
    ReportWakesSomebody(run[n], steps[n].told, i);
  }
}
