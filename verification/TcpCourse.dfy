/** Every run of the server is a course of the event loop: the server's steps refine `EventLoop`. */
module TcpCourse {
  import opened Dispatch
  import opened EventLoop
  import opened Scheduling
  import opened TextProtocol
  import opened TcpServer
  import opened TcpPlaces

  /** The loop's own containers in a server state. */
  function QueuesOf(s: Sched): Queues {
    Queues(s.ready, s.readers, s.writers, false)
  }

  /** The loop is in the middle of resuming the first ready frame of `q`, which spawned these so far. */
  ghost predicate Mid(s: Sched, q: Queues, spawned: seq<Handle>) {
    && q.ready != [] && !q.stopping
    && s.IsAt(q.ready[0], Running)
    && QueuesOf(s) == Queues(q.ready[1..] + spawned, q.readers, q.writers, false)
  }

  lemma Extended(from: Queues, script: seq<Happening>, q: Queues, what: Happening, q': Queues)
    requires Leads(from, script, q) && Happens(q, what, q')
    ensures Leads(from, script + [what], q')
  {
    hide Leads, Happens;
    var longer := script + [what];
    assert longer[..|script|] == script && longer[..|script| + 1] == longer;
    LeadsFurther(from, longer, |script|, q, q');
  }

  /** What a step of the running frame does to the scheduler. */
  lemma RunningMoves(s: State, step: Step, h: Handle)
    requires PlacesOk(s) && Enabled(s, step) && !step.Resume? && !step.Poll? && s.sched.IsAt(h, Running)
    ensures h in s.sched.fds && |s.frames| !in s.sched.places
    ensures YieldOf(s, step).Yields? ==> SpawnedBy(s, step) == []
    ensures var before, after, fd := s.sched, Apply(s, step).sched, s.sched.fds[h];
            match YieldOf(s, step)
            case GoesOn =>
              if SpawnedBy(s, step) == [] then after == before
              else step.AcceptOne? && step.result.NewConnection? && SpawnedBy(s, step) == [|s.frames|]
                   && after == Spawn(before, |s.frames|, step.result.fd)
            case Yields(OnRead(on)) => on == fd && after == ParkRead(before, h, fd)
            case Yields(OnWrite(on)) => on == fd && after == ParkWrite(before, h, fd)
            case Yields(Completes) => after == Finish(before, h, fd)
  {
    hide Execute, Find, ParseRequest, ReadyOk, WaitersOk, OwnDescriptors, DescriptorsOk, Finish, ParkRead, ParkWrite, Spawn;
    SpawnKeepsFrames(s, 0);
  }

  /** Waiting or ending finishes the activation. */
  lemma ActivationEnds(s: Sched, s': Sched, q: Queues, spawned: seq<Handle>, await: Await)
    requires Mid(s, q, spawned) && OneRuns(s)
    requires var h := q.ready[0];
             match await
             case OnRead(fd) => s' == ParkRead(s, h, fd)
             case OnWrite(fd) => s' == ParkWrite(s, h, fd)
             case Completes => exists fd :: s' == Finish(s, h, fd)
    ensures s'.Idle() && QueuesOf(s') == AfterResume(q, Effect(spawned, false, await))
  {
    assert forall x :: s'.IsAt(x, Running) ==> s.IsAt(x, Running) && x != q.ready[0];
  }

  lemma ActivationSpawns(s: Sched, q: Queues, spawned: seq<Handle>, h: Handle, fd: int)
    requires Mid(s, q, spawned) && h !in s.places
    ensures Mid(Spawn(s, h, fd), q, spawned + [h]) && !Spawn(s, h, fd).Idle()
  {
    assert Spawn(s, h, fd).IsAt(q.ready[0], Running);
  }

  // ---------------------------------------------------------------------------
  // The course of a run
  // ---------------------------------------------------------------------------

  /** Whether a step of the running frame gives control back, and how. */
  datatype Yield = GoesOn | Yields(await: Await)

  ghost function YieldOf(s: State, step: Step): Yield
    requires Enabled(s, step)
  {
    match step
    case Receive(_, got) => if got.EndOfFile? || got.RecvError? then Yields(Completes) else GoesOn
    case Process(h) => if '\n' in s.frames[h].inbound then GoesOn else Yields(OnRead(s.sched.fds[h]))
    case SendSome(h, answer) =>
      (match answer
       case Took(n) =>
         if s.frames[h].stage.offset + n == |s.frames[h].stage.reply| && s.frames[h].stage.quits
         then Yields(Completes) else GoesOn
       case SendRetry => GoesOn
       case SendWouldBlock => Yields(OnWrite(s.sched.fds[h]))
       case SendError => Yields(Completes))
    case AwaitClients => Yields(OnRead(s.sched.fds[ACCEPTOR]))
    case _ => GoesOn
  }

  /** The frames a step spawns. */
  function SpawnedBy(s: State, step: Step): seq<Handle> {
    if step.AcceptOne? && step.result.NewConnection? && step.result.nonBlocking then [|s.frames|] else []
  }

  /** The frames spawned since the last resume, in order. */
  function SpawnedSince(run: seq<State>, steps: seq<Step>, n: nat): seq<Handle>
    requires n <= |steps| < |run|
  {
    if n == 0 || steps[n - 1].Resume? then []
    else SpawnedSince(run, steps, n - 1) + SpawnedBy(run[n - 1], steps[n - 1])
  }

  /** What a report says of each descriptor. */
  function ReportOf(told: seq<PollFd>): map<int, set<Event>> {
    if told == [] then map[]
    else
      var last := told[|told| - 1];
      ReportOf(told[..|told| - 1])[last.fd := last.revents]
  }

  /**
   The happenings of the first `n` steps: one resumption for each activation that ended, with the
   frames it spawned and the way it gave control back, and one report for each poll().
   */
  ghost function CourseOf(run: seq<State>, steps: seq<Step>, n: nat): seq<Happening>
    requires n <= |steps| && |run| == |steps| + 1
    requires forall i :: 0 <= i < |steps| ==> Follows(run[i], steps[i], run[i + 1])
  {
    if n == 0 then []
    else
      var s, step := run[n - 1], steps[n - 1];
      assert Follows(s, step, run[n]);
      CourseOf(run, steps, n - 1)
      + (if step.Poll? then [PollReports(ReportOf(step.told))]
         else match YieldOf(s, step)
           case GoesOn => []
           case Yields(await) => [Resumes(Effect(SpawnedSince(run, steps, n), false, await))])
  }

  /** The loop when control was last with it: now, if no frame runs, or at the last resume. */
  ghost function AtRest(run: seq<State>, steps: seq<Step>, n: nat): Queues
    requires n <= |steps| < |run|
  {
    if run[n].sched.Idle() then QueuesOf(run[n].sched)
    else if n == 0 then QueuesOf(run[0].sched)
    else if steps[n - 1].Resume? then QueuesOf(run[n - 1].sched)
    else AtRest(run, steps, n - 1)
  }

  /** A step of the running frame goes on with its activation or ends it, as it says. */
  lemma ActivationStep(s: State, step: Step, q: Queues, spawned: seq<Handle>)
    requires PlacesOk(s) && Enabled(s, step) && !step.Resume? && !step.Poll? && Mid(s.sched, q, spawned)
    ensures var s', more := Apply(s, step).sched, spawned + SpawnedBy(s, step);
            match YieldOf(s, step)
            case GoesOn => Mid(s', q, more) && !s'.Idle()
            case Yields(await) => s'.Idle() && QueuesOf(s') == AfterResume(q, Effect(more, false, await))
  {
    var h := q.ready[0];
    RunningMoves(s, step, h);
    hide Apply, Enabled, FramesOk, ReadyOk, WaitersOk, OwnDescriptors, DescriptorsOk, AfterResume, YieldOf;
    var before, after, fd := s.sched, Apply(s, step).sched, s.sched.fds[h];
    match YieldOf(s, step)
    case Yields(await) =>
      assert spawned + [] == spawned;
      ActivationEnds(before, after, q, spawned, await);
    case GoesOn =>
      if SpawnedBy(s, step) == [] {
        assert spawned + [] == spawned;
      } else {
        ActivationSpawns(before, q, spawned, |s.frames|, step.result.fd);
      }
  }

  lemma {:induction false} ReportHolds(told: seq<PollFd>)
    requires forall i, j :: 0 <= i < j < |told| ==> told[i].fd != told[j].fd
    ensures forall i :: 0 <= i < |told| ==> told[i].fd in ReportOf(told) && ReportOf(told)[told[i].fd] == told[i].revents
  {
    if told != [] {
      ReportHolds(told[..|told| - 1]);
    }
  }

  /** A report within the rules is one the loop's environment can make. */
  lemma ReportFills(readers: Waiters, writers: Waiters, asked: seq<PollFd>, told: seq<PollFd>)
    requires IsPollSet(readers, writers, asked) && IsReport(asked, told)
    ensures Filled(asked, ReportOf(told)) == told
  {
    assert forall i :: 0 <= i < |told| ==> told[i].fd == asked[i].fd;
    var revents := ReportOf(told);
    ReportHolds(told);
    forall i | 0 <= i < |told|
      ensures Filled(asked, revents)[i] == told[i]
    {
      assert told[i].revents * (asked[i].events + {Err, Hup, Nval}) == told[i].revents;
    }
  }

  /** A poll step of the server is this report in the loop. */
  lemma PollIsReport(s: State, told: seq<PollFd>)
    requires PlacesOk(s) && Enabled(s, Poll(told))
    ensures Happens(QueuesOf(s.sched), PollReports(ReportOf(told)), QueuesOf(WakeAll(s.sched, told)))
    ensures WakeAll(s.sched, told).Idle()
  {
    var asked :| IsPollSet(s.sched.readers, s.sched.writers, asked) && IsReport(asked, told);
    ReportFills(s.sched.readers, s.sched.writers, asked, told);
    var what := PollReports(ReportOf(told));
    SomebodyWaits(s);
    WakeStaysIdle(s.sched, told);
    hide WakeUp, SchedOk, FramesOk, IsPollSet, IsReport, ReportOf;
    ReportHappens(QueuesOf(s.sched), what, asked, QueuesOf(WakeAll(s.sched, told)));
  }

  lemma WakeStaysIdle(s: Sched, told: seq<PollFd>)
    requires s.Idle()
    ensures WakeAll(s, told).Idle()
  {
    hide WakeUp;
    assert forall h :: WakeAll(s, told).IsAt(h, Running) ==> s.IsAt(h, Running);
  }

  lemma ResumeBegins(s: Sched)
    requires SchedOk(s) && s.Idle() && s.ready != []
    ensures Mid(Dequeue(s), QueuesOf(s), []) && !Dequeue(s).Idle()
  {
    DequeueKeeps(s);
    hide SchedOk;
    assert s.ready[1..] + [] == s.ready[1..];
  }

  lemma NotIdleWhileRunning(s: State, step: Step)
    requires Enabled(s, step) && !step.Resume? && !step.Poll?
    ensures !s.sched.Idle()
  {
  }

  lemma MidResumes(s: Sched, q: Queues, spawned: seq<Handle>, what: Happening, q': Queues)
    requires Mid(s, q, spawned) && what.Resumes? && q' == AfterResume(q, what.effect)
    ensures Happens(q, what, q')
  {
  }

  /** What the loop's containers are after `n` steps, by the course so far. */
  ghost predicate InCourse(run: seq<State>, steps: seq<Step>, n: nat)
    requires n <= |steps| && |run| == |steps| + 1
    requires forall i :: 0 <= i < |steps| ==> Follows(run[i], steps[i], run[i + 1])
  {
    && Leads(QueuesOf(run[0].sched), CourseOf(run, steps, n), AtRest(run, steps, n))
    && (!run[n].sched.Idle() ==> Mid(run[n].sched, AtRest(run, steps, n), SpawnedSince(run, steps, n)))
  }

  lemma ActivationInCourse(run: seq<State>, steps: seq<Step>, n: nat)
    requires 0 < n <= |steps| && |run| == |steps| + 1
    requires forall i :: 0 <= i < |steps| ==> Follows(run[i], steps[i], run[i + 1])
    requires PlacesOk(run[n - 1]) && InCourse(run, steps, n - 1)
    requires !steps[n - 1].Resume? && !steps[n - 1].Poll?
    ensures InCourse(run, steps, n)
  {
    hide Leads, PlacesOk, Mid, AfterResume, Happens, Apply, Enabled, YieldOf;
    var s, step := run[n - 1], steps[n - 1];
    var q, spawned := AtRest(run, steps, n - 1), SpawnedSince(run, steps, n - 1);
    assert Follows(s, step, run[n]);
    NotIdleWhileRunning(s, step);
    ActivationStep(s, step, q, spawned);
    if YieldOf(s, step).Yields? {
      var what := Resumes(Effect(SpawnedSince(run, steps, n), false, YieldOf(s, step).await));
      MidResumes(s.sched, q, spawned, what, AtRest(run, steps, n));
      Extended(QueuesOf(run[0].sched), CourseOf(run, steps, n - 1), q, what, AtRest(run, steps, n));
    } else {
      assert CourseOf(run, steps, n) == CourseOf(run, steps, n - 1);
    }
  }

  lemma {:induction false} RunInCourse(listener: int, run: seq<State>, steps: seq<Step>, n: nat)
    requires IsRun(listener, run, steps) && n <= |steps|
    ensures InCourse(run, steps, n)
  {
    hide Leads, PlacesOk, Mid, Happens, Apply, Enabled, YieldOf;
    if n == 0 {
      LeadsNowhere(QueuesOf(run[0].sched));
      assert run[0].sched.Idle();
    } else {
      RunInCourse(listener, run, steps, n - 1);
      RunKeepsPlaces(listener, run, steps, n - 1);
      var s, step := run[n - 1], steps[n - 1];
      assert Follows(s, step, run[n]);
      if step.Resume? {
        StepResumes(s, run[n]);
        assert CourseOf(run, steps, n) == CourseOf(run, steps, n - 1);
      } else if step.Poll? {
        StepPolls(s, step.told, run[n]);
        PollIsReport(s, step.told);
        Extended(QueuesOf(run[0].sched), CourseOf(run, steps, n - 1), QueuesOf(s.sched),
                 PollReports(ReportOf(step.told)), QueuesOf(run[n].sched));
      } else {
        ActivationInCourse(run, steps, n);
      }
    }
  }

  lemma StepResumes(s: State, s': State)
    requires PlacesOk(s) && Follows(s, Resume, s')
    ensures s.sched.Idle() && !s'.sched.Idle() && Mid(s'.sched, QueuesOf(s.sched), [])
    ensures YieldOf(s, Resume) == GoesOn
  {
    ResumeBegins(s.sched);
  }

  lemma StepPolls(s: State, told: seq<PollFd>, s': State)
    requires PlacesOk(s) && Follows(s, Poll(told), s')
    ensures s.sched.Idle() && s'.sched.Idle() && s'.sched == WakeAll(s.sched, told)
  {
    WakeStaysIdle(s.sched, told);
  }

  /**
   In every run of the server, whenever no frame runs, the loop's queue and waiter maps are what
   the run's own course - its activations with what they spawned and awaited, and its poll
   reports, in order - leads the loop object to.
   */
  lemma ServerRunsTheLoop(listener: int, run: seq<State>, steps: seq<Step>, n: nat)
    requires IsRun(listener, run, steps) && n <= |steps| && run[n].sched.Idle()
    ensures Leads(QueuesOf(run[0].sched), CourseOf(run, steps, n), QueuesOf(run[n].sched))
  {
    RunInCourse(listener, run, steps, n);
    hide Leads, CourseOf;
  }
}
