/** The coroutine scheduler: a FIFO of ready handles and two waiter maps keyed by descriptor. */
module EventLoop {

  /** A coroutine frame, by name. */
  type Handle = nat

  datatype Event = In | Out | Err | Hup | Nval

  datatype PollFd = PollFd(fd: int, events: set<Event>, revents: set<Event>) {
    /** Error conditions count as readiness both ways. */
    predicate Readable() { revents * {In, Err, Hup, Nval} != {} }

    predicate Writable() { revents * {Out, Err, Hup, Nval} != {} }
  }

  type Waiters = map<int, Handle>

  /** What a descriptor is polled for. */
  function Wanted(readers: Waiters, writers: Waiters, fd: int): set<Event> {
    (if fd in readers then {In} else {}) + (if fd in writers then {Out} else {})
  }

  /** The poll set lists each waiting descriptor once, with exactly the union of the wanted events. */
  ghost predicate IsPollSet(readers: Waiters, writers: Waiters, pfds: seq<PollFd>) {
    && (forall i, j :: 0 <= i < j < |pfds| ==> pfds[i].fd != pfds[j].fd)
    && (forall i :: 0 <= i < |pfds| ==>
          && pfds[i].fd in readers.Keys + writers.Keys
          && pfds[i].events == Wanted(readers, writers, pfds[i].fd)
          && pfds[i].revents == {})
    && (forall fd :: fd in readers.Keys + writers.Keys ==> exists i :: 0 <= i < |pfds| && pfds[i].fd == fd)
  }

  /** What poll() may fill in: requested events and error conditions. */
  ghost predicate IsReport(asked: seq<PollFd>, told: seq<PollFd>) {
    && |asked| == |told|
    && forall i :: 0 <= i < |asked| ==>
         && told[i] == asked[i].(revents := told[i].revents)
         && told[i].revents <= asked[i].events + {Err, Hup, Nval}
  }

  // ---------------------------------------------------------------------------
  // Waking
  // ---------------------------------------------------------------------------

  datatype Waiter = ReaderOf(fd: int) | WriterOf(fd: int)

  /** The waiters taken out so far, their handles, and the maps that remain. */
  datatype Wake = Wake(woken: seq<Waiter>, handles: seq<Handle>, readers: Waiters, writers: Waiters)

  function WakeReader(w: Wake, pfd: PollFd): Wake {
    if pfd.Readable() && pfd.fd in w.readers
    then Wake(w.woken + [ReaderOf(pfd.fd)], w.handles + [w.readers[pfd.fd]], w.readers - {pfd.fd}, w.writers)
    else w
  }

  function WakeWriter(w: Wake, pfd: PollFd): Wake {
    if pfd.Writable() && pfd.fd in w.writers
    then Wake(w.woken + [WriterOf(pfd.fd)], w.handles + [w.writers[pfd.fd]], w.readers, w.writers - {pfd.fd})
    else w
  }

  /** Going through a poll report in order. */
  function WakeUp(readers: Waiters, writers: Waiters, pfds: seq<PollFd>): Wake {
    if pfds == [] then Wake([], [], readers, writers)
    else
      var last := pfds[|pfds| - 1];
      WakeWriter(WakeReader(WakeUp(readers, writers, pfds[..|pfds| - 1]), last), last)
  }

  /** The descriptors a report makes readable, and writable. */
  function ReadableFds(pfds: seq<PollFd>): set<int> {
    set pfd | pfd in pfds && pfd.Readable() :: pfd.fd
  }

  function WritableFds(pfds: seq<PollFd>): set<int> {
    set pfd | pfd in pfds && pfd.Writable() :: pfd.fd
  }

  predicate Registered(readers: Waiters, writers: Waiters, w: Waiter) {
    if w.ReaderOf? then w.fd in readers else w.fd in writers
  }

  function HandleOf(readers: Waiters, writers: Waiters, w: Waiter): Handle
    requires Registered(readers, writers, w)
  {
    if w.ReaderOf? then readers[w.fd] else writers[w.fd]
  }

  predicate IsReady(r: set<int>, w: set<int>, waiter: Waiter) {
    if waiter.ReaderOf? then waiter.fd in r else waiter.fd in w
  }

  /** Exactly the registered waiters whose descriptor is ready were taken, each once. */
  ghost predicate WokenBy(readers: Waiters, writers: Waiters, r: set<int>, w: set<int>, wake: Wake) {
    && wake.readers == readers - r
    && wake.writers == writers - w
    && |wake.handles| == |wake.woken|
    && (forall i, j :: 0 <= i < j < |wake.woken| ==> wake.woken[i] != wake.woken[j])
    && (forall x :: x in wake.woken <==> Registered(readers, writers, x) && IsReady(r, w, x))
    && (forall i :: 0 <= i < |wake.woken| ==> wake.woken[i] in wake.woken
                                              && wake.handles[i] == HandleOf(readers, writers, wake.woken[i]))
  }

  function Added(s: set<int>, fd: int, yes: bool): set<int> {
    if yes then s + {fd} else s
  }

  lemma WakeReaderStep(readers: Waiters, writers: Waiters, r: set<int>, w: set<int>, wake: Wake, pfd: PollFd)
    requires WokenBy(readers, writers, r, w, wake)
    ensures WokenBy(readers, writers, Added(r, pfd.fd, pfd.Readable()), w, WakeReader(wake, pfd))
  {
    if pfd.Readable() {
      assert pfd.fd !in wake.readers ==> readers - (r + {pfd.fd}) == readers - r;
      assert readers - (r + {pfd.fd}) == (readers - r) - {pfd.fd};
    }
  }

  lemma WakeWriterStep(readers: Waiters, writers: Waiters, r: set<int>, w: set<int>, wake: Wake, pfd: PollFd)
    requires WokenBy(readers, writers, r, w, wake)
    ensures WokenBy(readers, writers, r, Added(w, pfd.fd, pfd.Writable()), WakeWriter(wake, pfd))
  {
    if pfd.Writable() {
      assert pfd.fd !in wake.writers ==> writers - (w + {pfd.fd}) == writers - w;
      assert writers - (w + {pfd.fd}) == (writers - w) - {pfd.fd};
    }
  }

  lemma ReadyFdsGrow(before: seq<PollFd>, pfd: PollFd)
    ensures ReadableFds(before + [pfd]) == Added(ReadableFds(before), pfd.fd, pfd.Readable())
    ensures WritableFds(before + [pfd]) == Added(WritableFds(before), pfd.fd, pfd.Writable())
  {
    assert forall x :: x in before + [pfd] <==> x in before || x == pfd;
  }

  /**
   Every waiter whose descriptor is reported ready is taken out of its map and handed on exactly
   once; every other waiter stays where it was.
   */
  lemma {:induction false} WakeUpIsExact(readers: Waiters, writers: Waiters, pfds: seq<PollFd>)
    ensures WokenBy(readers, writers, ReadableFds(pfds), WritableFds(pfds), WakeUp(readers, writers, pfds))
  {
    hide WokenBy, WakeReader, WakeWriter, ReadableFds, WritableFds, Added;
    if pfds == [] {
      NothingReported(readers, writers);
    } else {
      var before := pfds[..|pfds| - 1];
      var pfd := pfds[|pfds| - 1];
      WakeUpIsExact(readers, writers, before);
      var w0 := WakeUp(readers, writers, before);
      var r, w := ReadableFds(before), WritableFds(before);
      WakeReaderStep(readers, writers, r, w, w0, pfd);
      WakeWriterStep(readers, writers, Added(r, pfd.fd, pfd.Readable()), w, WakeReader(w0, pfd), pfd);
      assert pfds == before + [pfd];
      ReadyFdsGrow(before, pfd);
    }
  }

  lemma NothingReported(readers: Waiters, writers: Waiters)
    ensures WokenBy(readers, writers, ReadableFds([]), WritableFds([]), WakeUp(readers, writers, []))
  {
    assert readers - {} == readers && writers - {} == writers;
  }

  /** Poll progress: a report with any nonzero `revents` makes at least one coroutine ready. */
  lemma PollMakesProgress(readers: Waiters, writers: Waiters, asked: seq<PollFd>, told: seq<PollFd>, i: nat)
    requires IsPollSet(readers, writers, asked) && IsReport(asked, told)
    requires i < |told| && told[i].revents != {}
    ensures |WakeUp(readers, writers, told).handles| > 0
  {
    hide WakeUp;
    var wake := WakeUp(readers, writers, told);
    WakeUpIsExact(readers, writers, told);
    var pfd := told[i];
    WantedOrError(readers, writers, pfd);
    if pfd.Readable() && pfd.fd in readers {
      assert pfd.fd in ReadableFds(told);
      assert ReaderOf(pfd.fd) in wake.woken;
    } else {
      assert pfd.fd in WritableFds(told);
      assert WriterOf(pfd.fd) in wake.woken;
    }
  }

  /** Any event poll() may report for a listed descriptor is readiness for a waiter registered on it. */
  lemma WantedOrError(readers: Waiters, writers: Waiters, pfd: PollFd)
    requires pfd.fd in readers.Keys + writers.Keys
    requires pfd.revents != {} && pfd.revents <= Wanted(readers, writers, pfd.fd) + {Err, Hup, Nval}
    ensures (pfd.Readable() && pfd.fd in readers) || (pfd.Writable() && pfd.fd in writers)
  {
    var e :| e in pfd.revents;
    if e == In || (e != Out && pfd.fd in readers) {
      assert e in pfd.revents * {In, Err, Hup, Nval};
    } else {
      assert e in pfd.revents * {Out, Err, Hup, Nval};
    }
  }

  lemma OnlyReport(asked: seq<PollFd>, told: seq<PollFd>, readers: Waiters, writers: Waiters, i: nat)
    requires IsPollSet(readers, writers, asked) && IsReport(asked, told) && i < |told|
    ensures told[i].fd in ReadableFds(told) <==> told[i].Readable()
    ensures told[i].fd in WritableFds(told) <==> told[i].Writable()
  {
    forall j | 0 <= j < |told| && told[j].fd == told[i].fd
      ensures j == i
    {
      assert asked[j].fd == asked[i].fd;
    }
    assert told[i] in told;
  }

  /**
   Which event wakes whom: the coroutine waiting to read a descriptor stops waiting exactly on
   input or a failure, the one waiting to write exactly on room for output or a failure.
   */
  lemma EventsDecideWaking(readers: Waiters, writers: Waiters, asked: seq<PollFd>, told: seq<PollFd>, i: nat)
    requires IsPollSet(readers, writers, asked) && IsReport(asked, told) && i < |told|
    ensures var fd, events, wake := told[i].fd, told[i].revents, WakeUp(readers, writers, told);
            var failed := Err in events || Hup in events || Nval in events;
            && (fd in readers ==> (fd !in wake.readers <==> In in events || failed))
            && (fd in writers ==> (fd !in wake.writers <==> Out in events || failed))
  {
    hide IsPollSet, IsReport, ReadableFds, WritableFds, WakeUp;
    WakeUpIsExact(readers, writers, told);
    OnlyReport(asked, told, readers, writers, i);
    var events := told[i].revents;
    assert told[i].Readable() <==> In in events || Err in events || Hup in events || Nval in events by {
      assert forall e :: e in events * {In, Err, Hup, Nval} ==> e in events;
      if In in events || Err in events || Hup in events || Nval in events {
        var e :| e in events && e in {In, Err, Hup, Nval};
        assert e in events * {In, Err, Hup, Nval};
      }
    }
    assert told[i].Writable() <==> Out in events || Err in events || Hup in events || Nval in events by {
      if Out in events || Err in events || Hup in events || Nval in events {
        var e :| e in events && e in {Out, Err, Hup, Nval};
        assert e in events * {Out, Err, Hup, Nval};
      }
    }
  }

  // ---------------------------------------------------------------------------
  // The loop itself
  // ---------------------------------------------------------------------------

  /** How a resumed coroutine gives control back. */
  datatype Await = OnRead(fd: int) | OnWrite(fd: int) | Completes

  /** What a resumed coroutine does: tasks it spawns, whether it asks to stop, how it ends. */
  datatype Effect = Effect(spawned: seq<Handle>, stops: bool, await: Await)

  /** What the environment does next: a resumed coroutine acts, or poll() returns. */
  datatype Happening =
    | Resumes(effect: Effect)
    | PollReports(revents: map<int, set<Event>>)
    | PollInterrupted
    | PollFails

  datatype RunResult = Returned | Threw | StillRunning

  /** What the loop object holds. */
  datatype Queues = Queues(ready: seq<Handle>, readers: Waiters, writers: Waiters, stopping: bool)

  /** The first ready coroutine is resumed and gives control back with this effect. */
  function AfterResume(q: Queues, effect: Effect): Queues
    requires q.ready != []
  {
    var h := q.ready[0];
    Queues(q.ready[1..] + effect.spawned,
           if effect.await.OnRead? then q.readers[effect.await.fd := h] else q.readers,
           if effect.await.OnWrite? then q.writers[effect.await.fd := h] else q.writers,
           q.stopping || effect.stops)
  }

  /** Nothing is ready, nobody asked to stop, and somebody waits. */
  predicate Sleeps(q: Queues) {
    q.ready == [] && !q.stopping && (q.readers != map[] || q.writers != map[])
  }

  /** What one happening does to the loop: ready coroutines go first, in order, and only then does it poll. */
  ghost predicate Happens(q: Queues, what: Happening, q': Queues) {
    match what
    case Resumes(effect) => q.ready != [] && q' == AfterResume(q, effect)
    case PollReports(revents) =>
      && Sleeps(q)
      && exists asked :: IsPollSet(q.readers, q.writers, asked)
                         && q' == AfterReport(q, Filled(asked, revents))
    case _ => Sleeps(q) && q' == q
  }

  /** The waiters a report wakes go to the end of the ready queue. */
  function AfterReport(q: Queues, told: seq<PollFd>): Queues {
    var wake := WakeUp(q.readers, q.writers, told);
    q.(ready := q.ready + wake.handles, readers := wake.readers, writers := wake.writers)
  }

  ghost predicate IsCourse(path: seq<Queues>, script: seq<Happening>) {
    && |path| == |script| + 1
    && forall i :: 0 <= i < |script| ==> Happens(path[i], script[i], path[i + 1])
  }

  /** These happenings, in this order, lead from `q` to `q'`. */
  ghost predicate Leads(q: Queues, script: seq<Happening>, q': Queues) {
    exists path :: IsCourse(path, script) && path[0] == q && path[|script|] == q'
  }

  lemma LeadsNowhere(q: Queues)
    ensures Leads(q, [], q)
  {
    assert IsCourse([q], []);
  }

  lemma LeadsFurther(q: Queues, script: seq<Happening>, n: nat, mid: Queues, q': Queues)
    requires n < |script| && Leads(q, script[..n], mid) && Happens(mid, script[n], q')
    ensures Leads(q, script[..n + 1], q')
  {
    hide Happens;
    var path :| IsCourse(path, script[..n]) && path[0] == q && path[n] == mid;
    var longer := path + [q'];
    assert forall i :: 0 <= i < n ==> Happens(path[i], script[..n][i], path[i + 1]);
    assert IsCourse(longer, script[..n + 1]);
  }

  /** The next happening is of the kind the loop waits for. */
  predicate Fits(q: Queues, what: Happening) {
    what.Resumes? <==> q.ready != []
  }

  class Loop {
    var ready: seq<Handle>
    var readWaiters: Waiters
    var writeWaiters: Waiters
    var stopping: bool

    constructor ()
      ensures ready == [] && readWaiters == map[] && writeWaiters == map[] && !stopping
    {
      ready, readWaiters, writeWaiters, stopping := [], map[], map[], false;
    }

    method Schedule(handle: Handle)
      modifies this`ready
      ensures ready == old(ready) + [handle]
    {
      ready := ready + [handle];
    }

    method Stop()
      modifies this`stopping
      ensures stopping
    {
      stopping := true;
    }

    method WaitRead(fd: int, handle: Handle)
      modifies this`readWaiters
      ensures readWaiters == old(readWaiters)[fd := handle]
    {
      readWaiters := readWaiters[fd := handle];
    }

    method WaitWrite(fd: int, handle: Handle)
      modifies this`writeWaiters
      ensures writeWaiters == old(writeWaiters)[fd := handle]
    {
      writeWaiters := writeWaiters[fd := handle];
    }

    /** First pass: every descriptor waiting for readability, in no particular order. */
    method ListReaders() returns (pfds: seq<PollFd>)
      ensures ListsExactly(readWaiters, writeWaiters, readWaiters.Keys, pfds)
    {
      hide ListsExactly;
      pfds := [];
      NoneListed(readWaiters, writeWaiters);
      var left: set<int> := readWaiters.Keys;
      ghost var done: set<int> := {};
      while left != {}
        invariant left + done == readWaiters.Keys && left !! done
        invariant ListsExactly(readWaiters, writeWaiters, done, pfds)
        decreases left
      {
        Inhabited(left);
        var fd: int :| fd in left;
        ListOneMore(readWaiters, writeWaiters, done, pfds, fd);
        left, done := left - {fd}, done + {fd};
        var events := {In};
        if fd in writeWaiters {
          events := events + {Out};
        }
        assert events == Wanted(readWaiters, writeWaiters, fd);
        pfds := pfds + [PollFd(fd, events, {})];
      }
      assert done == readWaiters.Keys;
    }

    /** Second pass: the write-only descriptors that were not already included. */
    method ListWriters(listed: seq<PollFd>) returns (pfds: seq<PollFd>)
      requires ListsExactly(readWaiters, writeWaiters, readWaiters.Keys, listed)
      ensures ListsExactly(readWaiters, writeWaiters, readWaiters.Keys + writeWaiters.Keys, pfds)
    {
      hide ListsExactly;
      pfds := listed;
      var left: set<int> := writeWaiters.Keys;
      ghost var done: set<int> := readWaiters.Keys;
      while left != {}
        invariant left <= writeWaiters.Keys && readWaiters.Keys <= done
        invariant left + done == readWaiters.Keys + writeWaiters.Keys
        invariant left * done <= readWaiters.Keys
        invariant ListsExactly(readWaiters, writeWaiters, done, pfds)
        decreases left
      {
        Inhabited(left);
        var fd: int :| fd in left;
        left := left - {fd};
        if fd in readWaiters {
          continue;
        }
        ListOneMore(readWaiters, writeWaiters, done, pfds, fd);
        done := done + {fd};
        assert Wanted(readWaiters, writeWaiters, fd) == {Out};
        pfds := pfds + [PollFd(fd, {Out}, {})];
      }
      assert done == readWaiters.Keys + writeWaiters.Keys;
    }

    /** The poll set, rebuilt from the current waiter maps. */
    method BuildPollSet() returns (pfds: seq<PollFd>)
      ensures IsPollSet(readWaiters, writeWaiters, pfds)
      ensures pfds == [] <==> readWaiters == map[] && writeWaiters == map[]
    {
      var listed := ListReaders();
      pfds := ListWriters(listed);
      ListedIsPollSet(readWaiters, writeWaiters, pfds);
    }

    /** Collect the waiters a poll report wakes, take them out of the maps, then queue them. */
    method Dispatch(pfds: seq<PollFd>)
      modifies this`ready, this`readWaiters, this`writeWaiters
      ensures var wake := WakeUp(old(readWaiters), old(writeWaiters), pfds);
              && ready == old(ready) + wake.handles
              && readWaiters == wake.readers
              && writeWaiters == wake.writers
    {
      var readyHandles: seq<Handle> := [];
      for i := 0 to |pfds|
        invariant ready == old(ready)
        invariant var wake := WakeUp(old(readWaiters), old(writeWaiters), pfds[..i]);
                  readyHandles == wake.handles && readWaiters == wake.readers && writeWaiters == wake.writers
      {
        assert pfds[..i + 1][..i] == pfds[..i];
        var pfd := pfds[i];
        if pfd.revents == {} {
          continue;
        }
        if pfd.Readable() && pfd.fd in readWaiters {
          readyHandles := readyHandles + [readWaiters[pfd.fd]];
          readWaiters := readWaiters - {pfd.fd};
        }
        if pfd.Writable() && pfd.fd in writeWaiters {
          readyHandles := readyHandles + [writeWaiters[pfd.fd]];
          writeWaiters := writeWaiters - {pfd.fd};
        }
      }
      assert pfds[..|pfds|] == pfds;
      for j := 0 to |readyHandles|
        invariant ready == old(ready) + readyHandles[..j]
        invariant readWaiters == WakeUp(old(readWaiters), old(writeWaiters), pfds).readers
        invariant writeWaiters == WakeUp(old(readWaiters), old(writeWaiters), pfds).writers
      {
        Schedule(readyHandles[j]);
      }
    }

    /** A resumed coroutine runs until it suspends or completes. */
    method Resume(handle: Handle, effect: Effect)
      modifies this
      ensures ready == old(ready) + effect.spawned
      ensures stopping == (old(stopping) || effect.stops)
      ensures readWaiters ==
              if effect.await.OnRead? then old(readWaiters)[effect.await.fd := handle] else old(readWaiters)
      ensures writeWaiters ==
              if effect.await.OnWrite? then old(writeWaiters)[effect.await.fd := handle] else old(writeWaiters)
    {
      for i := 0 to |effect.spawned|
        invariant ready == old(ready) + effect.spawned[..i]
        invariant readWaiters == old(readWaiters) && writeWaiters == old(writeWaiters) && stopping == old(stopping)
      {
        Schedule(effect.spawned[i]);
      }
      if effect.stops {
        Stop();
      }
      if effect.await.OnRead? {
        WaitRead(effect.await.fd, handle);
      } else if effect.await.OnWrite? {
        WaitWrite(effect.await.fd, handle);
      }
    }

    ghost function View(): Queues
      reads this
    {
      Queues(ready, readWaiters, writeWaiters, stopping)
    }

    /**
     `run`, against any finite course of events: it goes through exactly the happenings it meets,
     and when it returns normally nothing is ready and a stop was requested or nobody waits.
     */
    method Run(script: seq<Happening>) returns (result: RunResult, met: nat)
      modifies this
      ensures met <= |script| && Leads(old(View()), script[..met], View())
      ensures result.StillRunning? ==> met == |script| || !Fits(View(), script[met])
      ensures old(!stopping) && result.Returned? ==>
                ready == [] && (stopping || (readWaiters == map[] && writeWaiters == map[]))
      ensures old(stopping) ==> result.Returned? && met == 0
      ensures result.Threw? <==> met > 0 && script[met - 1].PollFails?
    {
      hide Leads, Happens;
      met := 0;
      LeadsNowhere(View());
      while !stopping
        invariant met <= |script| && Leads(old(View()), script[..met], View())
        invariant old(!stopping) ==> !stopping
        invariant old(stopping) ==> stopping && met == 0
        invariant met > 0 ==> !script[met - 1].PollFails?
        decreases |script| - met
      {
        while ready != []
          invariant met <= |script| && Leads(old(View()), script[..met], View())
          invariant met > 0 ==> !script[met - 1].PollFails?
          decreases |script| - met
        {
          if met == |script| || !script[met].Resumes? {
            return StillRunning, met;
          }
          ghost var before := View();
          var handle := ready[0];
          ready := ready[1..];
          Resume(handle, script[met].effect);
          ResumeHappens(before, script[met], View());
          LeadsFurther(old(View()), script, met, before, View());
          met := met + 1;
        }
        if stopping {
          break;
        }
        if readWaiters == map[] && writeWaiters == map[] {
          break;
        }
        var pfds := BuildPollSet();
        if met == |script| || script[met].Resumes? {
          return StillRunning, met;
        }
        var happening := script[met];
        ghost var before := View();
        if happening.PollReports? {
          Dispatch(Filled(pfds, happening.revents));
          ReportHappens(before, happening, pfds, View());
        } else {
          InterruptHappens(before, happening);
        }
        LeadsFurther(old(View()), script, met, before, View());
        met := met + 1;
        if happening.PollFails? {
          return Threw, met;
        }
      }
      result := Returned;
    }
  }

  lemma ResumeHappens(q: Queues, what: Happening, q': Queues)
    requires q.ready != [] && what.Resumes? && q' == AfterResume(q, what.effect)
    ensures Happens(q, what, q')
  {
  }

  lemma ReportHappens(q: Queues, what: Happening, asked: seq<PollFd>, q': Queues)
    requires Sleeps(q) && what.PollReports? && IsPollSet(q.readers, q.writers, asked)
    requires q' == AfterReport(q, Filled(asked, what.revents))
    ensures Happens(q, what, q')
  {
  }

  lemma InterruptHappens(q: Queues, what: Happening)
    requires Sleeps(q) && (what.PollInterrupted? || what.PollFails?)
    ensures Happens(q, what, q)
  {
  }

  /** The report poll() leaves in the poll set. */
  function Filled(asked: seq<PollFd>, revents: map<int, set<Event>>): (told: seq<PollFd>)
    ensures IsReport(asked, told)
  {
    seq(|asked|, i requires 0 <= i < |asked| =>
      var pfd := asked[i];
      pfd.(revents := if pfd.fd in revents then revents[pfd.fd] * (pfd.events + {Err, Hup, Nval}) else {}))
  }

  /** These descriptors and no others are listed, each once, with the wanted events. */
  ghost predicate ListsExactly(readers: Waiters, writers: Waiters, fds: set<int>, pfds: seq<PollFd>) {
    && (forall i, j :: 0 <= i < j < |pfds| ==> pfds[i].fd != pfds[j].fd)
    && (forall i :: 0 <= i < |pfds| ==>
          && pfds[i].fd in fds
          && pfds[i].events == Wanted(readers, writers, pfds[i].fd)
          && pfds[i].revents == {})
    && (forall fd :: fd in fds ==> exists i :: 0 <= i < |pfds| && pfds[i].fd == fd)
  }

  lemma Inhabited(s: set<int>)
    ensures s == {} || exists x :: x in s
  {
    if forall x :: x !in s {
      assert s == {};
    }
  }

  lemma NoneListed(readers: Waiters, writers: Waiters)
    ensures ListsExactly(readers, writers, {}, [])
  {
  }

  lemma ListOneMore(readers: Waiters, writers: Waiters, fds: set<int>, pfds: seq<PollFd>, fd: int)
    requires ListsExactly(readers, writers, fds, pfds) && fd !in fds
    ensures ListsExactly(readers, writers, fds + {fd}, pfds + [PollFd(fd, Wanted(readers, writers, fd), {})])
  {
    var more := pfds + [PollFd(fd, Wanted(readers, writers, fd), {})];
    forall x | x in fds + {fd}
      ensures exists i :: 0 <= i < |more| && more[i].fd == x
    {
      if x == fd {
        assert more[|pfds|].fd == x;
      } else {
        var i :| 0 <= i < |pfds| && pfds[i].fd == x;
        assert more[i].fd == x;
      }
    }
  }

  lemma ListedIsPollSet(readers: Waiters, writers: Waiters, pfds: seq<PollFd>)
    requires ListsExactly(readers, writers, readers.Keys + writers.Keys, pfds)
    ensures IsPollSet(readers, writers, pfds)
    ensures pfds == [] <==> readers == map[] && writers == map[]
  {
    if pfds == [] {
      assert readers.Keys + writers.Keys == {} by {
        assert forall fd :: fd !in readers.Keys + writers.Keys;
      }
    } else {
      assert pfds[0].fd in readers.Keys + writers.Keys;
    }
  }
}
