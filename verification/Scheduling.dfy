/**
 Where coroutine frames are: the ready queue, the two waiter maps, the running frame, and the
 record of which frame is where and owns which descriptor.
 */
module Scheduling {
  import opened EventLoop

  datatype Place = InReady | AtRead(fd: int) | AtWrite(fd: int) | Running | Destroyed

  /**
   The scheduler's own containers, the open descriptors, and for every frame ever spawned its
   descriptor and its place.
   */
  datatype Sched = Sched(
    ready: seq<Handle>,
    readers: Waiters,
    writers: Waiters,
    open: set<int>,
    fds: map<Handle, int>,
    places: map<Handle, Place>)
  {
    predicate IsAt(h: Handle, place: Place) { h in places && places[h] == place }

    predicate Alive(h: Handle) { h in places && places[h] != Destroyed }

    ghost predicate Idle() { forall h :: !IsAt(h, Running) }
  }

  // ---------------------------------------------------------------------------
  // Operations
  // ---------------------------------------------------------------------------

  /** Take the first ready frame and run it. */
  function Dequeue(s: Sched): Sched
    requires s.ready != []
  {
    s.(ready := s.ready[1..], places := s.places[s.ready[0] := Running])
  }

  /** `co_await readable(fd)`: the map entry is overwritten, whatever was there. */
  function ParkRead(s: Sched, h: Handle, fd: int): Sched {
    s.(readers := s.readers[fd := h], places := s.places[h := AtRead(fd)])
  }

  function ParkWrite(s: Sched, h: Handle, fd: int): Sched {
    s.(writers := s.writers[fd := h], places := s.places[h := AtWrite(fd)])
  }

  /** The descriptor is closed, the coroutine returns and the loop destroys its frame. */
  function Finish(s: Sched, h: Handle, fd: int): Sched {
    s.(open := s.open - {fd}, places := s.places[h := Destroyed])
  }

  /** A new frame owning `fd` is queued. */
  function Spawn(s: Sched, h: Handle, fd: int): Sched {
    s.(ready := s.ready + [h], open := s.open + {fd}, fds := s.fds[h := fd], places := s.places[h := InReady])
  }

  /** Handles go from the waiter maps to the ready queue. */
  function WakeAll(s: Sched, told: seq<PollFd>): Sched {
    var wake := WakeUp(s.readers, s.writers, told);
    s.(ready := s.ready + wake.handles,
       readers := wake.readers,
       writers := wake.writers,
       places := map h | h in s.places :: if h in wake.handles then InReady else s.places[h])
  }

  // ---------------------------------------------------------------------------
  // Invariant
  // ---------------------------------------------------------------------------

  ghost predicate ReadyOk(s: Sched) {
    && (forall i, j :: 0 <= i < j < |s.ready| ==> s.ready[i] != s.ready[j])
    && (forall h :: h in s.ready <==> s.IsAt(h, InReady))
  }

  /** The waiter maps and the recorded places say the same, and frames wait on their own descriptors only. */
  ghost predicate WaitersOk(s: Sched) {
    && (forall fd :: fd in s.readers ==> s.IsAt(s.readers[fd], AtRead(fd)))
    && (forall fd :: fd in s.writers ==> s.IsAt(s.writers[fd], AtWrite(fd)))
    && (forall h :: h in s.places && s.places[h].AtRead? ==>
          s.places[h].fd in s.readers && s.readers[s.places[h].fd] == h)
    && (forall h :: h in s.places && s.places[h].AtWrite? ==>
          s.places[h].fd in s.writers && s.writers[s.places[h].fd] == h)
  }

  ghost predicate OwnDescriptors(s: Sched) {
    && s.fds.Keys == s.places.Keys
    && (forall h :: h in s.places && s.places[h].AtRead? ==> s.places[h].fd == s.fds[h])
    && (forall h :: h in s.places && s.places[h].AtWrite? ==> s.places[h].fd == s.fds[h])
  }

  /** Live frames own distinct open descriptors. */
  ghost predicate DescriptorsOk(s: Sched)
    requires s.fds.Keys == s.places.Keys
  {
    && (forall h :: s.Alive(h) ==> s.fds[h] in s.open)
    && (forall h, h' :: s.Alive(h) && s.Alive(h') && s.fds[h] == s.fds[h'] ==> h == h')
  }

  ghost predicate OneRuns(s: Sched) {
    forall h, h' :: s.IsAt(h, Running) && s.IsAt(h', Running) ==> h == h'
  }

  ghost predicate SchedOk(s: Sched) {
    ReadyOk(s) && WaitersOk(s) && OwnDescriptors(s) && DescriptorsOk(s) && OneRuns(s)
  }

  // ---------------------------------------------------------------------------
  // Every operation keeps it
  // ---------------------------------------------------------------------------

  lemma DequeueReady(s: Sched)
    requires ReadyOk(s) && s.ready != []
    ensures ReadyOk(Dequeue(s)) && s.IsAt(s.ready[0], InReady)
  {
    var s' := Dequeue(s);
    var h := s.ready[0];
    assert h in s.ready;
    assert h !in s'.ready;
    assert forall x :: x in s.ready <==> x == h || x in s'.ready;
  }

  lemma DequeueWaiters(s: Sched)
    requires WaitersOk(s) && s.ready != [] && s.IsAt(s.ready[0], InReady)
    ensures WaitersOk(Dequeue(s))
  {
  }

  lemma DequeueDescriptors(s: Sched)
    requires OwnDescriptors(s) && DescriptorsOk(s) && s.ready != [] && s.IsAt(s.ready[0], InReady)
    ensures OwnDescriptors(Dequeue(s)) && DescriptorsOk(Dequeue(s))
  {
    var s' := Dequeue(s);
    assert forall x :: s'.Alive(x) <==> s.Alive(x);
  }

  lemma DequeueKeeps(s: Sched)
    requires SchedOk(s) && s.Idle() && s.ready != []
    ensures SchedOk(Dequeue(s)) && Dequeue(s).IsAt(s.ready[0], Running)
  {
    DequeueReady(s);
    DequeueWaiters(s);
    DequeueDescriptors(s);
    hide ReadyOk, WaitersOk, OwnDescriptors, DescriptorsOk;
    var s' := Dequeue(s);
    assert forall x :: s'.IsAt(x, Running) ==> x == s.ready[0] || s.IsAt(x, Running);
  }

  /** A waiter is a live frame that owns the descriptor. */
  lemma WaiterOwns(s: Sched, fd: int)
    requires SchedOk(s)
    ensures fd in s.readers ==> s.IsAt(s.readers[fd], AtRead(fd)) && s.fds[s.readers[fd]] == fd
    ensures fd in s.writers ==> s.IsAt(s.writers[fd], AtWrite(fd)) && s.fds[s.writers[fd]] == fd
    ensures fd in s.readers || fd in s.writers ==> fd in s.open
  {
    assert fd in s.readers ==> s.Alive(s.readers[fd]);
    assert fd in s.writers ==> s.Alive(s.writers[fd]);
  }

  /** A running frame that parks on its own descriptor finds no waiter there to overwrite. */
  lemma NobodyElseWaits(s: Sched, h: Handle)
    requires SchedOk(s) && s.IsAt(h, Running)
    ensures s.fds[h] !in s.readers && s.fds[h] !in s.writers
  {
    WaiterOwns(s, s.fds[h]);
    assert s.Alive(h);
    assert forall x :: s.Alive(x) && s.fds[x] == s.fds[h] ==> x == h;
  }

  lemma ParkReady(s: Sched, s': Sched, h: Handle, place: Place)
    requires ReadyOk(s) && s.IsAt(h, Running) && place != InReady
    requires s'.ready == s.ready && s'.places == s.places[h := place]
    ensures ReadyOk(s')
  {
    assert forall x :: s'.IsAt(x, InReady) <==> s.IsAt(x, InReady);
  }

  lemma ParkRuns(s: Sched, s': Sched, h: Handle, place: Place)
    requires OneRuns(s) && s.IsAt(h, Running) && place != Running
    requires s'.places == s.places[h := place]
    ensures OneRuns(s') && s'.Idle()
  {
    assert forall x :: s'.IsAt(x, Running) ==> s.IsAt(x, Running) && x != h;
  }

  lemma ParkDescriptors(s: Sched, s': Sched, h: Handle, place: Place)
    requires OwnDescriptors(s) && DescriptorsOk(s) && s.IsAt(h, Running) && place != Destroyed
    requires s'.places == s.places[h := place] && s'.fds == s.fds && s'.open == s.open
    requires place.AtRead? || place.AtWrite? ==> place.fd == s.fds[h]
    ensures OwnDescriptors(s') && DescriptorsOk(s')
  {
    assert forall x :: s'.Alive(x) <==> s.Alive(x);
  }

  lemma ParkReadWaiters(s: Sched, h: Handle, fd: int)
    requires WaitersOk(s) && s.IsAt(h, Running) && fd !in s.readers
    ensures WaitersOk(ParkRead(s, h, fd))
  {
  }

  lemma ParkWriteWaiters(s: Sched, h: Handle, fd: int)
    requires WaitersOk(s) && s.IsAt(h, Running) && fd !in s.writers
    ensures WaitersOk(ParkWrite(s, h, fd))
  {
  }

  lemma ParkReadKeeps(s: Sched, h: Handle)
    requires SchedOk(s) && s.IsAt(h, Running)
    ensures SchedOk(ParkRead(s, h, s.fds[h]))
  {
    var s' := ParkRead(s, h, s.fds[h]);
    NobodyElseWaits(s, h);
    hide ReadyOk, WaitersOk, OwnDescriptors, DescriptorsOk, OneRuns;
    ParkReady(s, s', h, AtRead(s.fds[h]));
    ParkRuns(s, s', h, AtRead(s.fds[h]));
    ParkDescriptors(s, s', h, AtRead(s.fds[h]));
    ParkReadWaiters(s, h, s.fds[h]);
  }

  lemma ParkWriteKeeps(s: Sched, h: Handle)
    requires SchedOk(s) && s.IsAt(h, Running)
    ensures SchedOk(ParkWrite(s, h, s.fds[h]))
  {
    var s' := ParkWrite(s, h, s.fds[h]);
    NobodyElseWaits(s, h);
    hide ReadyOk, WaitersOk, OwnDescriptors, DescriptorsOk, OneRuns;
    ParkReady(s, s', h, AtWrite(s.fds[h]));
    ParkRuns(s, s', h, AtWrite(s.fds[h]));
    ParkDescriptors(s, s', h, AtWrite(s.fds[h]));
    ParkWriteWaiters(s, h, s.fds[h]);
  }

  lemma FinishWaiters(s: Sched, h: Handle, fd: int)
    requires WaitersOk(s) && s.IsAt(h, Running)
    ensures WaitersOk(Finish(s, h, fd))
  {
  }

  lemma FinishDescriptors(s: Sched, h: Handle)
    requires OwnDescriptors(s) && DescriptorsOk(s) && s.IsAt(h, Running)
    ensures OwnDescriptors(Finish(s, h, s.fds[h])) && DescriptorsOk(Finish(s, h, s.fds[h]))
  {
    var s' := Finish(s, h, s.fds[h]);
    assert forall x :: s'.Alive(x) <==> s.Alive(x) && x != h;
  }

  lemma FinishKeeps(s: Sched, h: Handle)
    requires SchedOk(s) && s.IsAt(h, Running)
    ensures SchedOk(Finish(s, h, s.fds[h]))
  {
    var s' := Finish(s, h, s.fds[h]);
    FinishWaiters(s, h, s.fds[h]);
    FinishDescriptors(s, h);
    hide ReadyOk, WaitersOk, OwnDescriptors, DescriptorsOk, OneRuns;
    ParkReady(s, s', h, Destroyed);
    ParkRuns(s, s', h, Destroyed);
  }

  lemma SpawnReady(s: Sched, h: Handle, fd: int)
    requires ReadyOk(s) && h !in s.places
    ensures ReadyOk(Spawn(s, h, fd))
  {
    var s' := Spawn(s, h, fd);
    assert h !in s.ready;
    assert forall x :: x in s'.ready <==> x == h || x in s.ready;
  }

  lemma SpawnWaiters(s: Sched, h: Handle, fd: int)
    requires WaitersOk(s) && h !in s.places
    ensures WaitersOk(Spawn(s, h, fd))
  {
  }

  lemma SpawnDescriptors(s: Sched, h: Handle, fd: int)
    requires OwnDescriptors(s) && DescriptorsOk(s) && h !in s.places && fd !in s.open
    ensures OwnDescriptors(Spawn(s, h, fd)) && DescriptorsOk(Spawn(s, h, fd))
  {
    var s' := Spawn(s, h, fd);
    assert forall x :: s'.Alive(x) <==> s.Alive(x) || x == h;
  }

  lemma SpawnKeeps(s: Sched, h: Handle, fd: int)
    requires SchedOk(s) && h !in s.places && fd !in s.open
    ensures SchedOk(Spawn(s, h, fd))
  {
    SpawnReady(s, h, fd);
    SpawnWaiters(s, h, fd);
    SpawnDescriptors(s, h, fd);
    hide ReadyOk, WaitersOk, OwnDescriptors, DescriptorsOk;
    var s' := Spawn(s, h, fd);
    assert forall x :: s'.IsAt(x, Running) <==> s.IsAt(x, Running);
  }

  function PlaceOf(w: Waiter): Place {
    if w.ReaderOf? then AtRead(w.fd) else AtWrite(w.fd)
  }

  /** The handles a report wakes: each once, each from the waiter entry it was recorded at. */
  ghost predicate WakesFrom(s: Sched, wake: Wake) {
    && |wake.handles| == |wake.woken|
    && (forall i, j :: 0 <= i < j < |wake.handles| ==> wake.handles[i] != wake.handles[j])
    && (forall i :: 0 <= i < |wake.handles| ==> s.IsAt(wake.handles[i], PlaceOf(wake.woken[i])))
    && (forall h :: h in wake.handles <==>
          h in s.places && ((s.places[h].AtRead? && ReaderOf(s.places[h].fd) in wake.woken)
                            || (s.places[h].AtWrite? && WriterOf(s.places[h].fd) in wake.woken)))
  }

  lemma HandlePlace(s: Sched, r: set<int>, w: set<int>, wake: Wake, i: nat)
    requires WaitersOk(s) && WokenBy(s.readers, s.writers, r, w, wake) && i < |wake.handles|
    ensures s.IsAt(wake.handles[i], PlaceOf(wake.woken[i])) && wake.woken[i] in wake.woken
  {
    assert wake.woken[i] in wake.woken;
    assert Registered(s.readers, s.writers, wake.woken[i]);
  }

  lemma WaiterIsHanded(s: Sched, r: set<int>, w: set<int>, wake: Wake, h: Handle)
    requires WaitersOk(s) && WokenBy(s.readers, s.writers, r, w, wake)
    requires h in s.places && ((s.places[h].AtRead? && ReaderOf(s.places[h].fd) in wake.woken)
                               || (s.places[h].AtWrite? && WriterOf(s.places[h].fd) in wake.woken))
    ensures h in wake.handles
  {
    var waiter := if s.places[h].AtRead? then ReaderOf(s.places[h].fd) else WriterOf(s.places[h].fd);
    var i :| 0 <= i < |wake.woken| && wake.woken[i] == waiter;
    assert wake.handles[i] == h;
  }

  lemma WokenPlaces(s: Sched, r: set<int>, w: set<int>, wake: Wake)
    requires WaitersOk(s) && WokenBy(s.readers, s.writers, r, w, wake)
    ensures WakesFrom(s, wake)
  {
    forall i | 0 <= i < |wake.handles|
      ensures s.IsAt(wake.handles[i], PlaceOf(wake.woken[i])) && wake.woken[i] in wake.woken
    {
      HandlePlace(s, r, w, wake, i);
    }
    forall h | h in s.places && ((s.places[h].AtRead? && ReaderOf(s.places[h].fd) in wake.woken)
                                 || (s.places[h].AtWrite? && WriterOf(s.places[h].fd) in wake.woken))
      ensures h in wake.handles
    {
      WaiterIsHanded(s, r, w, wake, h);
    }
    hide WaitersOk;
  }

  lemma WakeReady(s: Sched, told: seq<PollFd>)
    requires ReadyOk(s) && WakesFrom(s, WakeUp(s.readers, s.writers, told))
    ensures ReadyOk(WakeAll(s, told))
  {
    hide WakeUp;
    var wake := WakeUp(s.readers, s.writers, told);
    var s' := WakeAll(s, told);
    assert forall i :: 0 <= i < |wake.handles| ==> wake.handles[i] !in s.ready;
    forall i, j | 0 <= i < j < |s'.ready|
      ensures s'.ready[i] != s'.ready[j]
    {
      if i < |s.ready| && j >= |s.ready| {
        assert s.ready[i] in s.ready;
      }
    }
    forall h
      ensures h in s'.ready <==> s'.IsAt(h, InReady)
    {
      assert h in s'.ready <==> h in s.ready || h in wake.handles;
    }
  }

  lemma WakeWaiters(s: Sched, told: seq<PollFd>)
    requires WaitersOk(s)
    requires WokenBy(s.readers, s.writers, ReadableFds(told), WritableFds(told), WakeUp(s.readers, s.writers, told))
    requires WakesFrom(s, WakeUp(s.readers, s.writers, told))
    ensures WaitersOk(WakeAll(s, told))
  {
    hide WakeUp, ReadableFds, WritableFds;
    var wake := WakeUp(s.readers, s.writers, told);
    var s' := WakeAll(s, told);
    forall fd | fd in wake.readers
      ensures s'.IsAt(wake.readers[fd], AtRead(fd))
    {
      assert s.IsAt(s.readers[fd], AtRead(fd));
      assert ReaderOf(fd) !in wake.woken;
    }
    forall fd | fd in wake.writers
      ensures s'.IsAt(wake.writers[fd], AtWrite(fd))
    {
      assert s.IsAt(s.writers[fd], AtWrite(fd));
      assert WriterOf(fd) !in wake.woken;
    }
  }

  lemma WakeRest(s: Sched, told: seq<PollFd>)
    requires OwnDescriptors(s) && DescriptorsOk(s) && OneRuns(s)
    requires WakesFrom(s, WakeUp(s.readers, s.writers, told))
    ensures OwnDescriptors(WakeAll(s, told)) && DescriptorsOk(WakeAll(s, told)) && OneRuns(WakeAll(s, told))
  {
    hide WakeUp;
    var s' := WakeAll(s, told);
    assert s'.places.Keys == s.places.Keys;
    assert forall x :: s'.Alive(x) <==> s.Alive(x);
    assert forall x :: s'.IsAt(x, Running) <==> s.IsAt(x, Running);
  }

  lemma WakeKeeps(s: Sched, told: seq<PollFd>)
    requires SchedOk(s)
    ensures SchedOk(WakeAll(s, told))
  {
    WakeUpIsExact(s.readers, s.writers, told);
    WokenPlaces(s, ReadableFds(told), WritableFds(told), WakeUp(s.readers, s.writers, told));
    hide WakeUp, WakesFrom, WokenBy, ReadyOk, WaitersOk, OwnDescriptors, DescriptorsOk, OneRuns, WakeAll;
    WakeReady(s, told);
    WakeWaiters(s, told);
    WakeRest(s, told);
  }

  // ---------------------------------------------------------------------------
  // What it means
  // ---------------------------------------------------------------------------

  ghost function Count(yes: bool): nat {
    if yes then 1 else 0
  }

  /** The descriptors at which a waiter map holds a handle. */
  ghost function KeysOf(m: Waiters, h: Handle): (keys: set<int>)
    ensures forall fd :: fd in keys <==> fd in m && m[fd] == h
  {
    set fd | fd in m && m[fd] == h
  }

  /** How often a handle occurs in the scheduler's containers, as the running frame, or as destroyed. */
  ghost function Occurrences(s: Sched, h: Handle): nat {
    multiset(s.ready)[h]
    + |KeysOf(s.readers, h)|
    + |KeysOf(s.writers, h)|
    + Count(s.IsAt(h, Running))
    + Count(s.IsAt(h, Destroyed))
  }

  lemma {:induction false} DistinctOccursOnce(q: seq<Handle>, h: Handle)
    requires forall i, j :: 0 <= i < j < |q| ==> q[i] != q[j]
    ensures multiset(q)[h] == Count(h in q)
  {
    if q != [] {
      var rest := q[..|q| - 1];
      assert q == rest + [q[|q| - 1]];
      DistinctOccursOnce(rest, h);
    }
  }

  lemma SizeOfOne(keys: set<int>, fd: int)
    requires forall x :: x in keys <==> x == fd
    ensures |keys| == 1
  {
    Inhabited(keys - {fd});
    assert keys == {fd} + (keys - {fd});
  }

  lemma SizeOfNone(keys: set<int>)
    requires forall x :: x !in keys
    ensures |keys| == 0
  {
    Inhabited(keys);
  }

  lemma WaiterEntries(s: Sched, h: Handle)
    requires WaitersOk(s)
    ensures |KeysOf(s.readers, h)| == Count(h in s.places && s.places[h].AtRead?)
    ensures |KeysOf(s.writers, h)| == Count(h in s.places && s.places[h].AtWrite?)
  {
    hide KeysOf;
    if h in s.places && s.places[h].AtRead? {
      SizeOfOne(KeysOf(s.readers, h), s.places[h].fd);
    } else {
      SizeOfNone(KeysOf(s.readers, h));
    }
    if h in s.places && s.places[h].AtWrite? {
      SizeOfOne(KeysOf(s.writers, h), s.places[h].fd);
    } else {
      SizeOfNone(KeysOf(s.writers, h));
    }
  }

  /** Every spawned frame is in exactly one place, and a handle never spawned is nowhere. */
  lemma ExactlyOnePlace(s: Sched, h: Handle)
    requires SchedOk(s)
    ensures Occurrences(s, h) == Count(h in s.places)
  {
    hide DescriptorsOk, WaitersOk;
    DistinctOccursOnce(s.ready, h);
    WaiterEntries(s, h);
  }
}
