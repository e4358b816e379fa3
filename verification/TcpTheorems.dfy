/** What the TCP server guarantees in every run. */
module TcpTheorems {
  import opened TextProtocol
  import opened Dispatch
  import opened EventLoop
  import opened LineIo
  import opened Framing
  import opened Scheduling
  import opened TcpServer
  import opened TcpPlaces
  import opened TcpStreams
  import opened TcpReplay

  // ---------------------------------------------------------------------------
  // Replay
  // ---------------------------------------------------------------------------

  /**
   The log only grows: an entry is added when, and only when, a running connection finds a newline
   in its buffer, and it is the bytes before that newline.
   */
  lemma LogGrows(s: State, step: Step)
    requires Enabled(s, step)
    ensures Apply(s, step).log ==
            if step.Process? && '\n' in s.frames[step.h].inbound
            then s.log + [Dispatched(step.h, FirstLineOf(s.frames[step.h].inbound))] else s.log
  {
    hide WakeAll, Execute, ParseRequest, Split;
    if step.Process? && '\n' in s.frames[step.h].inbound {
      var inbound := s.frames[step.h].inbound;
      var n := Find(inbound, '\n');
      FirstLine(inbound[..n], inbound[n + 1..]);
      assert inbound == inbound[..n] + "\n" + inbound[n + 1..];
    }
  }

  /** The first complete line of a buffer. */
  function FirstLineOf(bytes: string): string
    requires '\n' in bytes
  {
    SplitHasLine(bytes);
    Split(bytes).0[0]
  }

  lemma SplitHasLine(bytes: string)
    requires '\n' in bytes
    ensures Split(bytes).0 != []
  {
  }

  /** What every reachable connection has done so far. */
  lemma ReachableClient(listener: int, run: seq<State>, steps: seq<Step>, n: nat, h: Handle)
    requires IsRun(listener, run, steps) && n <= |steps| && IsClient(run[n], h)
    ensures var c := run[n].frames[h];
            && StreamOk(c)
            && c.lines == OwnLines(run[n].log, h) && c.replies == OwnReplies(run[n].log, h)
            && c.received == BytesFor(steps[..n], h)
            && (WaitsToRead(run[n], h) ==> Drained(c))
  {
    hide StreamOk, Drained, OwnLines, OwnReplies, BytesFor, PlacesOk, Initial, Follows;
    RunKeepsServer(listener, run, steps, n);
    RunReceives(listener, run, steps, n, h);
    assert ConnectionOk(run[n], h) && HistoryOk(run[n], h);
  }

  /**
   For every interleaving, the store is the replay of all dispatched requests in dispatch order,
   and what a connection was sent is a prefix of the replies this replay gives to its requests.
   */
  lemma ServerReplaysLog(listener: int, run: seq<State>, steps: seq<Step>, n: nat, h: Handle)
    requires IsRun(listener, run, steps) && n <= |steps|
    ensures run[n].store == StoreAfter(map[], LinesOf(run[n].log))
    ensures IsClient(run[n], h) ==> run[n].frames[h].sent <= Concat(OwnReplies(run[n].log, h))
  {
    hide OwnReplies, Concat, Joined, Quits, PlacesOk, StreamsOk, Initial, Follows, NewlineFree;
    RunKeepsServer(listener, run, steps, n);
    var s := run[n];
    if IsClient(s, h) {
      ReachableClient(listener, run, steps, n, h);
      var c := s.frames[h];
      if c.stage.Sending? {
        assert c.sent <= c.sent + c.stage.reply[c.stage.offset..];
      }
    }
  }

  lemma SplitKeepsLines(lines: seq<string>, tail: string)
    requires NewlineFree(lines)
    ensures lines <= Split(Joined(lines) + tail).0
  {
    SplitOfJoined(lines, tail);
  }

  /**
   However the bytes were cut up: the requests a connection has dispatched are a prefix of the
   complete lines it received, none but the last of them QUIT.
   */
  lemma DispatchedLinesArePrefix(listener: int, run: seq<State>, steps: seq<Step>, n: nat, h: Handle)
    requires IsRun(listener, run, steps) && n <= |steps| && IsClient(run[n], h)
    ensures OwnLines(run[n].log, h) <= Split(BytesFor(steps[..n], h)).0
    ensures var lines := OwnLines(run[n].log, h); lines != [] ==> NoQuit(lines[..|lines| - 1])
  {
    hide Split, Joined, Quits, Concat, OwnLines, OwnReplies, BytesFor, Initial, Follows;
    ReachableClient(listener, run, steps, n, h);
    var c := run[n].frames[h];
    SplitKeepsLines(c.lines, c.inbound);
  }

  /**
   Whenever a connection waits for readability it has dispatched exactly the complete lines
   received so far, sent every reply, and holds what follows the last newline.
   */
  lemma WaitingMeansDrained(listener: int, run: seq<State>, steps: seq<Step>, n: nat, h: Handle)
    requires IsRun(listener, run, steps) && n <= |steps| && IsClient(run[n], h) && WaitsToRead(run[n], h)
    ensures Split(BytesFor(steps[..n], h)) == (OwnLines(run[n].log, h), run[n].frames[h].inbound)
    ensures '\n' !in run[n].frames[h].inbound
    ensures run[n].frames[h].sent == Concat(OwnReplies(run[n].log, h))
    ensures NoQuit(OwnLines(run[n].log, h))
  {
    hide Split, Joined, Quits, Concat, OwnLines, OwnReplies, BytesFor, Initial, Follows;
    ReachableClient(listener, run, steps, n, h);
    SplitIsUnique(run[n].frames[h].lines, run[n].frames[h].inbound);
  }

  // ---------------------------------------------------------------------------
  // Chunk independence
  // ---------------------------------------------------------------------------

  /** A reply depends on the line and the store it met. */
  lemma {:induction false} RepliesFromStoresMet(log: seq<Dispatched>, h: Handle)
    ensures |OwnReplies(log, h)| == |OwnLines(log, h)| == |StoresMet(log, h)|
    ensures forall i :: 0 <= i < |OwnLines(log, h)| ==>
              OwnReplies(log, h)[i] == Execute(StoresMet(log, h)[i], OwnLines(log, h)[i]).1
  {
    hide Execute;
    if log != [] {
      var before := log[..|log| - 1];
      RepliesFromStoresMet(before, h);
      assert LinesOf(log)[..|log| - 1] == LinesOf(before);
    }
  }

  /**
   Two runs, two connections that received the same bytes in whatever pieces and both wait for
   more: given the same store before each request, both dispatched the same requests, sent the
   same bytes and keep the same rest.
   */
  lemma ChunkIndependence(listener: int, run: seq<State>, steps: seq<Step>, h: Handle,
                          listener': int, run': seq<State>, steps': seq<Step>, h': Handle)
    requires IsRun(listener, run, steps) && IsRun(listener', run', steps')
    requires var s, s' := run[|steps|], run'[|steps'|];
             && IsClient(s, h) && WaitsToRead(s, h) && IsClient(s', h') && WaitsToRead(s', h')
             && StoresMet(s.log, h) == StoresMet(s'.log, h')
    requires BytesFor(steps, h) == BytesFor(steps', h')
    ensures var s, s' := run[|steps|], run'[|steps'|];
            && OwnLines(s.log, h) == OwnLines(s'.log, h')
            && s.frames[h].sent == s'.frames[h'].sent
            && s.frames[h].inbound == s'.frames[h'].inbound
  {
    var s, s' := run[|steps|], run'[|steps'|];
    assert steps[..|steps|] == steps && steps'[..|steps'|] == steps';
    WaitingMeansDrained(listener, run, steps, |steps|, h);
    WaitingMeansDrained(listener', run', steps', |steps'|, h');
    RepliesFromStoresMet(s.log, h);
    RepliesFromStoresMet(s'.log, h');
    assert OwnReplies(s.log, h) == OwnReplies(s'.log, h');
  }

  lemma {:induction false} OnlyOwn(log: seq<Dispatched>, h: Handle)
    requires forall i :: 0 <= i < |log| ==> log[i].who == h
    ensures OwnLines(log, h) == LinesOf(log) && OwnReplies(log, h) == Replies(map[], LinesOf(log))
  {
    hide Execute, OwnLines, OwnReplies, StoreAfter;
    if log == [] {
      NothingOwn(log, h);
      assert LinesOf(log) == [];
    } else {
      var before, last := log[..|log| - 1], log[|log| - 1];
      OnlyOwn(before, h);
      assert log == before + [last];
      LogExtended(before, last, h);
      assert LinesOf(log)[..|log| - 1] == LinesOf(before);
    }
  }

  /** A connection that is alone with the server: the store, too, depends on the received bytes only. */
  lemma LoneClientIsDeterministic(listener: int, run: seq<State>, steps: seq<Step>, n: nat, h: Handle)
    requires IsRun(listener, run, steps) && n <= |steps| && IsClient(run[n], h) && WaitsToRead(run[n], h)
    requires forall i :: 0 <= i < |run[n].log| ==> run[n].log[i].who == h
    ensures var (lines, rest) := Split(BytesFor(steps[..n], h));
            && run[n].store == StoreAfter(map[], lines)
            && run[n].frames[h].sent == Concat(Replies(map[], lines))
            && run[n].frames[h].inbound == rest
  {
    hide Split, Execute;
    WaitingMeansDrained(listener, run, steps, n, h);
    ServerReplaysLog(listener, run, steps, n, h);
    OnlyOwn(run[n].log, h);
  }

  // ---------------------------------------------------------------------------
  // Reply alignment
  // ---------------------------------------------------------------------------

  lemma {:induction false} ReplayIsNewlineFree(lines: seq<string>)
    requires NewlineFree(lines)
    ensures NewlineFreeStore(StoreAfter(map[], lines))
    ensures forall i :: 0 <= i < |lines| ==> IsLine(Replies(map[], lines)[i])
  {
    hide Execute, IsLine, NewlineFreeStore;
    if lines == [] {
      assert NewlineFreeStore(map[]) by { EmptyIsNewlineFree(); }
    } else {
      var before := lines[..|lines| - 1];
      ReplayIsNewlineFree(before);
      ExecuteOneLine(StoreAfter(map[], before), lines[|lines| - 1]);
    }
  }

  lemma EmptyIsNewlineFree()
    ensures NewlineFreeStore(map[])
  {
  }

  lemma {:induction false} OwnRepliesAreLines(log: seq<Dispatched>, h: Handle)
    requires NewlineFree(LinesOf(log))
    ensures forall i :: 0 <= i < |OwnReplies(log, h)| ==> IsLine(OwnReplies(log, h)[i])
  {
    hide Replies, IsLine;
    if log != [] {
      var before := log[..|log| - 1];
      assert NewlineFree(LinesOf(before)) by {
        assert forall i :: 0 <= i < |before| ==> LinesOf(before)[i] == LinesOf(log)[i];
      }
      OwnRepliesAreLines(before, h);
      ReplayIsNewlineFree(LinesOf(log));
    }
  }

  /** Every value the server ever stores is free of newlines, and every reply is exactly one line. */
  lemma StoreIsNewlineFree(listener: int, run: seq<State>, steps: seq<Step>, n: nat, h: Handle)
    requires IsRun(listener, run, steps) && n <= |steps|
    ensures NewlineFreeStore(run[n].store)
    ensures forall i :: 0 <= i < |OwnReplies(run[n].log, h)| ==> IsLine(OwnReplies(run[n].log, h)[i])
  {
    RunKeepsServer(listener, run, steps, n);
    ReplayIsNewlineFree(LinesOf(run[n].log));
    OwnRepliesAreLines(run[n].log, h);
  }

  lemma {:induction false} ConcatOfPrefix(parts: seq<string>, k: nat)
    requires k <= |parts|
    ensures Concat(parts[..k]) <= Concat(parts)
  {
    if k > 0 {
      ConcatOfPrefix(parts[1..], k - 1);
      assert parts[..k][1..] == parts[1..][..k - 1];
    }
  }

  lemma ReadsPrefix(script: seq<Recv>, replies: seq<string>, k: nat)
    requires forall i :: 0 <= i < |replies| ==> IsLine(replies[i])
    requires Healthy(script) && Delivered(script) <= Concat(replies)
    requires k <= |replies| && |Concat(replies[..k])| <= |Delivered(script)|
    ensures forall i :: 0 <= i < k ==> ReadLines(script, 0, k)[i] == Outcome.Returned(true, AsRead(replies[i]))
  {
    hide IsLine, Delivered, Concat, ReadLines, AsRead, Healthy;
    ConcatOfPrefix(replies, k);
    var first := replies[..k];
    assert script[0..] == script;
    assert StartsWith(Delivered(script), Concat(first));
    assert forall i :: 0 <= i < k ==> first[i] == replies[i];
    NthCallReadsNthReply(script, 0, first);
  }

  /**
   Reply alignment end to end: a client whose socket hands on, byte by byte and with any
   interruptions, what the server sent, gets the reply to its n-th request from its n-th
   `read_line`, as soon as the first n replies were delivered.
   */
  lemma NthReadLineIsNthReply(listener: int, run: seq<State>, steps: seq<Step>, n: nat, h: Handle,
                              script: seq<Recv>, k: nat)
    requires IsRun(listener, run, steps) && n <= |steps| && IsClient(run[n], h)
    requires Healthy(script) && Delivered(script) <= run[n].frames[h].sent
    requires k <= |OwnReplies(run[n].log, h)|
    requires |Concat(OwnReplies(run[n].log, h)[..k])| <= |Delivered(script)|
    ensures forall i :: 0 <= i < k ==>
              && IsLine(OwnReplies(run[n].log, h)[i])
              && ReadLines(script, 0, k)[i] == Outcome.Returned(true, AsRead(OwnReplies(run[n].log, h)[i]))
  {
    StoreIsNewlineFree(listener, run, steps, n, h);
    ServerReplaysLog(listener, run, steps, n, h);
    hide *;
    ReadsPrefix(script, OwnReplies(run[n].log, h), k);
  }
}
