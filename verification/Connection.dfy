/**
 The connection coroutine as it is written: loops over recv(), over buffered lines and over
 send(). One activation, from a resume to the next suspension, is a run of the server's steps.
 */
module Connection {
  import opened TextProtocol
  import opened Dispatch
  import opened EventLoop
  import opened Scheduling
  import opened TcpServer

  ghost predicate IsPath(path: seq<State>, steps: seq<Step>) {
    && |path| == |steps| + 1
    && forall i :: 0 <= i < |steps| ==> Follows(path[i], steps[i], path[i + 1])
  }

  /** These steps lead from one state of the server to another. */
  ghost predicate Reaches(s: State, steps: seq<Step>, s': State) {
    exists path :: IsPath(path, steps) && path[0] == s && path[|steps|] == s'
  }

  lemma ReachesAfter(s: State, step: Step, more: seq<Step>, s': State)
    requires Enabled(s, step) && Reaches(Apply(s, step), more, s')
    ensures Reaches(s, [step] + more, s')
  {
    hide Apply, Enabled;
    var rest :| IsPath(rest, more) && rest[0] == Apply(s, step) && rest[|more|] == s';
    var path := [s] + rest;
    forall i | 0 <= i < |more| + 1
      ensures Follows(path[i], ([step] + more)[i], path[i + 1])
    {
      if i > 0 {
        assert Follows(rest[i - 1], more[i - 1], rest[i]);
      }
    }
    assert IsPath(path, [step] + more);
  }

  // ---------------------------------------------------------------------------
  // One activation, given the kernel's answers
  // ---------------------------------------------------------------------------

  /** What the coming recv() and send() calls will answer. */
  datatype Kernel = Kernel(received: seq<RecvResult>, answers: seq<SendAnswer>)

  predicate KernelOk(k: Kernel) {
    && (forall i :: 0 <= i < |k.received| && k.received[i].Bytes? ==> 0 < |k.received[i].data| <= BUFFER_SIZE)
    && (forall i :: 0 <= i < |k.answers| && k.answers[i].Took? ==> k.answers[i].n > 0)
  }

  /** send() takes no more than it was offered. */
  function Clamped(answer: SendAnswer, offered: nat): SendAnswer {
    if answer.Took? && answer.n > offered then Took(offered) else answer
  }

  /** The coroutine's next step and the answers then left; none when it does not run or no answer is left. */
  datatype Move = Pause | Make(step: Step, rest: Kernel)

  ghost function NextMove(s: State, h: Handle, k: Kernel): (move: Move)
    requires KernelOk(k)
    ensures move.Make? ==> Enabled(s, move.step) && KernelOk(move.rest)
  {
    if !RunsClient(s, h) then Pause
    else match s.frames[h].stage
      case Receiving =>
        if k.received == [] then Pause else Make(Receive(h, k.received[0]), k.(received := k.received[1..]))
      case Processing => Make(Process(h), k)
      case Sending(reply, offset, _) =>
        if offset >= |reply| || k.answers == [] then Pause
        else Make(SendSome(h, Clamped(k.answers[0], |reply| - offset)), k.(answers := k.answers[1..]))
  }

  /** One when the frame is about to look for a line, which takes no answer. */
  ghost function Looking(s: State, h: Handle): nat {
    if RunsClient(s, h) && s.frames[h].stage.Processing? then 1 else 0
  }

  lemma LooksOnce(s: State, h: Handle)
    requires RunsClient(s, h) && s.frames[h].stage.Processing?
    ensures Looking(DoProcess(s, h), h) == 0
  {
    hide Execute, ParseRequest, Find;
  }

  /** The steps of an activation: each takes the kernel's next answer to its call. */
  ghost function StepsOf(s: State, h: Handle, k: Kernel): seq<Step>
    requires KernelOk(k)
    decreases |k.received| + |k.answers|, Looking(s, h)
  {
    match NextMove(s, h, k)
    case Pause => []
    case Make(step, rest) =>
      assert step.Process? ==> Looking(Apply(s, step), h) == 0 by {
        if step.Process? { LooksOnce(s, h); }
      }
      [step] + StepsOf(Apply(s, step), h, rest)
  }

  /** The state an activation leaves. */
  ghost function EndOf(s: State, h: Handle, k: Kernel): State
    requires KernelOk(k)
    decreases |k.received| + |k.answers|, Looking(s, h)
  {
    match NextMove(s, h, k)
    case Pause => s
    case Make(step, rest) =>
      assert step.Process? ==> Looking(Apply(s, step), h) == 0 by {
        if step.Process? { LooksOnce(s, h); }
      }
      EndOf(Apply(s, step), h, rest)
  }

  /** An activation is a run of the server's steps. */
  lemma {:induction false} ActivationReaches(s: State, h: Handle, k: Kernel)
    requires KernelOk(k)
    ensures Reaches(s, StepsOf(s, h, k), EndOf(s, h, k))
    decreases |k.received| + |k.answers|, Looking(s, h)
  {
    hide Reaches, Enabled, NextMove;
    match NextMove(s, h, k)
    case Pause => NoSteps(s);
    case Make(step, rest) =>
      MoveShrinks(s, h, k);
      ActivationReaches(Apply(s, step), h, rest);
      ReachesAfter(s, step, StepsOf(Apply(s, step), h, rest), EndOf(s, h, k));
  }

  lemma MoveShrinks(s: State, h: Handle, k: Kernel)
    requires KernelOk(k) && NextMove(s, h, k).Make?
    ensures var move := NextMove(s, h, k);
            |move.rest.received| + |move.rest.answers| < |k.received| + |k.answers|
            || (move.rest == k && Looking(Apply(s, move.step), h) < Looking(s, h))
  {
    if NextMove(s, h, k).step.Process? {
      LooksOnce(s, h);
    }
  }

  lemma NoSteps(s: State)
    ensures Reaches(s, [], s)
  {
    assert IsPath([s], []);
  }

  lemma ReceiveMove(s: State, h: Handle, k: Kernel)
    requires KernelOk(k) && RunsClient(s, h) && s.frames[h].stage.Receiving? && k.received != []
    ensures EndOf(s, h, k) == EndOf(DoReceive(s, h, k.received[0]), h, k.(received := k.received[1..]))
  {
    hide DoReceive;
  }

  lemma ProcessMove(s: State, h: Handle, k: Kernel)
    requires KernelOk(k) && RunsClient(s, h) && s.frames[h].stage.Processing?
    ensures EndOf(s, h, k) == EndOf(DoProcess(s, h), h, k)
  {
    hide DoProcess;
  }

  lemma SendMove(s: State, h: Handle, k: Kernel)
    requires KernelOk(k) && RunsClient(s, h) && s.frames[h].stage.Sending? && k.answers != []
    requires s.frames[h].stage.offset < |s.frames[h].stage.reply|
    ensures var stage := s.frames[h].stage;
            EndOf(s, h, k)
            == EndOf(DoSend(s, h, Clamped(k.answers[0], |stage.reply| - stage.offset)), h,
                     k.(answers := k.answers[1..]))
  {
    hide DoSend;
  }

  lemma Pauses(s: State, h: Handle, k: Kernel)
    requires KernelOk(k)
    requires !RunsClient(s, h) || (s.frames[h].stage.Receiving? && k.received == [])
             || (s.frames[h].stage.Sending? && k.answers == [])
    ensures EndOf(s, h, k) == s
  {
  }

  /** What accepting `n` bytes does to the running connection. */
  lemma BytesTaken(s: State, h: Handle, n: nat)
    requires RunsClient(s, h) && s.frames[h].stage.Sending?
    requires s.frames[h].stage.offset + n <= |s.frames[h].stage.reply|
    ensures var c, s' := SentMore(s.frames[h], n), DoSendBytes(s, h, n);
            && s'.store == s.store && h in s'.frames && h in s'.sched.fds
            && (c.stage.offset < |c.stage.reply| ==> s'.frames[h] == c && RunsClient(s', h))
            && (c.stage.offset == |c.stage.reply| && c.stage.quits ==> s'.frames[h] == c && EndsAt(s', h, Finished))
            && (c.stage.offset == |c.stage.reply| && !c.stage.quits ==>
                  s'.frames[h] == c.(stage := Processing) && RunsClient(s', h))
  {
  }

  lemma RepliesAreNotEmpty(r: Response)
    ensures Serialize(r) != ""
  {
  }

  /** How an activation ends; unfinished when the kernel's answers run out first. */
  datatype Ending = AwaitsRead | AwaitsWrite | Finished | Unfinished

  ghost predicate EndsAt(s: State, h: Handle, ending: Ending) {
    && h in s.sched.fds
    && match ending
       case AwaitsRead => s.sched.IsAt(h, AtRead(s.sched.fds[h]))
       case AwaitsWrite => s.sched.IsAt(h, AtWrite(s.sched.fds[h]))
       case Finished => s.sched.IsAt(h, Destroyed) && s.sched.fds[h] !in s.sched.open
       case Unfinished => s.sched.IsAt(h, Running)
  }

  class Client {
    const handle: Handle
    var inbound: string
    var stage: Stage

    constructor (handle: Handle)
      ensures this.handle == handle && inbound == "" && stage == Receiving
    {
      this.handle := handle;
      inbound, stage := "", Receiving;
    }

    /** This object and the store are what server state `s` says. */
    ghost predicate Mirrors(s: State, shared: Shared)
      reads this, shared
    {
      && handle in s.frames && s.frames[handle].Client?
      && s.frames[handle].inbound == inbound && s.frames[handle].stage == stage
      && s.store == shared.contents
    }

    /** Take everything readable. `sends` is what later send() calls will answer. */
    method Drain(shared: Shared, received: seq<RecvResult>, ghost s: State, ghost sends: seq<SendAnswer>)
      returns (ending: Ending, ghost next: nat, ghost s': State)
      requires KernelOk(Kernel(received, sends))
      requires Mirrors(s, shared) && RunsClient(s, handle) && stage.Receiving?
      modifies this
      ensures Mirrors(s', shared) && EndsAt(s', handle, ending) && s'.frames[handle].sent == s.frames[handle].sent
      ensures next <= |received| && KernelOk(Kernel(received[next..], sends))
      ensures EndOf(s, handle, Kernel(received, sends)) == EndOf(s', handle, Kernel(received[next..], sends))
      ensures ending.Unfinished? || ending.Finished?
      ensures ending.Unfinished? ==>
                RunsClient(s', handle) && (stage.Processing? || (stage.Receiving? && next == |received|))
    {
      hide EndOf, StepsOf;
      s', next := s, 0;
      assert received[0..] == received;
      for i := 0 to |received|
        invariant Mirrors(s', shared) && RunsClient(s', handle) && next == i
        invariant stage.Receiving? && s'.frames[handle].sent == s.frames[handle].sent
        invariant EndOf(s, handle, Kernel(received, sends)) == EndOf(s', handle, Kernel(received[i..], sends))
      {
        assert received[i..][1..] == received[i + 1..];
        ReceiveMove(s', handle, Kernel(received[i..], sends));
        s', next := DoReceive(s', handle, received[i]), i + 1;
        match received[i] {
          case Bytes(data) => inbound := inbound + data;
          case EndOfFile => return Finished, next, s';
          case RecvRetry =>
          case RecvWouldBlock =>
            stage := Processing;
            return Unfinished, next, s';
          case RecvError => return Finished, next, s';
        }
      }
      ending := Unfinished;
    }

    /** Send what remains of the current reply, from the kernel's answer `from` on. */
    method SendReply(shared: Shared, answers: seq<SendAnswer>, from: nat, ghost s: State, ghost more: seq<RecvResult>)
      returns (ending: Ending, next: nat, wire: string, ghost s': State)
      requires from <= |answers| && KernelOk(Kernel(more, answers))
      requires Mirrors(s, shared) && RunsClient(s, handle) && stage.Sending? && stage.offset < |stage.reply|
      modifies `stage
      ensures Mirrors(s', shared) && EndsAt(s', handle, ending)
      ensures s'.frames[handle].sent == s.frames[handle].sent + wire
      ensures from <= next <= |answers| && !ending.AwaitsRead?
      ensures EndOf(s, handle, Kernel(more, answers[from..])) == EndOf(s', handle, Kernel(more, answers[next..]))
      ensures ending.Unfinished? ==> RunsClient(s', handle)
      ensures ending.Unfinished? ==>
                stage.Processing? || (next == |answers| && stage.Sending? && stage.offset < |stage.reply|)
    {
      hide EndOf, StepsOf, DoSendBytes;
      s', next, wire := s, from, "";
      while next < |answers|
        invariant Mirrors(s', shared) && RunsClient(s', handle)
        invariant stage.Sending? && stage.offset < |stage.reply| && from <= next <= |answers|
        invariant s'.frames[handle].sent == s.frames[handle].sent + wire
        invariant EndOf(s, handle, Kernel(more, answers[from..])) == EndOf(s', handle, Kernel(more, answers[next..]))
      {
        var answer := Clamped(answers[next], |stage.reply| - stage.offset);
        assert answers[next..][1..] == answers[next + 1..];
        SendMove(s', handle, Kernel(more, answers[next..]));
        next := next + 1;
        if answer.Took? {
          BytesTaken(s', handle, answer.n);
        }
        s' := DoSend(s', handle, answer);
        match answer {
          case Took(n) =>
            var part := stage.reply[stage.offset..stage.offset + n];
            assert s.frames[handle].sent + wire + part == s.frames[handle].sent + (wire + part);
            wire := wire + part;
            stage := stage.(offset := stage.offset + n);
            if stage.offset == |stage.reply| {
              if stage.quits {
                return Finished, next, wire, s';
              }
              stage := Processing;
              return Unfinished, next, wire, s';
            }
          case SendRetry =>
          case SendWouldBlock => return AwaitsWrite, next, wire, s';
          case SendError => return Finished, next, wire, s';
        }
      }
      ending := Unfinished;
    }

    /** Execute and answer every complete line, then wait for more bytes; or go on with a suspended reply. */
    method ProcessLines(shared: Shared, answers: seq<SendAnswer>, ghost s: State, ghost more: seq<RecvResult>)
      returns (ending: Ending, wire: string, ghost s': State)
      requires KernelOk(Kernel(more, answers))
      requires Mirrors(s, shared) && RunsClient(s, handle)
      requires stage.Processing? || (stage.Sending? && stage.offset < |stage.reply|)
      modifies this, shared
      ensures Mirrors(s', shared) && EndsAt(s', handle, ending)
      ensures s' == EndOf(s, handle, Kernel(more, answers))
      ensures s'.frames[handle].sent == s.frames[handle].sent + wire
      ensures ending.AwaitsRead? ==> stage.Receiving? && '\n' !in inbound
    {
      hide EndOf, StepsOf, ParseRequest, Serialize;
      var next := 0;
      s', wire := s, "";
      assert answers[0..] == answers;
      while true
        invariant Mirrors(s', shared) && RunsClient(s', handle) && next <= |answers|
        invariant stage.Processing? || (stage.Sending? && stage.offset < |stage.reply|)
        invariant s'.frames[handle].sent == s.frames[handle].sent + wire
        invariant EndOf(s, handle, Kernel(more, answers)) == EndOf(s', handle, Kernel(more, answers[next..]))
        decreases |inbound|, stage.Sending?
      {
        if stage.Processing? {
          var newline := Find(inbound, '\n');
          ProcessMove(s', handle, Kernel(more, answers[next..]));
          s' := DoProcess(s', handle);
          if newline == |inbound| {
            stage := Receiving;
            Pauses(s', handle, Kernel(more, answers[next..]));
            return AwaitsRead, wire, s';
          }
          var line := inbound[..newline];
          inbound := inbound[newline + 1..];
          var request := ParseRequest(line);
          var response := shared.Handle(request);
          stage := Sending(Serialize(response), 0, request.Quit?);
          RepliesAreNotEmpty(response);
        }
        var part;
        ending, next, part, s' := SendReply(shared, answers, next, s', more);
        wire := wire + part;
        if !ending.Unfinished? || stage.Sending? {
          Pauses(s', handle, Kernel(more, answers[next..]));
          return ending, wire, s';
        }
      }
    }

    /**
     One activation: what the coroutine does from a resume to its next suspension or its end,
     given what the kernel answers. It leaves exactly the state the server's steps leave.
     */
    method Resume(shared: Shared, received: seq<RecvResult>, answers: seq<SendAnswer>, ghost s: State)
      returns (ending: Ending, wire: string, ghost s': State)
      requires KernelOk(Kernel(received, answers))
      requires Mirrors(s, shared) && RunsClient(s, handle)
      requires stage.Receiving? || (stage.Sending? && stage.offset < |stage.reply|)
      modifies this, shared
      ensures Mirrors(s', shared) && EndsAt(s', handle, ending)
      ensures s' == EndOf(s, handle, Kernel(received, answers))
      ensures Reaches(s, StepsOf(s, handle, Kernel(received, answers)), s')
      ensures s'.frames[handle].sent == s.frames[handle].sent + wire
      ensures ending.AwaitsRead? ==> stage.Receiving? && '\n' !in inbound
    {
      hide EndOf, StepsOf, Reaches;
      ActivationReaches(s, handle, Kernel(received, answers));
      wire, s' := "", s;
      ghost var next := 0;
      assert received[0..] == received;
      if stage.Receiving? {
        ending, next, s' := Drain(shared, received, s, answers);
        if ending.Finished? || stage.Receiving? {
          Pauses(s', handle, Kernel(received[next..], answers));
          return ending, wire, s';
        }
      }
      ghost var mid := s';
      ending, wire, s' := ProcessLines(shared, answers, s', received[next..]);
      assert s'.frames[handle].sent == mid.frames[handle].sent + wire;
    }
  }
}
