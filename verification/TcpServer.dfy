/**
 The TCP server as a transition system: the scheduler, the accepting coroutine, one coroutine
 per connection, and a kernel that answers poll, accept, recv and send any way it may.
 Every system call is one step.  A frame is a handle with the next thing it does.
 */
module TcpServer {
  import opened TextProtocol
  import opened Dispatch
  import opened EventLoop
  import opened Scheduling

  // ---------------------------------------------------------------------------
  // State
  // ---------------------------------------------------------------------------

  /** What a connection coroutine does next. */
  datatype Stage =
    | Receiving
    | Processing
    | Sending(reply: string, offset: nat, quits: bool)

  /**
   What a coroutine frame holds.  Of a client, `received`, `lines`, `replies` and `sent` record
   what went through the connection so far.
   */
  datatype Frame =
    | Acceptor(accepting: bool)
    | Client(inbound: string, stage: Stage,
             received: string, lines: seq<string>, replies: seq<string>, sent: string)

  /** One executed request: whose, and which line. */
  datatype Dispatched = Dispatched(who: Handle, line: string)

  datatype State = State(
    store: KvStore,
    log: seq<Dispatched>,
    frames: map<Handle, Frame>,
    sched: Sched)

  /** The handle of the accepting coroutine. */
  const ACCEPTOR: Handle := 0

  // ---------------------------------------------------------------------------
  // Steps
  // ---------------------------------------------------------------------------

  /** The size of the stack buffer handed to recv(). */
  const BUFFER_SIZE: nat := 4096

  datatype RecvResult = Bytes(data: string) | EndOfFile | RecvRetry | RecvWouldBlock | RecvError

  datatype SendAnswer = Took(n: nat) | SendRetry | SendWouldBlock | SendError

  datatype AcceptResult = NewConnection(fd: int, nonBlocking: bool) | AcceptRetry | AcceptWouldBlock | AcceptError

  datatype Step =
    | Resume
    | Receive(h: Handle, got: RecvResult)
    | Process(h: Handle)
    | SendSome(h: Handle, answer: SendAnswer)
    | AwaitClients
    | AcceptOne(result: AcceptResult)
    | Poll(told: seq<PollFd>)

  /** Frame `h` runs and is a client at this stage. */
  predicate RunsClient(s: State, h: Handle) {
    && s.sched.IsAt(h, Running) && h in s.sched.fds
    && h in s.frames && s.frames[h].Client?
  }

  predicate RunsAcceptor(s: State, accepting: bool) {
    && s.sched.IsAt(ACCEPTOR, Running) && ACCEPTOR in s.sched.fds
    && ACCEPTOR in s.frames && s.frames[ACCEPTOR] == Acceptor(accepting)
  }

  ghost predicate Enabled(s: State, step: Step) {
    match step
    case Resume => s.sched.Idle() && s.sched.ready != []
    case Receive(h, got) =>
      RunsClient(s, h) && s.frames[h].stage.Receiving? && (got.Bytes? ==> 0 < |got.data| <= BUFFER_SIZE)
    case Process(h) => RunsClient(s, h) && s.frames[h].stage.Processing?
    case SendSome(h, answer) =>
      && RunsClient(s, h) && s.frames[h].stage.Sending?
      && s.frames[h].stage.offset < |s.frames[h].stage.reply|
      && (answer.Took? ==> 0 < answer.n <= |s.frames[h].stage.reply| - s.frames[h].stage.offset)
    case AwaitClients => RunsAcceptor(s, false)
    case AcceptOne(result) =>
      RunsAcceptor(s, true) && (result.NewConnection? ==> result.fd >= 0 && result.fd !in s.sched.open)
    case Poll(told) =>
      && s.sched.Idle() && s.sched.ready == []
      && exists asked :: IsPollSet(s.sched.readers, s.sched.writers, asked) && IsReport(asked, told)
  }

  function WithFrame(s: State, h: Handle, f: Frame): State {
    s.(frames := s.frames[h := f])
  }

  function WithSched(s: State, sched: Sched): State {
    s.(sched := sched)
  }

  /** The connection is closed and the coroutine returns. */
  function CloseAndReturn(s: State, h: Handle): State
    requires h in s.sched.fds
  {
    WithSched(s, Finish(s.sched, h, s.sched.fds[h]))
  }

  function DoReceive(s: State, h: Handle, got: RecvResult): State
    requires RunsClient(s, h)
  {
    var c := s.frames[h];
    match got
    case Bytes(data) => WithFrame(s, h, c.(inbound := c.inbound + data, received := c.received + data))
    case EndOfFile => CloseAndReturn(s, h)
    case RecvRetry => s
    case RecvWouldBlock => WithFrame(s, h, c.(stage := Processing))
    case RecvError => CloseAndReturn(s, h)
  }

  /** The line extracted from the buffer, executed. */
  function Executed(c: Frame, line: string, rest: string, reply: string): Frame
    requires c.Client?
  {
    c.(inbound := rest,
       lines := c.lines + [line],
       replies := c.replies + [reply],
       stage := Sending(reply, 0, ParseRequest(line).Quit?))
  }

  /** The next complete line is executed, or the coroutine waits for more bytes. */
  function DoProcess(s: State, h: Handle): State
    requires RunsClient(s, h)
  {
    var c := s.frames[h];
    var n := Find(c.inbound, '\n');
    if n == |c.inbound| then
      WithSched(WithFrame(s, h, c.(stage := Receiving)), ParkRead(s.sched, h, s.sched.fds[h]))
    else
      var line := c.inbound[..n];
      var (store, reply) := Execute(s.store, line);
      WithFrame(s, h, Executed(c, line, c.inbound[n + 1..], reply))
        .(store := store, log := s.log + [Dispatched(h, line)])
  }

  /** Part of a reply went out. */
  function SentMore(c: Frame, n: nat): Frame
    requires c.Client? && c.stage.Sending? && c.stage.offset + n <= |c.stage.reply|
  {
    var from := c.stage.offset;
    c.(stage := c.stage.(offset := from + n), sent := c.sent + c.stage.reply[from..from + n])
  }

  /** Some bytes were accepted; after the last one QUIT ends the session, anything else goes on. */
  function DoSendBytes(s: State, h: Handle, n: nat): State
    requires RunsClient(s, h) && s.frames[h].stage.Sending?
    requires s.frames[h].stage.offset + n <= |s.frames[h].stage.reply|
  {
    var c := SentMore(s.frames[h], n);
    if c.stage.offset < |c.stage.reply| then WithFrame(s, h, c)
    else if c.stage.quits then CloseAndReturn(WithFrame(s, h, c), h)
    else WithFrame(s, h, c.(stage := Processing))
  }

  function DoSend(s: State, h: Handle, answer: SendAnswer): State
    requires RunsClient(s, h) && s.frames[h].stage.Sending?
    requires answer.Took? ==> s.frames[h].stage.offset + answer.n <= |s.frames[h].stage.reply|
  {
    match answer
    case Took(n) => DoSendBytes(s, h, n)
    case SendRetry => s
    case SendWouldBlock => WithSched(s, ParkWrite(s.sched, h, s.sched.fds[h]))
    case SendError => CloseAndReturn(s, h)
  }

  const NEW_CLIENT := Client("", Receiving, "", [], [], "")

  function DoAccept(s: State, result: AcceptResult): State {
    match result
    case NewConnection(fd, nonBlocking) =>
      if !nonBlocking then s
      else WithSched(WithFrame(s, |s.frames|, NEW_CLIENT), Spawn(s.sched, |s.frames|, fd))
    case AcceptRetry => s
    case AcceptWouldBlock => WithFrame(s, ACCEPTOR, Acceptor(false))
    case AcceptError => WithFrame(s, ACCEPTOR, Acceptor(false))
  }

  ghost function Apply(s: State, step: Step): State
    requires Enabled(s, step)
  {
    match step
    case Resume => WithSched(s, Dequeue(s.sched))
    case Receive(h, got) => DoReceive(s, h, got)
    case Process(h) => DoProcess(s, h)
    case SendSome(h, answer) => DoSend(s, h, answer)
    case AwaitClients =>
      WithSched(WithFrame(s, ACCEPTOR, Acceptor(true)), ParkRead(s.sched, ACCEPTOR, s.sched.fds[ACCEPTOR]))
    case AcceptOne(result) => DoAccept(s, result)
    case Poll(told) => WithSched(s, WakeAll(s.sched, told))
  }

  /** The accepting coroutine has just been spawned on a listening socket. */
  predicate Initial(s: State, listener: int) {
    && s.store == map[] && s.log == []
    && s.frames == map[ACCEPTOR := Acceptor(false)]
    && s.sched == Sched([ACCEPTOR], map[], map[], {listener}, map[ACCEPTOR := listener], map[ACCEPTOR := InReady])
  }

  ghost predicate Follows(s: State, step: Step, s': State) {
    Enabled(s, step) && s' == Apply(s, step)
  }

  ghost predicate IsRun(listener: int, run: seq<State>, steps: seq<Step>) {
    && |run| == |steps| + 1
    && Initial(run[0], listener)
    && forall i :: 0 <= i < |steps| ==> Follows(run[i], steps[i], run[i + 1])
  }
}
