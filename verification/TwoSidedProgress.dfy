/** When a two-sided request is answered: until the server has executed a QUIT, and not after. */
module TwoSidedProgress {
  import opened TextProtocol
  import opened Dispatch
  import opened TwoSided
  import opened TwoSidedRuns
  import opened TwoSidedAnswers

  ghost predicate IsPath(path: seq<State>, steps: seq<Step>) {
    && |path| == |steps| + 1
    && forall i :: 0 <= i < |steps| ==> Follows(path[i], steps[i], path[i + 1])
  }

  /** These steps lead from one state to another. */
  ghost predicate Reaches(s: State, steps: seq<Step>, s': State) {
    exists path :: IsPath(path, steps) && path[0] == s && path[|steps|] == s'
  }

  lemma NoSteps(s: State)
    ensures Reaches(s, [], s)
  {
    assert IsPath([s], []);
  }

  lemma ReachesAfter(s: State, step: Step, more: seq<Step>, s': State)
    requires Enabled(s, step) && Reaches(Apply(s, step), more, s')
    ensures Reaches(s, [step] + more, s')
  {
    hide Apply, Enabled;
    var rest :| IsPath(rest, more) && rest[0] == Apply(s, step) && rest[|more|] == s';
    var path := [s] + rest;
    forall i | 0 <= i < |more| + 1
      ensures Follows(path[i], ([step] + more)[i], path[i + 1])
    {
      if i > 0 {
        assert Follows(rest[i - 1], more[i - 1], rest[i]);
      }
    }
    assert IsPath(path, [step] + more);
  }

  /** The server has executed a QUIT and will arm no further receive. */
  predicate HasQuit(at: ServerAt) {
    at.Stopped? || (at.Replying? && at.quits) || (at.ReplyPosted? && at.quits)
  }

  /** The request was answered, or is at the server, or the server still takes requests. */
  predicate CanBeAnswered(s: State) {
    Asking(s.clientAt) && (s.client.receives == 0 || Serving(s) || !HasQuit(s.serverAt))
  }

  // ---------------------------------------------------------------------------
  // The flag and the messages
  // ---------------------------------------------------------------------------

  predicate AsksToQuit(message: string) { ParseRequest(StripNewline(message)).Quit? }

  /** A message of this client that asks to quit was executed. */
  ghost predicate QuitExecuted(log: seq<Entry>) {
    exists i :: 0 <= i < |log| && log[i].mine && AsksToQuit(log[i].message)
  }

  lemma QuitAppended(log: seq<Entry>, entry: Entry)
    ensures QuitExecuted(log + [entry]) <==> QuitExecuted(log) || (entry.mine && AsksToQuit(entry.message))
  {
    hide AsksToQuit;
    var longer := log + [entry];
    if QuitExecuted(log) {
      var i :| 0 <= i < |log| && log[i].mine && AsksToQuit(log[i].message);
      assert longer[i] == log[i];
    }
    if entry.mine && AsksToQuit(entry.message) {
      assert longer[|log|] == entry;
    }
  }

  /** The server's position says whether it has executed a QUIT. */
  ghost predicate QuitOk(s: State) {
    QuitExecuted(s.log) <==> HasQuit(s.serverAt)
  }

  lemma StepKeepsQuit(s: State, step: Step)
    requires QuitOk(s) && Enabled(s, step)
    ensures QuitOk(Apply(s, step))
  {
    hide QuitExecuted, ParseRequest, StripNewline, ExecuteMessage, Chomp;
    match step
    case ServerDispatch => QuitAppended(s.log, Entry(true, s.server.RecvData()));
    case OtherRequest(message) => QuitAppended(s.log, Entry(false, message));
    case _ =>
  }

  lemma StartsQuitless(s: State)
    requires Initial(s)
    ensures QuitOk(s)
  {
  }

  lemma {:induction false} RunKeepsQuit(run: seq<State>, steps: seq<Step>, n: nat)
    requires IsRun(run, steps) && n <= |steps|
    ensures QuitOk(run[n])
  {
    hide QuitOk, Apply, Enabled, Initial;
    if n == 0 {
      StartsQuitless(run[0]);
    } else {
      RunKeepsQuit(run, steps, n - 1);
      assert Follows(run[n - 1], steps[n - 1], run[n]);
      StepKeepsQuit(run[n - 1], steps[n - 1]);
    }
  }

  lemma QuitStays(s: State, step: Step)
    requires Enabled(s, step) && HasQuit(s.serverAt)
    ensures HasQuit(Apply(s, step).serverAt) && !step.ServerPostRecv? && !step.ServerDispatch?
  {
    hide ParseRequest, StripNewline, ExecuteMessage, Chomp;
  }

  /**
   Once a message of this client that parses to QUIT was executed, the server never arms a receive
   and never executes a message of this client again.
   */
  lemma {:induction false} NothingServedAfterQuit(run: seq<State>, steps: seq<Step>, n: nat, m: nat)
    requires IsRun(run, steps) && n <= m < |steps| && QuitExecuted(run[n].log)
    ensures HasQuit(run[m].serverAt)
    ensures steps[m] != ServerPostRecv && steps[m] != ServerDispatch
    decreases m
  {
    hide QuitExecuted, Apply, Enabled, Initial, HasQuit;
    RunKeepsQuit(run, steps, n);
    if n < m {
      NothingServedAfterQuit(run, steps, n, m - 1);
      assert Follows(run[m - 1], steps[m - 1], run[m]);
      QuitStays(run[m - 1], steps[m - 1]);
    }
    assert Follows(run[m], steps[m], run[m + 1]);
    QuitStays(run[m], steps[m]);
  }

  // ---------------------------------------------------------------------------
  // Until QUIT
  // ---------------------------------------------------------------------------

  /** A step that brings the answer nearer. */
  function Forward(s: State): Step {
    if s.clientAt.PolledTwice? then ClientRead
    else if s.client.cq != [] then ClientPoll
    else if s.client.unacked > 0 then ClientSendCompletes
    else match s.serverAt
      case LoopTop => ServerPostRecv
      case Armed => if s.server.cq != [] then ServerPoll else RequestDelivered
      case Received => ServerDispatch
      case Replying(_, _) => ServerPostSend
      case _ =>
        if s.server.outgoing != [] then ReplyDelivered
        else if s.server.cq != [] then ServerPoll
        else ServerSendCompletes
  }

  /** How far the request is from its reply's delivery. */
  function Stage(s: State): nat {
    if s.client.receives == 0 then 0
    else match s.serverAt
      case LoopTop => 6
      case Armed => if s.server.cq != [] then 4 else 5
      case Received => 3
      case Replying(_, _) => 2
      case _ => if s.server.outgoing != [] then 1 else if s.server.cq != [] then 7 else 8
  }

  function Distance(s: State): nat {
    4 * Stage(s) + 2 * s.client.unacked + |s.client.cq|
  }

  /** Until the answer is read such a step is enabled, keeps the request answerable and brings it nearer. */
  lemma ForwardProgresses(s: State)
    requires ExchangeOk(s) && s.clientUp && s.serverUp && CanBeAnswered(s) && !s.clientAt.PolledTwice?
    ensures Enabled(s, Forward(s))
    ensures var s' := Apply(s, Forward(s));
            && s'.clientUp && s'.serverUp && CanBeAnswered(s') && s'.answers == s.answers
            && Distance(s') < Distance(s)
  {
    hide BuffersOk, StoreOk, HistoryOk, ExecuteMessage, ParseRequest, Chomp, Truncated, Overwrite;
    ServerShape(s);
    ClientShape(s);
    hide SendDones;
  }

  /** While nobody gives up, the request is answered after finitely many steps. */
  lemma {:induction false} AnswerComes(s: State) returns (steps: seq<Step>, s': State)
    requires ExchangeOk(s) && s.clientUp && s.serverUp && CanBeAnswered(s)
    ensures Reaches(s, steps, s') && |s'.answers| == |s.answers| + 1
    decreases Distance(s)
  {
    hide ExchangeOk, Reaches, CanBeAnswered, Distance;
    if s.clientAt.PolledTwice? {
      s' := ReadIsLast(s);
      NoSteps(s');
      ReachesAfter(s, ClientRead, [], s');
      return [ClientRead] + [], s';
    }
    hide Apply, Enabled, Forward;
    ForwardProgresses(s);
    StepKeepsExchange(s, Forward(s));
    var more;
    more, s' := AnswerComes(Apply(s, Forward(s)));
    ReachesAfter(s, Forward(s), more, s');
    steps := [Forward(s)] + more;
  }

  lemma ReadIsLast(s: State) returns (s': State)
    requires ExchangeOk(s) && s.clientUp && s.clientAt.PolledTwice?
    ensures Enabled(s, ClientRead) && s' == Apply(s, ClientRead) && |s'.answers| == |s.answers| + 1
  {
    s' := Apply(s, ClientRead);
  }

  // ---------------------------------------------------------------------------
  // After QUIT
  // ---------------------------------------------------------------------------

  /** No step helps a request that came after the server executed a QUIT. */
  lemma StuckStaysStuck(s: State, step: Step)
    requires ExchangeOk(s) && Enabled(s, step) && Asking(s.clientAt) && !CanBeAnswered(s)
    ensures var s' := Apply(s, step); Asking(s'.clientAt) && !CanBeAnswered(s') && s'.answers == s.answers
  {
    hide BuffersOk, StoreOk, HistoryOk, ExecuteMessage, ParseRequest, Chomp, Truncated, Overwrite;
    ServerShape(s);
    ClientShape(s);
    StepKeepsWork(s, step);
    ClientShape(Apply(s, step));
    hide SendDones;
  }

  lemma {:induction false} NoAnswerComes(path: seq<State>, steps: seq<Step>, n: nat)
    requires IsPath(path, steps) && n <= |steps|
    requires ExchangeOk(path[0]) && Asking(path[0].clientAt) && !CanBeAnswered(path[0])
    ensures ExchangeOk(path[n]) && Asking(path[n].clientAt) && !CanBeAnswered(path[n])
    ensures path[n].answers == path[0].answers
  {
    hide ExchangeOk, CanBeAnswered, Apply, Enabled;
    if n > 0 {
      NoAnswerComes(path, steps, n - 1);
      assert Follows(path[n - 1], steps[n - 1], path[n]);
      StuckStaysStuck(path[n - 1], steps[n - 1]);
      StepKeepsExchange(path[n - 1], steps[n - 1]);
    }
  }

  /** Some continuation answers the pending request. */
  ghost predicate GetsAnswered(s: State) {
    exists steps, s' :: Reaches(s, steps, s') && |s'.answers| == |s.answers| + 1
  }

  /**
   In every reachable state with both sides up, a pending request can still be answered exactly
   when it is at the server or answered already, or no message of this client that parses to QUIT
   has been executed.
   */
  lemma AnsweredUntilQuit(run: seq<State>, steps: seq<Step>, n: nat)
    requires IsRun(run, steps) && n <= |steps|
    requires run[n].clientUp && run[n].serverUp && Asking(run[n].clientAt)
    ensures GetsAnswered(run[n]) <==>
            run[n].client.receives == 0 || Serving(run[n]) || !QuitExecuted(run[n].log)
  {
    RunKeepsExchange(run, steps, n);
    RunKeepsQuit(run, steps, n);
    hide ExchangeOk, IsPath, QuitExecuted, HasQuit, Serving, Initial, Follows, Asking;
    var s := run[n];
    if CanBeAnswered(s) {
      var more, s' := AnswerComes(s);
    } else if GetsAnswered(s) {
      var more, s' :| Reaches(s, more, s') && |s'.answers| == |s.answers| + 1;
      var path :| IsPath(path, more) && path[0] == s && path[|more|] == s';
      NoAnswerComes(path, more, |more|);
      assert false;
    }
  }
}
