/** The blocking client's line reader and writer, over every way the socket can behave. */
module LineIo {
  import opened TextProtocol

  // ---------------------------------------------------------------------------
  // read_line
  // ---------------------------------------------------------------------------

  /** What one `recv` of one byte can give. */
  datatype Recv = Byte(c: char) | Interrupted | Eof | Failed

  /** What a call has returned; pending when the script ends before it does. */
  datatype Outcome = Returned(ok: bool, line: string) | Pending

  /** One call started at event `from` with `line` collected so far: its outcome and the next event. */
  function Scan(script: seq<Recv>, from: nat, line: string): (r: (Outcome, nat))
    requires from <= |script|
    ensures from <= r.1 <= |script|
    decreases |script| - from
  {
    if from == |script| then (Pending, from)
    else match script[from]
      case Eof => (Returned(line != "", line), from + 1)
      case Failed => (Returned(false, line), from + 1)
      case Interrupted => Scan(script, from + 1, line)
      case Byte(c) =>
        if c == '\n' then (Returned(true, line), from + 1)
        else Scan(script, from + 1, if c == '\r' then line else line + [c])
  }

  method ReadLine(script: seq<Recv>, from: nat) returns (outcome: Outcome, next: nat)
    requires from <= |script|
    ensures (outcome, next) == Scan(script, from, "")
  {
    var line := "";
    next := from;
    while next < |script|
      invariant from <= next <= |script|
      invariant Scan(script, from, "") == Scan(script, next, line)
    {
      var event := script[next];
      next := next + 1;
      if event.Eof? {
        return Returned(line != "", line), next;
      }
      if event.Failed? {
        return Returned(false, line), next;
      }
      if event.Interrupted? {
        continue;
      }
      if event.c == '\n' {
        return Returned(true, line), next;
      }
      if event.c != '\r' {
        line := line + [event.c];
      }
    }
    outcome := Pending;
  }

  /** The bytes a script delivers. */
  function Delivered(script: seq<Recv>): string {
    if script == [] then ""
    else (if script[0].Byte? then [script[0].c] else "") + Delivered(script[1..])
  }

  /** The connection stays up: only bytes and interruptions. */
  predicate Healthy(script: seq<Recv>) {
    forall i :: 0 <= i < |script| ==> script[i].Byte? || script[i].Interrupted?
  }

  /** A text without its carriage returns. */
  function DropReturns(s: string): string {
    if s == "" then "" else (if s[0] == '\r' then "" else [s[0]]) + DropReturns(s[1..])
  }

  predicate StartsWith(s: string, prefix: string) {
    |prefix| <= |s| && s[..|prefix|] == prefix
  }

  /** The first byte of a line and what follows it. */
  lemma FirstByte(c: char, delivered: string, rest: string, after: string)
    requires [c] + delivered == rest + "\n" + after
    ensures rest == "" ==> c == '\n' && delivered == after
    ensures rest != "" ==> c == rest[0] && delivered == rest[1..] + "\n" + after
  {
    var bytes := rest + "\n" + after;
    assert bytes[0] == c && bytes[1..] == delivered;
    if rest == "" {
      assert bytes[1..] == after;
    } else {
      assert bytes[1..] == rest[1..] + "\n" + after;
    }
  }

  /** One call reads up to the first newline delivered and drops the carriage returns before it. */
  lemma {:induction false} ScanReadsOneLine(script: seq<Recv>, from: nat, line: string, rest: string, after: string)
    requires from <= |script| && Healthy(script) && '\n' !in rest
    requires Delivered(script[from..]) == rest + "\n" + after
    ensures var (outcome, next) := Scan(script, from, line);
            && outcome == Returned(true, line + DropReturns(rest))
            && Delivered(script[next..]) == after
    decreases |script| - from
  {
    hide DropReturns;
    var tail := script[from + 1..];
    assert script[from..][1..] == tail;
    if script[from].Interrupted? {
      ScanReadsOneLine(script, from + 1, line, rest, after);
    } else {
      var c := script[from].c;
      FirstByte(c, Delivered(tail), rest, after);
      DropFirst(line, rest);
      if rest != "" {
        ScanReadsOneLine(script, from + 1, if c == '\r' then line else line + [c], rest[1..], after);
      }
    }
  }

  lemma DropFirst(line: string, rest: string)
    ensures rest == "" ==> line + DropReturns(rest) == line
    ensures rest != "" ==>
              line + DropReturns(rest) == (if rest[0] == '\r' then line else line + [rest[0]]) + DropReturns(rest[1..])
  {
    if rest != "" {
      var first, dropped := if rest[0] == '\r' then "" else [rest[0]], DropReturns(rest[1..]);
      assert DropReturns(rest) == first + dropped;
      hide DropReturns;
      Regroup(line, first, dropped);
      assert line + "" == line;
    } else {
      assert line + "" == line;
    }
  }

  lemma Regroup(a: string, b: string, c: string)
    ensures a + (b + c) == (a + b) + c
  {
  }

  /** The call reads on over this event. */
  predicate ReadsOn(event: Recv) {
    event.Interrupted? || (event.Byte? && event.c != '\n')
  }

  lemma ReadOver(script: seq<Recv>, from: nat, line: string)
    requires from < |script| && ReadsOn(script[from])
    ensures var kept := if script[from] == Byte('\r') || script[from].Interrupted? then line else line + [script[from].c];
            && Scan(script, from, line) == Scan(script, from + 1, kept)
            && forall to :: from < to <= |script| ==>
                 line + DropReturns(Delivered(script[from..to])) == kept + DropReturns(Delivered(script[from + 1..to]))
  {
    var kept := if script[from] == Byte('\r') || script[from].Interrupted? then line else line + [script[from].c];
    forall to | from < to <= |script|
      ensures line + DropReturns(Delivered(script[from..to])) == kept + DropReturns(Delivered(script[from + 1..to]))
    {
      assert script[from..to][1..] == script[from + 1..to];
      var tail := Delivered(script[from + 1..to]);
      if script[from].Byte? {
        assert ([script[from].c] + tail)[1..] == tail;
        DropFirst(line, [script[from].c] + tail);
      } else {
        assert "" + tail == tail;
      }
    }
  }

  /**
   How every call ends: with the first event at which it does not read on.  A newline gives the
   line; end of file gives it only if something was collected; a failure is reported whatever was.
   */
  lemma {:induction false} CallEnds(script: seq<Recv>, from: nat, line: string, end: nat)
    requires from <= end <= |script| && forall i :: from <= i < end ==> ReadsOn(script[i])
    ensures var text, outcome := line + DropReturns(Delivered(script[from..end])), Scan(script, from, line);
            && (end == |script| ==> outcome == (Pending, end))
            && (end < |script| && script[end] == Byte('\n') ==> outcome == (Returned(true, text), end + 1))
            && (end < |script| && script[end].Eof? ==> outcome == (Returned(text != "", text), end + 1))
            && (end < |script| && script[end].Failed? ==> outcome == (Returned(false, text), end + 1))
    decreases end - from
  {
    if from == end {
      assert script[from..end] == [] && line + "" == line;
    } else {
      hide DropReturns, Delivered;
      ReadOver(script, from, line);
      var kept := if script[from] == Byte('\r') || script[from].Interrupted? then line else line + [script[from].c];
      CallEnds(script, from + 1, kept, end);
    }
  }

  function Concat(parts: seq<string>): string {
    if parts == [] then "" else parts[0] + Concat(parts[1..])
  }

  /** A reply line as the client hands it on. */
  function AsRead(reply: string): string
    requires IsLine(reply)
  {
    DropReturns(reply[..|reply| - 1])
  }

  /** The outcomes of `n` successive calls. */
  function ReadLines(script: seq<Recv>, from: nat, n: nat): (r: seq<Outcome>)
    requires from <= |script|
    ensures |r| == n
    decreases n
  {
    if n == 0 then []
    else
      var (outcome, next) := Scan(script, from, "");
      [outcome] + ReadLines(script, next, n - 1)
  }

  /**
   Reply alignment: whatever interruptions occur, over a stream of one-line replies the n-th
   call returns the n-th reply, without its newline and its carriage returns.
   */
  lemma {:induction false} NthCallReadsNthReply(script: seq<Recv>, from: nat, replies: seq<string>)
    requires from <= |script| && Healthy(script)
    requires forall i :: 0 <= i < |replies| ==> IsLine(replies[i])
    requires StartsWith(Delivered(script[from..]), Concat(replies))
    ensures forall i :: 0 <= i < |replies| ==>
              ReadLines(script, from, |replies|)[i] == Returned(true, AsRead(replies[i]))
    decreases |replies|
  {
    if replies != [] {
      var first, rest := replies[0], replies[1..];
      var bytes := Delivered(script[from..]);
      var body := first[..|first| - 1];
      assert first == body + "\n";
      assert bytes[..|first|] == first by {
        assert bytes[..|Concat(replies)|][..|first|] == bytes[..|first|];
      }
      assert bytes == body + "\n" + bytes[|first|..];
      ScanReadsOneLine(script, from, "", body, bytes[|first|..]);
      var (outcome, next) := Scan(script, from, "");
      assert "" + DropReturns(body) == DropReturns(body);
      assert bytes[|first|..][..|Concat(rest)|] == Concat(rest) by {
        assert bytes[..|Concat(replies)|][|first|..] == Concat(rest);
      }
      NthCallReadsNthReply(script, next, rest);
      forall i | 0 <= i < |replies|
        ensures ReadLines(script, from, |replies|)[i] == Returned(true, AsRead(replies[i]))
      {
        if i > 0 {
          assert rest[i - 1] == replies[i];
        }
      }
    }
  }

  // ---------------------------------------------------------------------------
  // write_all
  // ---------------------------------------------------------------------------

  /** What one `send` can give: some accepted bytes, an interruption, or an error. */
  datatype SendResult = Accepted(n: nat) | SendInterrupted | SendFailed

  datatype WriteOutcome = AllSent | Broken | Blocked

  /** How many bytes the answers before the first failure offer to take. */
  function Taken(script: seq<SendResult>): nat {
    if script == [] || script[0].SendFailed? then 0
    else (if script[0].Accepted? then script[0].n else 0) + Taken(script[1..])
  }

  function Least(a: nat, b: nat): nat {
    if a <= b then a else b
  }

  /**
   Send everything, retrying. `script` is what the successive calls give; an answer larger than
   what was offered counts as all of it. `wire` is what the peer gets: as much of the data as the
   answers before the first failure take.
   */
  method WriteAll(data: string, script: seq<SendResult>) returns (outcome: WriteOutcome, wire: string)
    ensures wire == data[..Least(|data|, Taken(script))]
    ensures outcome.AllSent? <==> |data| <= Taken(script)
    ensures outcome.Broken? <==> |data| > Taken(script) && exists i :: 0 <= i < |script| && script[i].SendFailed?
  {
    var total := 0;
    var i := 0;
    wire := "";
    assert script[0..] == script;
    while total < |data| && i < |script|
      invariant 0 <= total <= |data| && 0 <= i <= |script|
      invariant wire == data[..total]
      invariant Least(|data|, Taken(script)) == Least(|data|, total + Taken(script[i..]))
      invariant |data| <= Taken(script) <==> |data| <= total + Taken(script[i..])
      invariant forall j :: 0 <= j < i ==> !script[j].SendFailed?
      decreases |script| - i
    {
      assert script[i..][1..] == script[i + 1..];
      if script[i].SendFailed? {
        return Broken, wire;
      }
      if script[i].Accepted? {
        var offered := |data| - total;
        var taken := if script[i].n <= offered then script[i].n else offered;
        wire := wire + data[total..total + taken];
        total := total + taken;
      }
      i := i + 1;
    }
    outcome := if total == |data| then AllSent else Blocked;
  }
}
