/** Executing request lines against the in-memory store, as both transports do. */
module Dispatch {
  import opened TextProtocol

  type KvStore = map<string, string>

  /** The TCP server's `handle_request`. */
  function HandleRequest(store: KvStore, request: Request): (r: (KvStore, Response)) {
    match request
    case Get(k) => (store, if k in store then Value(store[k]) else NotFound)
    case Set(k, v) => (store[k := v], Ok)
    case Del(k) => if k in store then (store - {k}, Ok) else (store, NotFound)
    case Quit => (store, Bye)
    case Invalid(e) => (store, Error(Message(e)))
  }

  /** The store shared by all connections. */
  class Shared {
    var contents: KvStore

    constructor ()
      ensures contents == map[]
    {
      contents := map[];
    }

    method Handle(request: Request) returns (response: Response)
      modifies this
      ensures (contents, response) == HandleRequest(old(contents), request)
    {
      match request {
        case Get(k) =>
          response := if k in contents then Value(contents[k]) else NotFound;
        case Set(k, v) =>
          contents := contents[k := v];
          response := Ok;
        case Del(k) =>
          if k in contents {
            contents := contents - {k};
            response := Ok;
          } else {
            response := NotFound;
          }
        case Quit => response := Bye;
        case Invalid(e) => response := Error(Message(e));
      }
    }
  }

  /** The request dispatched for one line, and its reply as sent. */
  function Execute(store: KvStore, line: string): (KvStore, string) {
    var (store', response) := HandleRequest(store, ParseRequest(line));
    (store', Serialize(response))
  }

  /** The store after a sequence of lines. */
  function StoreAfter(store: KvStore, lines: seq<string>): KvStore {
    if lines == [] then store
    else Execute(StoreAfter(store, lines[..|lines| - 1]), lines[|lines| - 1]).0
  }

  /** The replies to a sequence of lines. */
  function Replies(store: KvStore, lines: seq<string>): (r: seq<string>)
    ensures |r| == |lines|
  {
    if lines == [] then []
    else
      var before := lines[..|lines| - 1];
      Replies(store, before) + [Execute(StoreAfter(store, before), lines[|lines| - 1]).1]
  }

  // ---------------------------------------------------------------------------
  // Last writes
  // ---------------------------------------------------------------------------

  /** What the requests so far leave for a key: the value of the last SET, unless deleted since. */
  datatype Written = Nothing | Latest(value: string)

  function LastWrite(lines: seq<string>, k: string): Written {
    if lines == [] then Nothing
    else match ParseRequest(lines[|lines| - 1])
      case Set(key, value) => if key == k then Latest(value) else LastWrite(lines[..|lines| - 1], k)
      case Del(key) => if key == k then Nothing else LastWrite(lines[..|lines| - 1], k)
      case _ => LastWrite(lines[..|lines| - 1], k)
  }

  /** The store holds, for every key, exactly what the last SET or DEL of that key left. */
  lemma {:induction false} StoreHoldsLastWrites(lines: seq<string>, k: string)
    ensures var store := StoreAfter(map[], lines);
            LastWrite(lines, k) == if k in store then Latest(store[k]) else Nothing
  {
    hide ParseRequest, Serialize, Message;
    if lines != [] {
      StoreHoldsLastWrites(lines[..|lines| - 1], k);
    }
  }

  /** A GET replies with the last value written, or that there is none. */
  lemma GetReadsLastWrite(lines: seq<string>, i: nat)
    requires i < |lines| && ParseRequest(lines[i]).Get?
    ensures Replies(map[], lines[..i + 1])[i]
            == Serialize(match LastWrite(lines[..i], ParseRequest(lines[i]).key)
                         case Nothing => NotFound
                         case Latest(value) => Value(value))
  {
    hide ParseRequest, Serialize, Message, LastWrite, StoreAfter;
    assert lines[..i + 1][..i] == lines[..i];
    StoreHoldsLastWrites(lines[..i], ParseRequest(lines[i]).key);
  }

  /**
   The response the i-th request of any history deserves: a GET the last value written or none, a
   DEL whether something written was there to remove, a SET and a QUIT their acknowledgements, and
   a rejected line its own message.
   */
  function Deserved(before: seq<string>, request: Request): Response {
    match request
    case Get(k) => if LastWrite(before, k).Nothing? then NotFound else Value(LastWrite(before, k).value)
    case Del(k) => if LastWrite(before, k).Nothing? then NotFound else Ok
    case Set(_, _) => Ok
    case Quit => Bye
    case Invalid(e) => Error(Message(e))
  }

  /** In any history from an empty store every reply is the one its request deserves, and reads back as that. */
  lemma RepliesAreDeserved(lines: seq<string>, i: nat)
    requires i < |lines|
    ensures Replies(map[], lines[..i + 1])[i] == Serialize(Deserved(lines[..i], ParseRequest(lines[i])))
    ensures ReadReply(Replies(map[], lines[..i + 1])[i]) == Understood(Deserved(lines[..i], ParseRequest(lines[i])))
  {
    hide ParseRequest, Serialize, Message, LastWrite, StoreAfter, ReadReply;
    assert lines[..i + 1][..i] == lines[..i];
    var request := ParseRequest(lines[i]);
    if request.Get? || request.Del? {
      StoreHoldsLastWrites(lines[..i], request.key);
    }
    ReplyReadsBack(Deserved(lines[..i], request));
  }

  // ---------------------------------------------------------------------------
  // Newlines
  // ---------------------------------------------------------------------------

  predicate NewlineFreeStore(store: KvStore) {
    forall k :: k in store ==> '\n' !in store[k]
  }

  /** A newline-free line keeps the stored values newline-free, and its reply is one line. */
  lemma ExecuteOneLine(store: KvStore, line: string)
    requires NewlineFreeStore(store) && '\n' !in line
    ensures NewlineFreeStore(Execute(store, line).0)
    ensures IsLine(Execute(store, line).1)
  {
    hide ParseRequest, Serialize, Message, IsLine;
    NewlineFreeParts(line);
    ReplyIsLine(HandleRequest(store, ParseRequest(line)).1);
  }

  // ---------------------------------------------------------------------------
  // The two-sided server's dispatcher
  // ---------------------------------------------------------------------------

  /** The capacity of the pinned send and receive buffers. */
  const MSG_SIZE: nat := 4096

  /** What fits in a send buffer. */
  function Truncated(data: string): (s: string)
    ensures |s| <= MSG_SIZE
  {
    if |data| < MSG_SIZE then data else data[..MSG_SIZE]
  }

  /** A received message without its trailing newline. */
  function StripNewline(message: string): string {
    if message != "" && message[|message| - 1] == '\n' then message[..|message| - 1] else message
  }

  /** The two-sided server's own routing of a parsed request. */
  function RouteRequest(store: KvStore, request: Request): (KvStore, Response) {
    if request.Get? then (store, if request.key in store then Value(store[request.key]) else NotFound)
    else if request.Set? then (store[request.key := request.value], Ok)
    else if request.Del? then
      if request.key in store then (store - {request.key}, Ok) else (store, NotFound)
    else if request.Quit? then (store, Bye)
    else (store, Error(Message(request.error)))
  }

  /** Both servers handle a parsed request alike. */
  lemma RoutesAlike(store: KvStore, request: Request)
    ensures RouteRequest(store, request) == HandleRequest(store, request)
  {
  }

  function ExecuteMessage(store: KvStore, message: string): (KvStore, string) {
    var (store', response) := RouteRequest(store, ParseRequest(StripNewline(message)));
    (store', Serialize(response))
  }

  /** Both dispatchers do the same with a line that reaches the two-sided server whole. */
  lemma DispatchersAgree(store: KvStore, line: string)
    requires |line| < MSG_SIZE
    ensures ExecuteMessage(store, Truncated(line + "\n")) == Execute(store, line)
  {
    hide ParseRequest, Serialize, RouteRequest, HandleRequest;
    var message := line + "\n";
    assert Truncated(message) == message;
    assert StripNewline(message) == line;
    RoutesAlike(store, ParseRequest(line));
  }

  // ---------------------------------------------------------------------------
  // Sizes
  // ---------------------------------------------------------------------------

  const VALUE_BOUND: nat := 4089

  predicate BoundedStore(store: KvStore) {
    forall k :: k in store ==> |store[k]| <= VALUE_BOUND
  }

  /** The longest command whose rejection still fits in one message. */
  const COMMAND_BOUND: nat := 4072

  lemma MessageLengths(e: ParseError)
    ensures !e.UnknownCommand? ==> |Message(e)| <= 30
    ensures e.UnknownCommand? ==> |Message(e)| == 17 + |e.command|
  {
  }

  lemma ReplyLengths(r: Response)
    ensures match r
            case Value(p) => |Serialize(r)| == |p| + 7
            case Error(m) => |Serialize(r)| == |m| + 7
            case _ => |Serialize(r)| <= 10
  {
  }

  /**
   For a request message that fits in one buffer: stored values stay within 4089 bytes, and
   the only replies that do not fit are rejections of an unknown command longer than 4072 bytes.
   */
  lemma ReplyFits(store: KvStore, line: string)
    requires BoundedStore(store) && |line| + 1 <= MSG_SIZE
    ensures BoundedStore(Execute(store, line).0)
    ensures var request := ParseRequest(line);
            |Execute(store, line).1| > MSG_SIZE
            <==> request.Invalid? && request.error.UnknownCommand? && |request.error.command| > COMMAND_BOUND
  {
    hide ParseRequest, Serialize, Message;
    var request := ParseRequest(line);
    ReplyLengths(HandleRequest(store, request).1);
    if request.Invalid? {
      MessageLengths(request.error);
    } else {
      ParsedIsCanonical(line);
      PartsFitLine(line);
    }
  }

  /** A text of `n` equal letters. */
  function Letters(n: nat): (s: string)
    ensures |s| == n && forall i :: 0 <= i < n ==> s[i] == 'x'
  {
    seq(n, _ => 'x')
  }

  lemma PrintedLengths(k: string, v: string)
    ensures |Print(TextProtocol.Set(k, v))| == |k| + |v| + 5
    ensures |Print(TextProtocol.Get(k))| == |k| + 4
  {
  }

  /** Storing a value and reading it back, as text lines. */
  lemma SetThenGet(store: KvStore, k: string, v: string)
    requires Canonical(TextProtocol.Set(k, v)) && EndsSolid(k)
    ensures Execute(store, Print(TextProtocol.Set(k, v))).0 == store[k := v]
    ensures |Execute(store[k := v], Print(TextProtocol.Get(k))).1| == |v| + 7
  {
    PrintThenParse(TextProtocol.Set(k, v));
    PrintThenParse(TextProtocol.Get(k));
    ReplyLengths(Value(v));
    hide Print, ParseRequest, Serialize, Canonical, Message;
    assert HandleRequest(store[k := v], TextProtocol.Get(k)).1 == Value(v);
  }

  /** The bound is reached: a 4096-byte SET message stores any solid 4089-byte value, whose VALUE reply has 4096 bytes. */
  lemma ValueBoundIsTight(store: KvStore, v: string)
    requires |v| == VALUE_BOUND && StartsSolid(v) && EndsSolid(v)
    ensures |Print(TextProtocol.Set("k", v))| + 1 == MSG_SIZE
    ensures Execute(store, Print(TextProtocol.Set("k", v))).0 == store["k" := v]
    ensures |Execute(store["k" := v], Print(TextProtocol.Get("k"))).1| == MSG_SIZE
  {
    PrintedLengths("k", v);
    assert Canonical(TextProtocol.Set("k", v)) && EndsSolid("k");
    hide Print, Execute, Canonical;
    SetThenGet(store, "k", v);
  }

  /**
   A longer request loses its newline to truncation and can store a value one byte over the
   bound, whose VALUE reply no longer fits.
   */
  lemma OverlongRequestBreaksBound(store: KvStore, v: string)
    requires |v| == VALUE_BOUND + 1 && StartsSolid(v) && EndsSolid(v)
    ensures var message := Truncated(Print(TextProtocol.Set("k", v)) + "\n");
            && |message| == MSG_SIZE
            && ExecuteMessage(store, message).0 == store["k" := v]
            && |Execute(store["k" := v], Print(TextProtocol.Get("k"))).1| == MSG_SIZE + 1
  {
    PrintedLengths("k", v);
    assert Canonical(TextProtocol.Set("k", v)) && EndsSolid("k");
    var line := Print(TextProtocol.Set("k", v));
    PrintEndsSolid("k", v);
    hide Print, Execute, Canonical, ParseRequest;
    assert Truncated(line + "\n") == line;
    assert StripNewline(line) == line;
    SetThenGet(store, "k", v);
    RoutesAlike(store, ParseRequest(line));
  }

  lemma PrintEndsSolid(k: string, v: string)
    requires EndsSolid(v)
    ensures EndsSolid(Print(TextProtocol.Set(k, v)))
  {
  }

  lemma LettersAreSolid(n: nat)
    requires n > 0
    ensures StartsSolid(Letters(n)) && EndsSolid(Letters(n))
  {
  }

  lemma OverlongIsLong(v: string)
    requires |v| == VALUE_BOUND + 1 && StartsSolid(v) && EndsSolid(v)
    ensures LongSet(Truncated(Print(TextProtocol.Set("k", v)) + "\n"))
  {
    var line := Print(TextProtocol.Set("k", v));
    assert line == "SET k " + v;
    assert line[..3] == "SET";
    assert Lower("SET") == "set";
    assert line[6] == v[0] && line[|line| - 1] == v[|v| - 1];
    assert Truncated(line + "\n") == line;
  }

  /**
   A message of 4096 bytes that reads `set` in any case, a space, a one-byte key, a space, and a
   value that fills the rest.
   */
  predicate LongSet(message: string) {
    && |message| == MSG_SIZE
    && Lower(message[..3]) == "set"
    && message[3] == ' ' && !IsSpace(message[4])
    && message[5] == ' ' && !IsSpace(message[6])
    && !IsSpace(message[MSG_SIZE - 1])
  }

  lemma LongSetIsTight(message: string)
    requires LongSet(message)
    ensures |message| == MSG_SIZE && StripNewline(message) == message
    ensures IsTightSet(message, [message[4]], message[6..])
  {
    var k, v := [message[4]], message[6..];
    assert v[0] == message[6] && v[|v| - 1] == message[|message| - 1];
    assert message[3..] == " " + k + " " + v;
  }

  lemma TightIsLongSet(message: string, k: string, v: string)
    requires IsTightSet(message, k, v) && |message| == MSG_SIZE && |k| == 1
    ensures LongSet(message)
  {
    var rest := message[3..];
    assert rest[0] == message[3] && rest[1] == message[4] && rest[2] == message[5] && rest[3] == message[6];
    assert rest[|rest| - 1] == message[|message| - 1] && rest[|rest| - 1] == v[|v| - 1];
  }

  /** Exactly when a message that fits in a buffer sets a value longer than 4089 bytes. */
  lemma LongValues(message: string)
    requires |message| <= MSG_SIZE
    ensures var request := ParseRequest(StripNewline(message));
            request.Set? && |request.value| > VALUE_BOUND <==> LongSet(message)
    ensures var request := ParseRequest(StripNewline(message));
            request.Set? ==> |request.value| <= VALUE_BOUND + 1 && EndsSolid(request.value)
  {
    hide ParseRequest, LongSet, IsTightSet, Lower, IsSpace;
    var line := StripNewline(message);
    var request := ParseRequest(line);
    if LongSet(message) {
      LongSetIsTight(message);
      TightSets(message, [message[4]], message[6..]);
    }
    if request.Set? {
      PartsFitLine(line);
      ParsedIsCanonical(line);
      TightSets(line, request.key, request.value);
      if |request.value| > VALUE_BOUND {
        assert |request.key| == 1 && line == message;
        TightIsLongSet(message, request.key, request.value);
      }
    }
  }

  /** Exactly when one message takes a stored value over the bound. */
  lemma MessageBreaksBound(store: KvStore, message: string)
    requires BoundedStore(store) && |message| <= MSG_SIZE
    ensures BoundedStore(ExecuteMessage(store, message).0) <==> !LongSet(message)
  {
    hide ParseRequest, LongSet, StripNewline, Serialize;
    LongValues(message);
    var request := ParseRequest(StripNewline(message));
    var store' := ExecuteMessage(store, message).0;
    assert store' == RouteRequest(store, request).0;
    if request.Set? {
      assert store' == store[request.key := request.value];
      assert request.key in store' && store'[request.key] == request.value;
    } else {
      assert forall k :: k in store' ==> k in store && store'[k] == store[k];
      assert BoundedStore(store');
    }
  }

  /** An input: 4090 letters set under the key "k". */
  lemma OverlongRequestExample(store: KvStore)
    requires BoundedStore(store)
    ensures var message := Truncated(Print(TextProtocol.Set("k", Letters(VALUE_BOUND + 1))) + "\n");
            |message| == MSG_SIZE && !BoundedStore(ExecuteMessage(store, message).0)
  {
    hide ExecuteMessage, BoundedStore, Truncated, Print, Letters;
    var v := Letters(VALUE_BOUND + 1);
    LettersAreSolid(VALUE_BOUND + 1);
    OverlongIsLong(v);
    MessageBreaksBound(store, Truncated(Print(TextProtocol.Set("k", v)) + "\n"));
  }

  /** What holds whatever the messages are: no value exceeds 4090 bytes, and each ends in a non-space. */
  predicate SolidStore(store: KvStore) {
    forall k :: k in store ==> |store[k]| <= VALUE_BOUND + 1 && EndsSolid(store[k])
  }

  lemma MessageKeepsSolid(store: KvStore, message: string)
    requires SolidStore(store) && |message| <= MSG_SIZE
    ensures SolidStore(ExecuteMessage(store, message).0)
  {
    hide ParseRequest, LongSet, StripNewline, Serialize, EndsSolid;
    LongValues(message);
  }

  lemma {:induction false} MessagesKeepSolid(messages: seq<string>)
    requires forall i :: 0 <= i < |messages| ==> |messages[i]| <= MSG_SIZE
    ensures SolidStore(MessagesStore(map[], messages))
  {
    hide SolidStore, ExecuteMessage;
    if messages == [] {
      EmptyIsSolid();
    } else {
      MessagesKeepSolid(messages[..|messages| - 1]);
      MessageKeepsSolid(MessagesStore(map[], messages[..|messages| - 1]), messages[|messages| - 1]);
    }
  }

  lemma EmptyIsSolid()
    ensures SolidStore(map[])
  {
  }

  /** A one-word line that is no known command is rejected as such. */
  lemma OneWordLine(line: string)
    requires |line| > 6 && StartsSolid(line) && EndsSolid(line) && ' ' !in line
    ensures ParseRequest(line) == Invalid(UnknownCommand(Lower(line)))
  {
    TrimOfSolid(line);
    FindIs(line, ' ', |line|);
    assert line[..|line|] == line;
    hide Trim, Find, Lower, Remainder;
    LongWordIsUnknown(Command(line));
  }

  lemma LongWordIsUnknown(command: string)
    requires |command| > 6
    ensures VerbOf(command) == OtherVerb
  {
  }

  /** A one-word line of 4095 letters is rejected with a reply too long for one message. */
  lemma LongCommandReplyIsTruncated(store: KvStore)
    requires BoundedStore(store)
    ensures var line := Letters(MSG_SIZE - 1);
            |line| + 1 <= MSG_SIZE && |Execute(store, line).1| > MSG_SIZE
  {
    var line := Letters(MSG_SIZE - 1);
    OneWordLine(line);
    hide Letters, ParseRequest, Execute;
    ReplyFits(store, line);
  }

  // ---------------------------------------------------------------------------
  // Whole sequences
  // ---------------------------------------------------------------------------

  /** The two-sided server's store and replies for a sequence of messages. */
  function MessagesStore(store: KvStore, messages: seq<string>): KvStore {
    if messages == [] then store
    else ExecuteMessage(MessagesStore(store, messages[..|messages| - 1]), messages[|messages| - 1]).0
  }

  function MessagesReplies(store: KvStore, messages: seq<string>): (r: seq<string>)
    ensures |r| == |messages|
  {
    if messages == [] then []
    else
      var before := messages[..|messages| - 1];
      MessagesReplies(store, before) + [ExecuteMessage(MessagesStore(store, before), messages[|messages| - 1]).1]
  }

  /** The messages a two-sided client sends for its lines. */
  function Messages(lines: seq<string>): (m: seq<string>)
    ensures |m| == |lines| && forall i :: 0 <= i < |lines| ==> m[i] == Truncated(lines[i] + "\n")
  {
    seq(|lines|, i requires 0 <= i < |lines| => Truncated(lines[i] + "\n"))
  }

  /** For lines that fit, TCP and two-sided RDMA give the same replies and leave the same store. */
  lemma {:induction false} TransportsAgree(store: KvStore, lines: seq<string>)
    requires forall i :: 0 <= i < |lines| ==> |lines[i]| < MSG_SIZE
    ensures MessagesStore(store, Messages(lines)) == StoreAfter(store, lines)
    ensures MessagesReplies(store, Messages(lines)) == Replies(store, lines)
  {
    hide Execute, ExecuteMessage, Truncated;
    if lines != [] {
      var before, last := lines[..|lines| - 1], lines[|lines| - 1];
      TransportsAgree(store, before);
      assert Messages(lines)[..|lines| - 1] == Messages(before);
      DispatchersAgree(StoreAfter(store, before), last);
    }
  }

  /** Over any sequence of messages that fit, no stored value and no VALUE reply outgrows a message. */
  lemma {:induction false} StoreStaysBounded(store: KvStore, lines: seq<string>)
    requires BoundedStore(store)
    requires forall i :: 0 <= i < |lines| ==> |lines[i]| + 1 <= MSG_SIZE
    ensures BoundedStore(StoreAfter(store, lines))
  {
    if lines != [] {
      StoreStaysBounded(store, lines[..|lines| - 1]);
      ReplyFits(StoreAfter(store, lines[..|lines| - 1]), lines[|lines| - 1]);
    }
  }
}
