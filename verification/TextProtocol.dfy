/** The line protocol: parsing a request line and printing a reply. A `char` stands for one byte. */
module TextProtocol {

  // ---------------------------------------------------------------------------
  // Text helpers
  // ---------------------------------------------------------------------------

  /** `isspace` in the C locale. */
  predicate IsSpace(c: char) {
    c == ' ' || 9 <= c as int <= 13
  }

  /** The white space of the C locale: space, tab, newline, vertical tab, form feed, carriage return. */
  lemma SpacesAre(c: char)
    ensures IsSpace(c) <==> c in [' ', '\t', '\n', '\r', 11 as char, 12 as char]
  {
  }

  function TrimLeft(s: string): (r: string)
    ensures |r| <= |s| && r == s[|s| - |r|..]
    ensures r != "" ==> !IsSpace(r[0])
    ensures forall i :: 0 <= i < |s| - |r| ==> IsSpace(s[i])
  {
    if s != "" && IsSpace(s[0]) then TrimLeft(s[1..]) else s
  }

  function TrimRight(s: string): (r: string)
    ensures |r| <= |s| && r == s[..|r|]
    ensures r != "" ==> !IsSpace(r[|r| - 1])
    ensures forall i :: |r| <= i < |s| ==> IsSpace(s[i])
  {
    if s != "" && IsSpace(s[|s| - 1]) then TrimRight(s[..|s| - 1]) else s
  }

  function Trim(s: string): string {
    TrimRight(TrimLeft(s))
  }

  function ToLower(c: char): char {
    if 'A' <= c <= 'Z' then c + 32 as char else c
  }

  function Lower(s: string): (r: string)
    ensures |r| == |s| && forall i :: 0 <= i < |s| ==> r[i] == ToLower(s[i])
  {
    seq(|s|, i requires 0 <= i < |s| => ToLower(s[i]))
  }

  /** Position of the first `c`, or the length. */
  function Find(s: string, c: char): (n: nat)
    ensures n <= |s|
    ensures forall i :: 0 <= i < n ==> s[i] != c
    ensures n < |s| ==> s[n] == c
  {
    if s == "" || s[0] == c then 0 else 1 + Find(s[1..], c)
  }

  lemma FindIs(s: string, c: char, n: nat)
    requires n <= |s| && (forall i :: 0 <= i < n ==> s[i] != c) && (n < |s| ==> s[n] == c)
    ensures Find(s, c) == n
  {
  }

  method TrimLeftLoop(text: string) returns (r: string)
    ensures r == TrimLeft(text)
  {
    var start := 0;
    while start < |text| && IsSpace(text[start])
      invariant start <= |text|
      invariant TrimLeft(text[start..]) == TrimLeft(text)
    {
      start := start + 1;
    }
    r := text[start..];
  }

  method TrimRightLoop(text: string) returns (r: string)
    ensures r == TrimRight(text)
  {
    hide IsSpace;
    if text == "" {
      return "";
    }
    var end := |text|;
    while end > 0 && IsSpace(text[end - 1])
      invariant 0 <= end <= |text|
      invariant TrimRight(text[..end]) == TrimRight(text)
    {
      assert text[..end][..end - 1] == text[..end - 1];
      end := end - 1;
    }
    r := text[..end];
  }

  method LowerCopy(text: string) returns (r: string)
    ensures r == Lower(text)
  {
    r := text;
    for i := 0 to |text|
      invariant |r| == |text|
      invariant forall j :: 0 <= j < i ==> r[j] == ToLower(text[j])
      invariant forall j :: i <= j < |text| ==> r[j] == text[j]
    {
      r := r[i := ToLower(r[i])];
    }
  }

  // ---------------------------------------------------------------------------
  // Requests
  // ---------------------------------------------------------------------------

  /** The ways a line can be rejected. */
  datatype ParseError =
    | EmptyRequest
    | GetRequiresKey
    | GetOneKey
    | DelRequiresKey
    | DelOneKey
    | SetRequiresKeyAndValue
    | SetEmptyKey
    | SetEmptyValue
    | UnknownCommand(command: string)

  function Message(e: ParseError): string {
    match e
    case EmptyRequest => "empty request"
    case GetRequiresKey => "GET requires a key"
    case GetOneKey => "GET accepts exactly one key"
    case DelRequiresKey => "DEL requires a key"
    case DelOneKey => "DEL accepts exactly one key"
    case SetRequiresKeyAndValue => "SET requires a key and a value"
    case SetEmptyKey => "SET requires a non-empty key"
    case SetEmptyValue => "SET requires a non-empty value"
    case UnknownCommand(command) => "unknown command: " + command
  }

  datatype Request =
    | Get(key: string)
    | Set(key: string, value: string)
    | Del(key: string)
    | Quit
    | Invalid(error: ParseError)

  datatype Verb = GetVerb | SetVerb | DelVerb | QuitVerb | OtherVerb

  /** Which command a lower-cased first word names. */
  function VerbOf(command: string): Verb {
    if command == "get" then GetVerb
    else if command == "del" || command == "delete" then DelVerb
    else if command == "set" then SetVerb
    else if command == "quit" || command == "exit" then QuitVerb
    else OtherVerb
  }

  /** The lower-cased first word of a trimmed line. */
  function Command(cleaned: string): string {
    Lower(cleaned[..Find(cleaned, ' ')])
  }

  /** What follows the first word and the spaces after it. */
  function Remainder(cleaned: string): string {
    var n := Find(cleaned, ' ');
    if n == |cleaned| then "" else TrimLeft(cleaned[n + 1..])
  }

  function ParseSet(remainder: string): Request {
    var n := Find(remainder, ' ');
    if n == |remainder| then Invalid(SetRequiresKeyAndValue)
    else
      var key, value := remainder[..n], TrimLeft(remainder[n + 1..]);
      if key == "" then Invalid(SetEmptyKey)
      else if value == "" then Invalid(SetEmptyValue)
      else Set(key, value)
  }

  function Build(verb: Verb, command: string, remainder: string): Request {
    match verb
    case GetVerb =>
      if remainder == "" then Invalid(GetRequiresKey)
      else if ' ' in remainder then Invalid(GetOneKey)
      else Get(remainder)
    case DelVerb =>
      if remainder == "" then Invalid(DelRequiresKey)
      else if ' ' in remainder then Invalid(DelOneKey)
      else Del(remainder)
    case SetVerb => ParseSet(remainder)
    case QuitVerb => Quit
    case OtherVerb => Invalid(UnknownCommand(command))
  }

  function ParseRequest(line: string): Request {
    var cleaned := Trim(line);
    if cleaned == "" then Invalid(EmptyRequest)
    else Build(VerbOf(Command(cleaned)), Command(cleaned), Remainder(cleaned))
  }

  /** The parser as it runs, with its helper loops and early returns. */
  method Parse(line: string) returns (request: Request)
    ensures request == ParseRequest(line)
  {
    hide TrimLeft, TrimRight, Find, Lower;
    var left := TrimLeftLoop(line);
    var cleaned := TrimRightLoop(left);
    if cleaned == "" {
      return Invalid(EmptyRequest);
    }
    var firstSpace := Find(cleaned, ' ');
    var command := LowerCopy(cleaned[..firstSpace]);
    var remainder := "";
    if firstSpace != |cleaned| {
      remainder := TrimLeftLoop(cleaned[firstSpace + 1..]);
    }
    assert command == Command(cleaned) && remainder == Remainder(cleaned);
    if command == "get" {
      if remainder == "" {
        return Invalid(GetRequiresKey);
      }
      if ' ' in remainder {
        return Invalid(GetOneKey);
      }
      return Get(remainder);
    }
    if command == "del" || command == "delete" {
      if remainder == "" {
        return Invalid(DelRequiresKey);
      }
      if ' ' in remainder {
        return Invalid(DelOneKey);
      }
      return Del(remainder);
    }
    if command == "set" {
      request := ParseSetArguments(remainder);
      return;
    }
    if command == "quit" || command == "exit" {
      return Quit;
    }
    return Invalid(UnknownCommand(command));
  }

  method ParseSetArguments(remainder: string) returns (request: Request)
    ensures request == ParseSet(remainder)
  {
    hide TrimLeft, Find;
    var keyEnd := Find(remainder, ' ');
    if keyEnd == |remainder| {
      return Invalid(SetRequiresKeyAndValue);
    }
    var key := remainder[..keyEnd];
    var value := TrimLeftLoop(remainder[keyEnd + 1..]);
    if key == "" {
      return Invalid(SetEmptyKey);
    }
    if value == "" {
      return Invalid(SetEmptyValue);
    }
    return Set(key, value);
  }

  // ---------------------------------------------------------------------------
  // Canonical form
  // ---------------------------------------------------------------------------

  /** The canonical line of a valid request. */
  function Print(r: Request): string
    requires !r.Invalid?
  {
    match r
    case Get(k) => "GET " + k
    case Set(k, v) => "SET " + k + " " + v
    case Del(k) => "DEL " + k
    case Quit => "QUIT"
  }

  predicate StartsSolid(s: string) { s != "" && !IsSpace(s[0]) }

  predicate EndsSolid(s: string) { s != "" && !IsSpace(s[|s| - 1]) }

  /** The requests that some line can ask for. */
  predicate Canonical(r: Request) {
    match r
    case Get(k) => StartsSolid(k) && EndsSolid(k) && ' ' !in k
    case Del(k) => StartsSolid(k) && EndsSolid(k) && ' ' !in k
    case Set(k, v) => StartsSolid(k) && ' ' !in k && StartsSolid(v) && EndsSolid(v)
    case Quit => true
    case Invalid(_) => false
  }

  lemma TrimOfSolid(s: string)
    requires StartsSolid(s) && EndsSolid(s)
    ensures Trim(s) == s && TrimLeft(s) == s
  {
  }

  /** A trimmed line, unless empty, starts and ends with a non-space. */
  lemma CleanedIsSolid(line: string)
    ensures var c := Trim(line); c != "" ==> StartsSolid(c) && EndsSolid(c) && |c| <= |line|
  {
    hide IsSpace;
    var left, c := TrimLeft(line), Trim(line);
    if c != "" {
      assert c[0] == left[0];
    }
  }

  /** What follows the command in a line that ends solid is empty or solid at both ends. */
  lemma RemainderIsSolid(c: string)
    requires EndsSolid(c)
    ensures var r := Remainder(c);
            r != "" ==> StartsSolid(r) && EndsSolid(r) && |Command(c)| + 1 + |r| <= |c|
  {
    hide IsSpace;
    var n := Find(c, ' ');
    var r := Remainder(c);
    if r != "" {
      var rest := c[n + 1..];
      assert r[|r| - 1] == rest[|rest| - 1] == c[|c| - 1];
    }
  }

  /** The value part of a solid remainder is never blank. */
  lemma ValueIsSolid(rem: string)
    requires StartsSolid(rem) && EndsSolid(rem) && Find(rem, ' ') < |rem|
    ensures var n := Find(rem, ' ');
            var v := TrimLeft(rem[n + 1..]);
            n > 0 && StartsSolid(v) && EndsSolid(v) && n + 1 + |v| <= |rem|
  {
    assert IsSpace(' ');
    hide IsSpace, Find;
    var n := Find(rem, ' ');
    var rest := rem[n + 1..];
    assert rest[|rest| - 1] == rem[|rem| - 1];
    var v := TrimLeft(rest);
    assert v != "";
    assert v[|v| - 1] == rest[|rest| - 1];
  }

  /** What a valid or rejected SET amounts to, given a solid remainder. */
  lemma ParseSetIs(rem: string)
    requires rem == "" || (StartsSolid(rem) && EndsSolid(rem))
    ensures var r := ParseSet(rem);
            if Find(rem, ' ') == |rem| then r == Invalid(SetRequiresKeyAndValue)
            else r.Set? && Canonical(r) && |r.key| + 1 + |r.value| <= |rem|
  {
    var n := Find(rem, ' ');
    if n < |rem| {
      ValueIsSolid(rem);
      assert rem[..n][0] == rem[0];
    }
  }

  /** What the parser builds from a line that is not blank. */
  lemma BuildIs(line: string)
    requires Trim(line) != ""
    ensures var c := Trim(line);
            var r := ParseRequest(line);
            && (VerbOf(Command(c)) == SetVerb ==> r == Invalid(SetRequiresKeyAndValue) || r.Set?)
            && (!r.Invalid? ==> Canonical(r))
            && (r.Get? || r.Del? ==> |Command(c)| + 1 + |r.key| <= |line|)
            && (r.Set? ==> |Command(c)| + 1 + |r.key| + 1 + |r.value| <= |line|)
            && (!r.Invalid? ==> VerbOf(Command(c)) != OtherVerb)
            && (r.Quit? ==> VerbOf(Command(c)) == QuitVerb)
            && |Command(c)| <= |line|
  {
    hide VerbOf, TrimLeft, TrimRight, Trim, Find, StartsSolid, EndsSolid;
    var c := Trim(line);
    CleanedIsSolid(line);
    RemainderIsSolid(c);
    ParseSetIs(Remainder(c));
  }

  /** Every line that parses to a valid request yields a canonical one. */
  lemma ParsedIsCanonical(line: string)
    requires !ParseRequest(line).Invalid?
    ensures Canonical(ParseRequest(line))
  {
    BuildIs(line);
  }

  /** The "non-empty key" and "non-empty value" rejections cannot be reached on any line. */
  lemma EmptyPartRejectionsUnreachable(line: string)
    ensures ParseRequest(line) != Invalid(SetEmptyKey)
    ensures ParseRequest(line) != Invalid(SetEmptyValue)
  {
    hide VerbOf, Trim, ParseSet;
    if Trim(line) != "" {
      BuildIs(line);
    }
  }

  /** A line of a three-letter command, one space and a solid argument splits there. */
  lemma SplitPrinted(word: string, arg: string)
    requires |word| == 3 && StartsSolid(word) && ' ' !in word && StartsSolid(arg) && EndsSolid(arg)
    ensures var line := word + " " + arg;
            Trim(line) == line && Command(line) == Lower(word) && Remainder(line) == arg
  {
    var line := word + " " + arg;
    assert line[|line| - 1] == arg[|arg| - 1];
    TrimOfSolid(line);
    assert line[..3] == word;
    FindIs(line, ' ', 3);
    assert line[4..] == arg;
  }

  lemma PrintedVerbs()
    ensures VerbOf(Lower("GET")) == GetVerb && VerbOf(Lower("SET")) == SetVerb
    ensures VerbOf(Lower("DEL")) == DelVerb && VerbOf(Lower("QUIT")) == QuitVerb
  {
    assert Lower("GET") == "get";
    assert Lower("SET") == "set";
    assert Lower("DEL") == "del";
    assert Lower("QUIT") == "quit";
  }

  lemma SetArgumentsSplit(k: string, v: string)
    requires Canonical(Set(k, v))
    ensures ParseSet(k + " " + v) == Set(k, v)
  {
    var rem := k + " " + v;
    assert rem[..|k|] == k && rem[|k|] == ' ' && rem[|k| + 1..] == v;
    FindIs(rem, ' ', |k|);
    TrimOfSolid(v);
  }

  lemma PrintThenParseSet(k: string, v: string)
    requires Canonical(Set(k, v))
    ensures ParseRequest("SET " + k + " " + v) == Set(k, v)
  {
    hide VerbOf, Trim, Lower, Command, Remainder, ParseSet, Find, TrimLeft;
    var rem := k + " " + v;
    assert "SET " + k + " " + v == "SET" + " " + rem;
    assert rem[|rem| - 1] == v[|v| - 1];
    SplitPrinted("SET", rem);
    PrintedVerbs();
    SetArgumentsSplit(k, v);
  }

  lemma PrintThenParseGet(k: string)
    requires Canonical(Get(k))
    ensures ParseRequest("GET " + k) == Get(k)
  {
    hide VerbOf, Trim, Lower, ParseSet, Command, Remainder, Find;
    PrintedVerbs();
    assert "GET " + k == "GET" + " " + k;
    SplitPrinted("GET", k);
  }

  lemma PrintThenParseDel(k: string)
    requires Canonical(Del(k))
    ensures ParseRequest("DEL " + k) == Del(k)
  {
    hide VerbOf, Trim, Lower, ParseSet, Command, Remainder, Find;
    PrintedVerbs();
    assert "DEL " + k == "DEL" + " " + k;
    SplitPrinted("DEL", k);
  }

  lemma QuitParses()
    ensures ParseRequest("QUIT") == Quit
  {
    hide VerbOf, ParseSet, Trim;
    PrintedVerbs();
    TrimOfSolid("QUIT");
    FindIs("QUIT", ' ', 4);
    assert "QUIT"[..4] == "QUIT";
  }

  /** Printing a canonical request and parsing the line gives the request back. */
  lemma PrintThenParse(r: Request)
    requires Canonical(r)
    ensures ParseRequest(Print(r)) == r
  {
    hide ParseRequest, Canonical;
    match r
    case Get(k) => PrintThenParseGet(k);
    case Del(k) => PrintThenParseDel(k);
    case Set(k, v) => PrintThenParseSet(k, v);
    case Quit => QuitParses();
    case Invalid(_) => NotCanonical(r);
  }

  lemma NotCanonical(r: Request)
    requires r.Invalid?
    ensures !Canonical(r)
  {
  }

  /** The valid requests the parser can produce are exactly the canonical ones, and printing is a right inverse. */
  lemma CanonicalForm(r: Request)
    ensures Canonical(r) <==> !r.Invalid? && exists line :: ParseRequest(line) == r
  {
    hide ParseRequest, Print;
    if Canonical(r) {
      PrintThenParse(r);
    } else if !r.Invalid? {
      forall line | ParseRequest(line) == r
        ensures false
      {
        ParsedIsCanonical(line);
      }
    }
  }

  // ---------------------------------------------------------------------------
  // Sizes and newlines
  // ---------------------------------------------------------------------------

  lemma VerbLengths(command: string)
    ensures VerbOf(command) != OtherVerb ==> |command| >= 3
    ensures VerbOf(command) == QuitVerb ==> |command| == 4
  {
  }

  /** The parts of a valid request leave room on the line for the command and the separating spaces. */
  lemma PartsFitLine(line: string)
    requires !ParseRequest(line).Invalid?
    ensures match ParseRequest(line)
            case Get(k) => |k| + 4 <= |line|
            case Del(k) => |k| + 4 <= |line|
            case Set(k, v) => |k| + |v| + 5 <= |line|
            case Quit => |line| >= 4
  {
    hide VerbOf, Command, Remainder, Canonical, Build;
    BuildIs(line);
    VerbLengths(Command(Trim(line)));
  }

  /** Every byte of `r` occurs in `s`. */
  /** A SET line without a byte to spare: command, key and value, with single spaces between. */
  predicate IsTightSet(line: string, k: string, v: string) {
    && |line| == |k| + |v| + 5
    && Lower(line[..3]) == "set"
    && line[3..] == " " + k + " " + v
    && Canonical(Set(k, v))
  }

  /** How a line that parses to this SET divides up. */
  lemma SetParts(line: string, k: string, v: string)
    requires ParseRequest(line) == Set(k, v)
    ensures var c := Trim(line);
            && c != "" && |c| <= |line|
            && Command(c) == "set" && ParseSet(Remainder(c)) == Set(k, v)
            && |Remainder(c)| + 4 <= |c|
  {
    hide VerbOf, Trim, Command, Remainder, ParseSet, StartsSolid, EndsSolid;
    var c := Trim(line);
    assert Build(VerbOf(Command(c)), Command(c), Remainder(c)) == Set(k, v);
    SetVerbIsSet(Command(c));
    CleanedIsSolid(line);
    RemainderIsSolid(c);
    NothingToSet();
  }

  lemma NothingToSet()
    ensures ParseSet("").Invalid?
  {
  }

  lemma TrimsNothing(line: string)
    requires |Trim(line)| == |line|
    ensures Trim(line) == line
  {
  }

  /** A remainder four bytes shorter than its line, after a three-letter command. */
  lemma RemainderInPlace(c: string)
    requires |Command(c)| == 3 && |Remainder(c)| + 4 == |c|
    ensures c[3] == ' ' && Remainder(c) == c[4..] && Command(c) == Lower(c[..3])
  {
  }

  lemma SetSplits(rem: string, k: string, v: string)
    requires ParseSet(rem) == Set(k, v)
    ensures var n := Find(rem, ' '); n < |rem| && k == rem[..n] && v == TrimLeft(rem[n + 1..])
  {
    hide Find, TrimLeft;
  }

  lemma TrimsNoByte(s: string)
    requires |TrimLeft(s)| >= |s|
    ensures TrimLeft(s) == s
  {
    assert s[0..] == s;
  }

  lemma JoinAtSpace(s: string, n: nat)
    requires n < |s| && s[n] == ' '
    ensures s == s[..n] + " " + s[n + 1..]
  {
  }

  lemma SetInPlace(rem: string, k: string, v: string)
    requires ParseSet(rem) == Set(k, v) && |rem| <= |k| + 1 + |v|
    ensures rem == k + " " + v
  {
    hide IsSpace, ParseSet, Find, TrimLeft;
    SetSplits(rem, k, v);
    var n := Find(rem, ' ');
    TrimsNoByte(rem[n + 1..]);
    JoinAtSpace(rem, n);
  }

  lemma SetTakesRoom(rem: string, k: string, v: string)
    requires ParseSet(rem) == Set(k, v)
    ensures |k| + 1 + |v| <= |rem|
  {
    hide ParseSet, Find, TrimLeft;
    SetSplits(rem, k, v);
  }

  lemma SetIsTight(line: string, k: string, v: string)
    requires ParseRequest(line) == Set(k, v) && |line| <= |k| + |v| + 5
    ensures IsTightSet(line, k, v)
  {
    hide ParseRequest, Trim, Command, Remainder, ParseSet, Canonical, Lower;
    SetParts(line, k, v);
    SetTakesRoom(Remainder(Trim(line)), k, v);
    TrimsNothing(line);
    RemainderInPlace(line);
    SetInPlace(line[4..], k, v);
    ParsedIsCanonical(line);
    assert line[3..] == " " + line[4..];
    assert " " + (k + " " + v) == " " + k + " " + v;
  }

  lemma SetVerbIsSet(command: string)
    ensures VerbOf(command) == SetVerb <==> command == "set"
  {
  }

  lemma SetWord(word: string)
    requires Lower(word) == "set"
    ensures |word| == 3 && StartsSolid(word) && ' ' !in word
  {
    assert Lower(word)[0] == 's' && Lower(word)[1] == 'e' && Lower(word)[2] == 't';
  }

  lemma TightSetParses(line: string, k: string, v: string)
    requires IsTightSet(line, k, v)
    ensures ParseRequest(line) == Set(k, v)
  {
    hide VerbOf, Trim, Lower, Command, Remainder, ParseSet, IsSpace;
    var word, rem := line[..3], k + " " + v;
    assert line == word + " " + rem;
    assert rem[0] == k[0] && rem[|rem| - 1] == v[|v| - 1];
    SetWord(word);
    SplitPrinted(word, rem);
    SetVerbIsSet("set");
    SetArgumentsSplit(k, v);
  }

  /** Exactly the tight lines give a SET whose parts fill the line. */
  lemma TightSets(line: string, k: string, v: string)
    ensures ParseRequest(line) == Set(k, v) && |line| <= |k| + |v| + 5 <==> IsTightSet(line, k, v)
  {
    hide ParseRequest, IsTightSet;
    if ParseRequest(line) == Set(k, v) && |line| <= |k| + |v| + 5 {
      SetIsTight(line, k, v);
    }
    if IsTightSet(line, k, v) {
      TightSetParses(line, k, v);
      assert |line| <= |k| + |v| + 5 by { TightLength(line, k, v); }
    }
  }

  lemma TightLength(line: string, k: string, v: string)
    requires IsTightSet(line, k, v)
    ensures |line| == |k| + |v| + 5
  {
  }

  predicate BytesFrom(r: string, s: string) {
    forall x :: x in r ==> x in s
  }

  lemma TrimKeepsBytes(s: string)
    ensures BytesFrom(TrimLeft(s), s) && BytesFrom(TrimRight(s), s)
  {
  }

  lemma RemainderKeepsBytes(c: string)
    ensures BytesFrom(Remainder(c), c)
  {
    var n := Find(c, ' ');
    if n < |c| {
      TrimKeepsBytes(c[n + 1..]);
    }
  }

  lemma CommandHasNoNewline(c: string)
    requires '\n' !in c
    ensures '\n' !in Command(c)
  {
    var word := c[..Find(c, ' ')];
    assert forall i :: 0 <= i < |word| ==> word[i] in c;
  }

  lemma ParseSetKeepsBytes(rem: string)
    ensures ParseSet(rem).Set? ==> BytesFrom(ParseSet(rem).key, rem) && BytesFrom(ParseSet(rem).value, rem)
  {
    var n := Find(rem, ' ');
    if n < |rem| {
      TrimKeepsBytes(rem[n + 1..]);
    }
  }

  predicate NewlineFreeRequest(r: Request) {
    match r
    case Get(k) => '\n' !in k
    case Del(k) => '\n' !in k
    case Set(k, v) => '\n' !in k && '\n' !in v
    case Quit => true
    case Invalid(e) => '\n' !in Message(e)
  }

  lemma KeyMessagesHaveNoNewline(e: ParseError)
    requires e.GetRequiresKey? || e.GetOneKey? || e.DelRequiresKey? || e.DelOneKey?
    ensures '\n' !in Message(e)
  {
  }

  lemma SetMessagesHaveNoNewline(e: ParseError)
    requires e.EmptyRequest? || e.SetRequiresKeyAndValue? || e.SetEmptyKey? || e.SetEmptyValue?
    ensures '\n' !in Message(e)
  {
  }

  lemma MessageHasNoNewline(e: ParseError)
    requires e.UnknownCommand? ==> '\n' !in e.command
    ensures '\n' !in Message(e)
  {
    if e.UnknownCommand? {
      assert Message(e) == "unknown command: " + e.command;
    } else {
      hide Message;
      if e.GetRequiresKey? || e.GetOneKey? || e.DelRequiresKey? || e.DelOneKey? {
        KeyMessagesHaveNoNewline(e);
      } else {
        SetMessagesHaveNoNewline(e);
      }
    }
  }

  /** What the parser builds has no byte that its command word and remainder do not have. */
  lemma BuildKeepsNewlineFree(verb: Verb, command: string, remainder: string)
    requires '\n' !in command && '\n' !in remainder
    ensures NewlineFreeRequest(Build(verb, command, remainder))
  {
    hide Message, Find, TrimLeft;
    ParseSetKeepsBytes(remainder);
    var r := Build(verb, command, remainder);
    if r.Invalid? {
      MessageHasNoNewline(r.error);
    }
  }

  /** A newline-free line parses to newline-free parts. */
  lemma NewlineFreeParts(line: string)
    requires '\n' !in line
    ensures NewlineFreeRequest(ParseRequest(line))
  {
    hide Message, VerbOf, Build, Command, Remainder, NewlineFreeRequest;
    var c := Trim(line);
    TrimKeepsBytes(line);
    TrimKeepsBytes(TrimLeft(line));
    if c == "" {
      BlankIsNewlineFree();
    } else {
      CommandHasNoNewline(c);
      RemainderKeepsBytes(c);
      BuildKeepsNewlineFree(VerbOf(Command(c)), Command(c), Remainder(c));
    }
  }

  lemma BlankIsNewlineFree()
    ensures NewlineFreeRequest(Invalid(EmptyRequest))
  {
  }

  // ---------------------------------------------------------------------------
  // Replies
  // ---------------------------------------------------------------------------

  datatype Response = Ok | Value(payload: string) | NotFound | Error(message: string) | Bye

  function Serialize(r: Response): string {
    match r
    case Ok => "OK\n"
    case Value(payload) => "VALUE " + payload + "\n"
    case NotFound => "NOT_FOUND\n"
    case Error(message) => "ERROR " + message + "\n"
    case Bye => "BYE\n"
  }

  predicate NewlineFreeResponse(r: Response) {
    match r
    case Value(payload) => '\n' !in payload
    case Error(message) => '\n' !in message
    case _ => true
  }

  /** A reply line: one newline, at the end. */
  predicate IsLine(s: string) {
    s != "" && s[|s| - 1] == '\n' && '\n' !in s[..|s| - 1]
  }

  /** A serialized reply is one line exactly when its payload has no newline. */
  lemma ReplyIsLine(r: Response)
    ensures IsLine(Serialize(r)) <==> NewlineFreeResponse(r)
  {
    var s := Serialize(r);
    match r
    case Ok => assert s[..2] == "OK";
    case NotFound => assert s[..9] == "NOT_FOUND";
    case Bye => assert s[..3] == "BYE";
    case Value(p) => assert s[..|s| - 1] == "VALUE " + p;
    case Error(m) => assert s[..|s| - 1] == "ERROR " + m;
  }

  // ---------------------------------------------------------------------------
  // Reading a reply
  // ---------------------------------------------------------------------------

  datatype Reading = Understood(response: Response) | Garbled

  /** A reply as its reader tells the kinds apart: three fixed lines, and two prefixes before a payload. */
  function ReadReply(s: string): Reading {
    if s == "OK\n" then Understood(Ok)
    else if s == "NOT_FOUND\n" then Understood(NotFound)
    else if s == "BYE\n" then Understood(Bye)
    else if |s| < 7 || s[|s| - 1] != '\n' then Garbled
    else if s[..6] == "VALUE " then Understood(Value(s[6..|s| - 1]))
    else if s[..6] == "ERROR " then Understood(Error(s[6..|s| - 1]))
    else Garbled
  }

  lemma PayloadRead(prefix: string, payload: string)
    requires |prefix| == 6
    ensures var s := prefix + payload + "\n";
            |s| >= 7 && s[|s| - 1] == '\n' && s[..6] == prefix && s[6..|s| - 1] == payload
  {
  }

  lemma FixedRead()
    ensures ReadReply("OK\n") == Understood(Ok)
    ensures ReadReply("NOT_FOUND\n") == Understood(NotFound)
    ensures ReadReply("BYE\n") == Understood(Bye)
  {
  }

  lemma ValueRead(payload: string)
    ensures ReadReply("VALUE " + payload + "\n") == Understood(Value(payload))
  {
    var s := "VALUE " + payload + "\n";
    PayloadRead("VALUE ", payload);
    assert s[0] == 'V';
    assert "OK\n"[0] == 'O' && "NOT_FOUND\n"[0] == 'N' && "BYE\n"[0] == 'B';
  }

  lemma ErrorRead(payload: string)
    ensures ReadReply("ERROR " + payload + "\n") == Understood(Error(payload))
  {
    var s := "ERROR " + payload + "\n";
    PayloadRead("ERROR ", payload);
    assert s[0] == 'E';
    assert "OK\n"[0] == 'O' && "NOT_FOUND\n"[0] == 'N' && "BYE\n"[0] == 'B' && "VALUE "[0] == 'V';
    assert s[..6][0] == 'E';
  }

  /** Whatever the payload, reading a printed reply gives the response back. */
  lemma ReplyReadsBack(r: Response)
    ensures ReadReply(Serialize(r)) == Understood(r)
  {
    hide ReadReply;
    match r
    case Value(p) => ValueRead(p);
    case Error(m) => ErrorRead(m);
    case _ => FixedRead();
  }

  /** Different responses print differently. */
  lemma RepliesDiffer(r: Response, r': Response)
    requires Serialize(r) == Serialize(r')
    ensures r == r'
  {
    hide Serialize, ReadReply;
    ReplyReadsBack(r);
    ReplyReadsBack(r');
  }
}
