/**
 Which request a line asks for, by how its first word is spelled: any mix of capitals and small
 letters of a command word is that command, and nothing else is.
 */
module Commands {
  import opened TextProtocol

  /** `w` is the small-letter word `c`, each letter written small or capital. */
  predicate Spells(w: string, c: string) {
    && |w| == |c|
    && forall i :: 0 <= i < |w| ==> w[i] == c[i] || w[i] as int + 32 == c[i] as int
  }

  predicate SmallLetters(c: string) {
    forall i :: 0 <= i < |c| ==> 'a' <= c[i] <= 'z'
  }

  /** `l` is `w` with each capital letter written small, and everything else unchanged. */
  predicate IsLowered(w: string, l: string) {
    && |l| == |w|
    && forall i :: 0 <= i < |w| ==>
         if 'A' <= w[i] <= 'Z' then l[i] as int == w[i] as int + 32 else l[i] == w[i]
  }

  predicate IsGet(w: string) { Spells(w, "get") }

  predicate IsDel(w: string) { Spells(w, "del") || Spells(w, "delete") }

  predicate IsSet(w: string) { Spells(w, "set") }

  predicate IsQuit(w: string) { Spells(w, "quit") || Spells(w, "exit") }

  lemma LowerSpells(w: string, c: string)
    requires SmallLetters(c)
    ensures Lower(w) == c <==> Spells(w, c)
  {
    if Spells(w, c) {
      assert forall i :: 0 <= i < |w| ==> ToLower(w[i]) == c[i];
    }
    if Lower(w) == c {
      assert forall i :: 0 <= i < |w| ==> ToLower(w[i]) == c[i];
    }
  }

  lemma LowerLowers(w: string)
    ensures IsLowered(w, Lower(w))
  {
  }

  lemma CommandWords()
    ensures SmallLetters("get") && SmallLetters("del") && SmallLetters("delete") && SmallLetters("set")
    ensures SmallLetters("quit") && SmallLetters("exit")
  {
  }

  /** The verb of a first word, by its spelling. */
  lemma VerbBySpelling(w: string)
    ensures VerbOf(Lower(w)) == GetVerb <==> IsGet(w)
    ensures VerbOf(Lower(w)) == DelVerb <==> IsDel(w)
    ensures VerbOf(Lower(w)) == SetVerb <==> IsSet(w)
    ensures VerbOf(Lower(w)) == QuitVerb <==> IsQuit(w)
  {
    hide Lower, Spells, SmallLetters;
    CommandWords();
    LowerSpells(w, "get");
    LowerSpells(w, "del");
    LowerSpells(w, "delete");
    LowerSpells(w, "set");
    LowerSpells(w, "quit");
    LowerSpells(w, "exit");
  }

  /** The first word of a line, as it is written. */
  function FirstWord(line: string): string {
    Trim(line)[..Find(Trim(line), ' ')]
  }

  /** What follows the first word and the white space after it. */
  function Arguments(line: string): string {
    Remainder(Trim(line))
  }

  /** A remainder divides into key, white space that starts with a space, and value. */
  predicate DividesInto(rem: string, k: string, v: string) {
    && |k| + |v| < |rem|
    && rem[..|k|] == k && ' ' !in k
    && rem[|k|] == ' ' && Blank(rem[|k|..|rem| - |v|])
    && rem[|rem| - |v|..] == v && StartsSolid(v)
  }

  predicate Blank(s: string) {
    forall i :: 0 <= i < |s| ==> IsSpace(s[i])
  }

  lemma SetDivides(rem: string)
    requires rem == "" || (StartsSolid(rem) && EndsSolid(rem))
    ensures ' ' !in rem ==> ParseSet(rem) == Invalid(SetRequiresKeyAndValue)
    ensures ' ' in rem ==> ParseSet(rem).Set? && DividesInto(rem, ParseSet(rem).key, ParseSet(rem).value)
  {
    hide IsSpace, TrimLeft, Find, DividesInto, StartsSolid, EndsSolid;
    var n := Find(rem, ' ');
    if ' ' in rem {
      assert n < |rem|;
      ValueIsSolid(rem);
      SetSpace(rem, n, TrimLeft(rem[n + 1..]));
      SolidIsNotEmpty(TrimLeft(rem[n + 1..]));
    }
  }

  lemma SetSpace(rem: string, n: nat, v: string)
    requires n < |rem| && rem[n] == ' ' && ' ' !in rem[..n]
    requires v == TrimLeft(rem[n + 1..]) && StartsSolid(v)
    ensures DividesInto(rem, rem[..n], v)
  {
    hide IsSpace, TrimLeft, Blank;
    var rest := rem[n + 1..];
    TrimmedPart(rest);
    var blanks := rest[..|rest| - |v|];
    BlankAfterSpace(blanks);
    GapAt(rem, n, |v|);
  }

  lemma GapAt(rem: string, n: nat, size: nat)
    requires n < |rem| && rem[n] == ' ' && size < |rem| - n
    ensures var rest := rem[n + 1..];
            rem[n..|rem| - size] == " " + rest[..|rest| - size] && rem[|rem| - size..] == rest[|rest| - size..]
  {
  }

  lemma TrimmedPart(s: string)
    ensures Blank(s[..|s| - |TrimLeft(s)|]) && s[|s| - |TrimLeft(s)|..] == TrimLeft(s)
  {
    hide IsSpace;
  }

  lemma BlankAfterSpace(s: string)
    requires Blank(s)
    ensures Blank(" " + s)
  {
  }

  /**
   The parser on every line, without its lower-casing: the spelling of the first word decides the
   command, and how many arguments follow decides the rejection.
   */
  lemma SpellingDecides(line: string)
    ensures Trim(line) == "" ==> ParseRequest(line) == Invalid(EmptyRequest)
    ensures Trim(line) != "" ==>
              var w, rem, r := FirstWord(line), Arguments(line), ParseRequest(line);
              if IsGet(w) then
                r == if rem == "" then Invalid(GetRequiresKey) else if ' ' in rem then Invalid(GetOneKey) else Get(rem)
              else if IsDel(w) then
                r == if rem == "" then Invalid(DelRequiresKey) else if ' ' in rem then Invalid(DelOneKey) else Del(rem)
              else if IsSet(w) then
                if ' ' in rem then r.Set? && DividesInto(rem, r.key, r.value) else r == Invalid(SetRequiresKeyAndValue)
              else if IsQuit(w) then r == Quit
              else r.Invalid? && r.error.UnknownCommand? && IsLowered(w, r.error.command)
  {
    hide Trim, Find, TrimLeft, Lower, VerbOf, ParseSet, Remainder, Spells, DividesInto, IsLowered, StartsSolid, EndsSolid;
    if Trim(line) != "" {
      var c := Trim(line);
      CleanedIsSolid(line);
      RemainderIsSolid(c);
      VerbBySpelling(FirstWord(line));
      LowerLowers(FirstWord(line));
      SetDivides(Remainder(c));
    }
  }

  // ---------------------------------------------------------------------------
  // Lines built from their parts
  // ---------------------------------------------------------------------------

  lemma {:induction false} TrimLeftIs(s: string, n: nat)
    requires n < |s| && Blank(s[..n]) && !IsSpace(s[n])
    ensures TrimLeft(s) == s[n..]
  {
    hide IsSpace;
    if n > 0 {
      assert s[..n][0] == s[0] && s[1..][..n - 1] == s[..n][1..];
      TrimLeftIs(s[1..], n - 1);
    } else {
      assert s[0..] == s;
    }
  }

  lemma {:induction false} TrimRightIs(s: string, n: nat)
    requires 0 < n <= |s| && Blank(s[n..]) && !IsSpace(s[n - 1])
    ensures TrimRight(s) == s[..n]
    decreases |s|
  {
    hide IsSpace;
    if n < |s| {
      var shorter := s[..|s| - 1];
      assert s[n..][|s| - 1 - n] == s[|s| - 1] && shorter[n..] == s[n..][..|s| - 1 - n];
      TrimRightIs(shorter, n);
    } else {
      assert s[..n] == s;
    }
  }

  /** White space around a text is trimmed off. */
  lemma TrimOfSurrounded(lead: string, c: string, trail: string)
    requires Blank(lead) && Blank(trail) && StartsSolid(c) && EndsSolid(c)
    ensures Trim(lead + c + trail) == c
  {
    hide IsSpace, TrimLeft, TrimRight;
    var s := lead + c + trail;
    assert s[..|lead|] == lead && s[|lead|] == c[0];
    TrimLeftIs(s, |lead|);
    var t := c + trail;
    assert s[|lead|..] == t;
    assert t[|c|..] == trail && t[|c| - 1] == c[|c| - 1];
    TrimRightIs(t, |c|);
    assert t[..|c|] == c;
  }

  /** A word, a gap that starts with a space, and arguments, with white space around them. */
  lemma LineDivides(lead: string, w: string, gap: string, args: string, trail: string)
    requires Blank(lead) && Blank(gap) && Blank(trail)
    requires StartsSolid(w) && ' ' !in w && gap != "" && gap[0] == ' ' && StartsSolid(args) && EndsSolid(args)
    ensures var line := lead + (w + gap + args) + trail;
            Trim(line) != "" && FirstWord(line) == w && Arguments(line) == args
  {
    hide TrimLeft, TrimRight, Trim, IsSpace, Find;
    var c := w + gap + args;
    assert c[0] == w[0] && c[|c| - 1] == args[|args| - 1];
    TrimOfSurrounded(lead, c, trail);
    assert c[..|w|] == w && c[|w|] == ' ';
    FindIs(c, ' ', |w|);
    assert c[|w| + 1..] == gap[1..] + args;
    GapTrimmed(gap[1..], args);
  }

  lemma GapTrimmed(gap: string, args: string)
    requires Blank(gap) && StartsSolid(args)
    ensures TrimLeft(gap + args) == args
  {
    hide IsSpace, TrimLeft;
    var rest := gap + args;
    assert rest[..|gap|] == gap && rest[|gap|] == args[0] && rest[|gap|..] == args;
    TrimLeftIs(rest, |gap|);
  }

  lemma LoneWord(lead: string, w: string, trail: string)
    requires Blank(lead) && Blank(trail) && StartsSolid(w) && EndsSolid(w) && ' ' !in w
    ensures var line := lead + w + trail;
            Trim(line) != "" && FirstWord(line) == w && Arguments(line) == ""
  {
    hide TrimLeft, TrimRight, Trim, IsSpace, Find;
    TrimOfSurrounded(lead, w, trail);
    FindIs(w, ' ', |w|);
    assert w[..|w|] == w;
  }

  lemma SpelledIsSolid(w: string, c: string)
    requires Spells(w, c) && SmallLetters(c) && c != ""
    ensures StartsSolid(w) && EndsSolid(w) && ' ' !in w
  {
    assert forall i :: 0 <= i < |w| ==> !IsSpace(w[i]);
  }

  lemma SpellsOne(w: string)
    ensures IsGet(w) ==> !IsDel(w) && !IsSet(w) && !IsQuit(w)
    ensures IsDel(w) ==> !IsSet(w) && !IsQuit(w)
    ensures IsSet(w) ==> !IsQuit(w)
  {
    hide Spells, VerbOf;
    VerbBySpelling(w);
  }

  lemma CommandIsSolid(w: string)
    requires IsGet(w) || IsDel(w) || IsSet(w) || IsQuit(w)
    ensures StartsSolid(w) && EndsSolid(w) && ' ' !in w
  {
    hide SmallLetters, StartsSolid, EndsSolid, Spells;
    CommandWords();
    if Spells(w, "get") { SpelledIsSolid(w, "get"); }
    if Spells(w, "del") { SpelledIsSolid(w, "del"); }
    if Spells(w, "delete") { SpelledIsSolid(w, "delete"); }
    if Spells(w, "set") { SpelledIsSolid(w, "set"); }
    if Spells(w, "quit") { SpelledIsSolid(w, "quit"); }
    if Spells(w, "exit") { SpelledIsSolid(w, "exit"); }
  }

  /** `get`, `del` or `delete` in any letters, white space, and a key: that request for that key. */
  lemma KeyCommands(lead: string, w: string, gap: string, k: string, trail: string)
    requires Blank(lead) && Blank(gap) && Blank(trail) && gap != "" && gap[0] == ' '
    requires Canonical(Get(k))
    ensures IsGet(w) ==> ParseRequest(lead + (w + gap + k) + trail) == Get(k)
    ensures IsDel(w) ==> ParseRequest(lead + (w + gap + k) + trail) == Del(k)
  {
    hide Spells, ParseRequest, FirstWord, Arguments, Blank, StartsSolid, EndsSolid, Trim;
    if IsGet(w) || IsDel(w) {
      CommandIsSolid(w);
      SpellsOne(w);
      LineDivides(lead, w, gap, k, trail);
      SpellingDecides(lead + (w + gap + k) + trail);
      SolidIsNotEmpty(k);
    }
  }

  lemma SolidIsNotEmpty(s: string)
    requires StartsSolid(s)
    ensures s != ""
  {
  }

  /** `set` in any letters, white space, a key, white space and a value: that request. */
  lemma SetCommand(lead: string, w: string, gap: string, k: string, gap': string, v: string, trail: string)
    requires Blank(lead) && Blank(gap) && Blank(gap') && Blank(trail)
    requires gap != "" && gap[0] == ' ' && gap' != "" && gap'[0] == ' '
    requires Canonical(Set(k, v)) && IsSet(w)
    ensures ParseRequest(lead + (w + gap + (k + gap' + v)) + trail) == Set(k, v)
  {
    hide Spells, ParseRequest, FirstWord, Arguments, Blank, StartsSolid, EndsSolid, Trim, IsSpace, DividesInto;
    var rem := k + gap' + v;
    CommandIsSolid(w);
    SpellsOne(w);
    ArgumentsAreSolid(k, gap', v);
    LineDivides(lead, w, gap, rem, trail);
    SpellingDecides(lead + (w + gap + rem) + trail);
    var r := ParseRequest(lead + (w + gap + rem) + trail);
    assert ' ' in rem by {
      assert rem[|k|] == ' ';
    }
    DivisionIsUnique(k, gap', v, r.key, r.value);
  }

  lemma ArgumentsAreSolid(k: string, gap: string, v: string)
    requires StartsSolid(k) && EndsSolid(v)
    ensures StartsSolid(k + gap + v) && EndsSolid(k + gap + v)
  {
    var rem := k + gap + v;
    assert rem[0] == k[0] && rem[|rem| - 1] == v[|v| - 1];
  }

  /** The gap and the value that follow a key are found by looking for the space and trimming. */
  lemma DivisionFound(rem: string, k: string, v: string)
    requires DividesInto(rem, k, v)
    ensures Find(rem, ' ') == |k| && k == rem[..|k|] && v == TrimLeft(rem[|k| + 1..])
  {
    hide IsSpace;
    FindIs(rem, ' ', |k|);
    var rest, n := rem[|k| + 1..], |rem| - |v| - |k| - 1;
    assert rest[..n] == rem[|k|..|rem| - |v|][1..];
    assert rest[n..] == v && rest[n] == v[0];
    TrimLeftIs(rest, n);
  }

  lemma DivisionIsUnique(k: string, gap: string, v: string, k': string, v': string)
    requires ' ' !in k && Blank(gap) && gap != "" && gap[0] == ' ' && StartsSolid(v)
    requires DividesInto(k + gap + v, k', v')
    ensures k' == k && v' == v
  {
    var rem := k + gap + v;
    assert rem[|k|..|rem| - |v|] == gap && rem[..|k|] == k && rem[|rem| - |v|..] == v && rem[|k|] == ' ';
    assert DividesInto(rem, k, v);
    hide DividesInto;
    DivisionFound(rem, k, v);
    DivisionFound(rem, k', v');
  }

  /** `quit` or `exit` in any letters ends the session, whatever follows. */
  lemma QuitCommand(lead: string, w: string, gap: string, args: string, trail: string)
    requires Blank(lead) && Blank(gap) && Blank(trail) && gap != "" && gap[0] == ' '
    requires IsQuit(w) && StartsSolid(args) && EndsSolid(args)
    ensures ParseRequest(lead + w + trail) == Quit
    ensures ParseRequest(lead + (w + gap + args) + trail) == Quit
  {
    hide Spells, ParseRequest, FirstWord, Arguments, Blank, StartsSolid, EndsSolid, Trim;
    CommandIsSolid(w);
    SpellsOne(w);
    LoneWord(lead, w, trail);
    LineDivides(lead, w, gap, args, trail);
    SpellingDecides(lead + w + trail);
    SpellingDecides(lead + (w + gap + args) + trail);
  }

  /** The text of each rejection. */
  lemma RejectionTexts(word: string)
    ensures Message(EmptyRequest) == "empty request"
    ensures Message(GetRequiresKey) == "GET requires a key"
    ensures Message(GetOneKey) == "GET accepts exactly one key"
    ensures Message(DelRequiresKey) == "DEL requires a key"
    ensures Message(DelOneKey) == "DEL accepts exactly one key"
    ensures Message(SetRequiresKeyAndValue) == "SET requires a key and a value"
    ensures Message(UnknownCommand(word)) == "unknown command: " + word
  {
  }
}
