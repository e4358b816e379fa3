/** Cutting a byte stream into newline-terminated lines, and putting lines together again. */
module Framing {
  import opened TextProtocol
  import opened LineIo

  /** The bytes of a sequence of lines, each with its newline. */
  function Joined(lines: seq<string>): string {
    if lines == [] then "" else Joined(lines[..|lines| - 1]) + lines[|lines| - 1] + "\n"
  }

  predicate NewlineFree(lines: seq<string>) {
    forall i :: 0 <= i < |lines| ==> '\n' !in lines[i]
  }

  /** The complete lines of a byte stream, and what follows the last newline. */
  function Split(bytes: string): (r: (seq<string>, string))
    ensures NewlineFree(r.0) && '\n' !in r.1
  {
    var n := Find(bytes, '\n');
    if n == |bytes| then ([], bytes)
    else
      var (lines, rest) := Split(bytes[n + 1..]);
      ([bytes[..n]] + lines, rest)
  }

  lemma FirstLine(line: string, tail: string)
    requires '\n' !in line
    ensures Split(line + "\n" + tail) == ([line] + Split(tail).0, Split(tail).1)
  {
    var bytes := line + "\n" + tail;
    assert forall i :: 0 <= i < |line| ==> bytes[i] == line[i] && line[i] in line;
    FindIs(bytes, '\n', |line|);
    assert bytes[..|line|] == line && bytes[|line| + 1..] == tail;
  }

  /** Splitting undoes joining, and carries on with what follows. */
  lemma {:induction false} SplitOfJoined(lines: seq<string>, tail: string)
    requires NewlineFree(lines)
    ensures Split(Joined(lines) + tail) == (lines + Split(tail).0, Split(tail).1)
  {
    hide Split;
    if lines == [] {
      assert Joined(lines) + tail == tail;
      assert lines + Split(tail).0 == Split(tail).0;
    } else {
      var before, last := lines[..|lines| - 1], lines[|lines| - 1];
      FirstLine(last, tail);
      SplitOfJoined(before, last + "\n" + tail);
      assert Joined(before) + (last + "\n" + tail) == Joined(lines) + tail;
      RegroupLines(lines, Split(tail).0);
    }
  }

  lemma RegroupLines(lines: seq<string>, more: seq<string>)
    requires lines != []
    ensures lines[..|lines| - 1] + ([lines[|lines| - 1]] + more) == lines + more
  {
  }

  /** A stream made of whole lines and a rest without newline splits into exactly those. */
  lemma SplitIsUnique(lines: seq<string>, rest: string)
    requires NewlineFree(lines) && '\n' !in rest
    ensures Split(Joined(lines) + rest) == (lines, rest)
  {
    SplitOfJoined(lines, rest);
    FindIs(rest, '\n', |rest|);
    assert Split(rest) == ([], rest);
    assert lines + [] == lines;
  }

  lemma {:induction false} ConcatAppend(parts: seq<string>, last: string)
    ensures Concat(parts + [last]) == Concat(parts) + last
  {
    if parts == [] {
      assert parts + [last] == [last];
      assert Concat([last][1..]) == "";
    } else {
      ConcatAppend(parts[1..], last);
      assert (parts + [last])[1..] == parts[1..] + [last];
    }
  }
}
