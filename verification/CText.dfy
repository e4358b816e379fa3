/**
 NUL-terminated text in fixed-size buffers, as the slot layout stores keys and values.
 A `char` stands for one byte.
 */
module CText {

  const NUL: char := '\0'

  /** Text with no NUL byte in it. */
  type Text = s: string | NUL !in s

  /** How many bytes precede the first NUL at or after position `i`. */
  function LengthFrom(buf: string, i: nat): (n: nat)
    requires i <= |buf|
    requires forall j :: 0 <= j < i ==> buf[j] != NUL
    ensures i <= n <= |buf|
    ensures forall j :: 0 <= j < n ==> buf[j] != NUL
    ensures n < |buf| ==> buf[n] == NUL
    decreases |buf| - i
  {
    if i == |buf| || buf[i] == NUL then i else LengthFrom(buf, i + 1)
  }

  /** The text a C string function sees in a buffer. */
  function CString(buf: string): Text {
    buf[..LengthFrom(buf, 0)]
  }

  /** What `memset` to zero followed by `memcpy` leaves in a buffer of `size` bytes. */
  function Padded(s: string, size: nat): (buf: string)
    requires |s| <= size
    ensures |buf| == size
  {
    s + seq(size - |s|, _ => NUL)
  }

  /** A buffer that holds a terminated text followed by zeros only. */
  predicate Stored(buf: string) {
    |CString(buf)| < |buf| && buf == Padded(CString(buf), |buf|)
  }

  lemma StoreThenRead(s: Text, size: nat)
    requires |s| < size
    ensures CString(Padded(s, size)) == s
    ensures Stored(Padded(s, size))
  {
    var buf := Padded(s, size);
    var n := LengthFrom(buf, 0);
    assert buf[|s|] == NUL;
    assert forall j :: 0 <= j < |s| ==> buf[j] == s[j] && s[j] in s;
    assert n == |s|;
  }

  /** Byte `i` of a text followed by its terminator. */
  function Terminated(key: Text, i: nat): char {
    if i < |key| then key[i] else NUL
  }

  /** `strncmp(buf, key, limit) == 0`, continued from byte `i`. */
  predicate StrncmpEqual(buf: string, key: Text, limit: nat, i: nat)
    requires i <= limit <= |buf|
    decreases limit - i
  {
    i == limit
    || (buf[i] == Terminated(key, i)
        && (buf[i] == NUL || StrncmpEqual(buf, key, limit, i + 1)))
  }

  lemma {:induction false} StrncmpFrom(buf: string, key: Text, i: nat)
    requires i <= |CString(buf)| < |buf|
    requires i <= |key| && buf[..i] == key[..i]
    ensures StrncmpEqual(buf, key, |buf|, i) <==> CString(buf) == key
    decreases |buf| - i
  {
    var n := |CString(buf)|;
    if i == n || i == |key| {
      assert CString(buf)[..i] == key[..i];
      if i < |key| {
        assert key[i] in key;
      }
    } else if buf[i] == key[i] {
      assert buf[..i + 1] == key[..i + 1];
      StrncmpFrom(buf, key, i + 1);
    } else {
      assert CString(buf)[i] != key[i];
    }
  }

  /** Bounded `strncmp` against a terminated buffer decides equality of texts, for keys of any length. */
  lemma StrncmpDecides(buf: string, key: Text)
    requires |CString(buf)| < |buf|
    ensures StrncmpEqual(buf, key, |buf|, 0) <==> CString(buf) == key
  {
    StrncmpFrom(buf, key, 0);
  }

  /** The client's own key test: measure the stored key, then compare lengths and bytes. */
  method SlotKeyEquals(slotKey: string, key: Text) returns (same: bool)
    ensures same <==> CString(slotKey) == key
  {
    var slotLen := 0;
    while slotLen < |slotKey| && slotKey[slotLen] != NUL
      invariant slotLen <= |slotKey|
      invariant forall j :: 0 <= j < slotLen ==> slotKey[j] != NUL
    {
      slotLen := slotLen + 1;
    }
    assert LengthFrom(slotKey, 0) == slotLen;
    same := slotLen == |key| && slotKey[..|key|] == key;
  }
}
