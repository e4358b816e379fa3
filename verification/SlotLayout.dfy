/** The bytes of one slot, and the cell they say. */
module SlotLayout {
  import opened CText
  import opened ProbeTable

  const KEY_MAX: nat := 112
  const VALUE_MAX: nat := 896

  /** One byte of state, seven of padding, an eight-byte counter, the key and the value. */
  lemma SlotTakesItsSize()
    ensures 1 + 7 + 8 + KEY_MAX == 128 && 128 + VALUE_MAX == 1024
  {
  }

  predicate LegalSizes(k: string, v: string) {
    |k| < KEY_MAX && |v| < VALUE_MAX
  }

  datatype Slot = Slot(occupied: nat, accessCount: nat, key: string, value: string) {
    predicate WellFormed() {
      && occupied <= 2
      && accessCount < COUNTER_RANGE
      && |key| == KEY_MAX
      && |value| == VALUE_MAX
      && (occupied == 1 ==> Stored(key) && Stored(value))
    }

    function Decode(): Cell {
      if occupied == 0 then Vacant
      else if occupied == 2 then Tombstone
      else Entry(CString(key), CString(value), accessCount)
    }
  }

  const ZEROED := Slot(0, 0, Padded("", KEY_MAX), Padded("", VALUE_MAX))

  /** A slot zeroed and then filled with an entry. */
  function Filled(k: Text, v: Text, count: nat): (s: Slot)
    requires LegalSizes(k, v) && count < COUNTER_RANGE
    ensures s.WellFormed() && s.Decode() == Entry(k, v, count)
  {
    StoreThenRead(k, KEY_MAX);
    StoreThenRead(v, VALUE_MAX);
    Slot(1, count, Padded(k, KEY_MAX), Padded(v, VALUE_MAX))
  }

  /** A well-formed live slot has no freedom left in its bytes: they are those of its entry, zero padded. */
  lemma LiveBytesAreTheEntry(s: Slot)
    requires s.WellFormed() && s.occupied == 1
    ensures LegalSizes(CString(s.key), CString(s.value))
    ensures s == Filled(CString(s.key), CString(s.value), s.accessCount)
  {
  }

  /** The two byte-level key tests agree on every live slot, for keys of any length. */
  lemma KeyTestsAgree(s: Slot, k: Text)
    requires s.WellFormed() && s.occupied == 1
    ensures StrncmpEqual(s.key, k, KEY_MAX, 0) <==> s.Decode().Holds(k)
  {
    StrncmpDecides(s.key, k);
  }

  /** The server's guard: is this slot live, and is it this key's? */
  lemma LiveKeyTest(s: Slot, k: Text)
    requires s.WellFormed()
    ensures s.occupied == 1 && StrncmpEqual(s.key, k, KEY_MAX, 0) <==> s.Decode().Holds(k)
  {
    if s.occupied == 1 {
      KeyTestsAgree(s, k);
    }
  }
}
