/** 32-bit FNV-1a and the layout of the shipped table. */
module Fnv {
  import opened Bits
  import opened ProbeTable

  const OFFSET_BASIS: nat := 2166136261
  const FNV_PRIME: nat := 16777619
  const UINT32_RANGE: nat := 0x1_0000_0000

  /** One byte folded in: XOR, then a multiplication that wraps at 32 bits. */
  function Mix(hash: nat, c: char): (h: nat)
    ensures h < UINT32_RANGE
  {
    (Xor(hash, c as nat) * FNV_PRIME) % UINT32_RANGE
  }

  /** The hash of a key, from its last byte back. */
  function Fnv1a(key: string): (h: nat)
    ensures h < UINT32_RANGE
  {
    if key == "" then OFFSET_BASIS else Mix(Fnv1a(key[..|key| - 1]), key[|key| - 1])
  }

  method Hash(key: string) returns (hash: nat)
    ensures hash == Fnv1a(key)
  {
    hash := OFFSET_BASIS;
    for i := 0 to |key|
      invariant hash == Fnv1a(key[..i])
    {
      assert key[..i + 1][..i] == key[..i];
      hash := Mix(hash, key[i]);
    }
    assert key[..|key|] == key;
  }

  const NUM_SLOTS: nat := 4096

  function ShippedLayout(): (g: Layout)
    ensures g.Valid()
  {
    TableSizeIsPowerOfTwo();
    Layout(NUM_SLOTS, Fnv1a)
  }

  /** The server's `slot_index` and the client's `fnv1a`: the mask acts as a modulus. */
  method SlotIndex(key: string) returns (idx: nat)
    ensures idx == ShippedLayout().Home(key) == Fnv1a(key) % NUM_SLOTS
    ensures idx < NUM_SLOTS
  {
    var hash := Hash(key);
    TableSizeIsPowerOfTwo();
    MaskIsRemainder(hash, NUM_SLOTS);
    idx := And(hash, NUM_SLOTS - 1);
  }

  /** A published FNV-1a test vector. */
  lemma HashOfSingleLetter()
    ensures Fnv1a("a") == 0xE40C292C
  {
    assert "a"[..0] == "";
    assert Xor(33845879, 1) == 33845878;
    assert Xor(67691758, 3) == 67691757;
    assert Xor(135383516, 6) == 135383514;
    assert Xor(270767032, 12) == 270767028;
    assert Xor(541534065, 24) == 541534057;
    assert Xor(1083068130, 48) == 1083068114;
    assert Xor(OFFSET_BASIS, 97) == 2166136228;
    assert Fnv1a("a") == Mix(Fnv1a(""), 'a');
  }

  /** XOR with a byte changes the last byte only. */
  lemma {:induction false} XorLow(high: nat, low: nat, c: nat, bits: nat)
    requires low < PowerTwo(bits) && c < PowerTwo(bits)
    ensures Xor(high * PowerTwo(bits) + low, c) == high * PowerTwo(bits) + Xor(low, c)
  {
    if bits > 0 {
      HalfOf(high, PowerTwo(bits - 1), low);
      XorLow(high, low / 2, c / 2, bits - 1);
    }
  }

  lemma HalfOf(high: nat, unit: nat, low: nat)
    ensures var a := high * (2 * unit) + low;
            a / 2 == high * unit + low / 2 && a % 2 == low % 2
  {
    assert high * (2 * unit) == 2 * (high * unit);
  }

  function PowerTwo(bits: nat): (p: nat)
    ensures p > 0
  {
    if bits == 0 then 1 else 2 * PowerTwo(bits - 1)
  }

  /** One byte more at the end of a key, by the halves of the hash that the byte does and does not touch. */
  lemma HashAppend(key: string, c: char, high: nat, low: nat)
    requires Fnv1a(key) == high * 256 + low && low < 256 && c as int < 256
    ensures Fnv1a(key + [c]) == (high * 256 + Xor(low, c as nat)) * FNV_PRIME % UINT32_RANGE
  {
    assert (key + [c])[..|key|] == key;
    assert PowerTwo(4) == 16 && PowerTwo(8) == 256;
    XorLow(high, low, c as nat, 8);
  }

  lemma FirstXor()
    ensures Xor(197, 102) == 163
  {
    assert Xor(3, 1) == 2;
    assert Xor(6, 3) == 5;
    assert Xor(12, 6) == 10;
    assert Xor(24, 12) == 20;
    assert Xor(49, 25) == 40;
    assert Xor(98, 51) == 81;
  }

  lemma SecondXor()
    ensures Xor(153, 111) == 246
  {
    assert Xor(2, 1) == 3;
    assert Xor(4, 3) == 7;
    assert Xor(9, 6) == 15;
    assert Xor(19, 13) == 30;
    assert Xor(38, 27) == 61;
    assert Xor(76, 55) == 123;
  }

  /** A published FNV-1a test vector of two bytes: the order of folding matters. */
  lemma HashOfTwoLetters()
    ensures Fnv1a("fo") == 0x6222E842
  {
    hide Fnv1a, Xor;
    FirstXor();
    SecondXor();
    EmptyHash();
    HashAppend("", 'f', 8461469, 197);
    assert "" + ['f'] == "f";
    HashAppend("f", 'o', 14879783, 153);
    assert "f" + ['o'] == "fo";
  }

  lemma EmptyHash()
    ensures Fnv1a("") == OFFSET_BASIS
  {
  }
}
