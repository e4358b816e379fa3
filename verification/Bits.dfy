/**
 Unsigned bit operations on naturals, and the fact the probe arithmetic rests on:
 masking with `n - 1` is reduction modulo `n` when `n` is a power of two.
 */
module Bits {

  /** Bitwise AND, least significant bit first. */
  function And(a: nat, b: nat): nat {
    if a == 0 || b == 0 then 0
    else 2 * And(a / 2, b / 2) + if a % 2 == 1 && b % 2 == 1 then 1 else 0
  }

  /** Bitwise XOR, least significant bit first. */
  function Xor(a: nat, b: nat): nat {
    if a == 0 then b
    else if b == 0 then a
    else 2 * Xor(a / 2, b / 2) + if a % 2 != b % 2 then 1 else 0
  }

  predicate PowerOfTwo(n: nat) {
    n == 1 || (n > 1 && n % 2 == 0 && PowerOfTwo(n / 2))
  }

  lemma MultiplesAreApart(n: nat, q: nat, q': nat)
    requires q < q'
    ensures q * n + n <= q' * n
  {
    var gap := q' - q - 1;
    assert q' * n == (q + 1 + gap) * n == q * n + n + gap * n;
  }

  /** A multiple of `n` plus a number below `n` determines both parts. */
  lemma QuotientUnique(n: nat, q: nat, r: nat, q': nat, r': nat)
    requires r < n && r' < n
    requires q * n + r == q' * n + r'
    ensures q == q' && r == r'
  {
    if q < q' {
      MultiplesAreApart(n, q, q');
    } else if q' < q {
      MultiplesAreApart(n, q', q);
    }
  }

  lemma Division(x: nat, n: nat) returns (q: nat, r: nat)
    requires n > 0
    ensures x == q * n + r && r < n && r == x % n
  {
    q, r := x / n, x % n;
  }

  lemma RemainderByHalves(x: nat, m: nat)
    requires m > 0
    ensures x % (2 * m) == 2 * ((x / 2) % m) + x % 2
  {
    var q, r := Division(x / 2, m);
    var q', r' := Division(x, 2 * m);
    assert q * (2 * m) == 2 * (q * m);
    QuotientUnique(2 * m, q, 2 * r + x % 2, q', r');
  }

  lemma {:induction false} MaskIsRemainder(x: nat, n: nat)
    requires PowerOfTwo(n)
    ensures And(x, n - 1) == x % n
  {
    if n > 1 {
      var m := n / 2;
      MaskIsRemainder(x / 2, m);
      RemainderByHalves(x, m);
      assert (n - 1) / 2 == m - 1 && (n - 1) % 2 == 1;
    }
  }

  /** The slot count of the shipped table. */
  lemma TableSizeIsPowerOfTwo()
    ensures PowerOfTwo(4096)
  {
    assert PowerOfTwo(16);
    assert PowerOfTwo(128);
    assert PowerOfTwo(1024);
  }
}
