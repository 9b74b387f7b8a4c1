/** Type identifiers: the 64-bit FNV-1a hash of a type's name, as in section 2 of draft-eastlake-fnv. */
module Fnv {
  type Byte = c: nat | c < 256
  /** A name as the bytes of its characters. */
  type Name = seq<Byte>

  const MODULUS: nat := 0x1_0000_0000_0000_0000
  const BASIS: nat := 14695981039346656037
  const PRIME: nat := 1099511628211

  /** The inverse of the prime modulo 2^64, and by how many multiples of 2^64 the product exceeds 1. */
  const INVERSE: nat := 14886173955864302971
  const EXCESS: nat := (PRIME * INVERSE - 1) / MODULUS

  /** Exclusive or, bit by bit from the lowest; the shorter operand is widened with zeros. */
  function Xor(a: nat, b: nat): nat
    decreases a + b
  {
    if a == 0 && b == 0 then 0 else 2 * Xor(a / 2, b / 2) + (if a % 2 == b % 2 then 0 else 1)
  }

  function Times(h: nat, factor: nat): (r: nat)
    ensures r < MODULUS
  {
    h * factor % MODULUS
  }

  /** One byte is mixed in. */
  function Round(h: nat, c: Byte): (r: nat)
    ensures r < MODULUS
  {
    Times(Xor(h, c), PRIME)
  }

  function Back(h: nat, c: Byte): nat {
    Xor(Times(h, INVERSE), c)
  }

  function Hash(h: nat, name: Name): nat
    decreases |name|
  {
    if name == [] then h else Hash(Round(h, name[0]), name[1..])
  }

  /** `fnv1a`. */
  method Fnv1a(name: Name) returns (hash: nat)
    ensures hash == Hash(BASIS, name)
  {
    hash := BASIS;
    for i := 0 to |name|
      invariant Hash(hash, name[i..]) == Hash(BASIS, name)
    {
      assert name[i..][1..] == name[i + 1..];
      hash := Xor(hash, name[i]);
      hash := Times(hash, PRIME);
    }
  }

  // ---- One round is a permutation -------------------------------------------------------------

  lemma XorUnfold(a: nat, b: nat)
    ensures Xor(a, b) / 2 == Xor(a / 2, b / 2) && (Xor(a, b) % 2 == 0 <==> a % 2 == b % 2)
  {
  }

  lemma SameBits(a: nat, b: nat)
    requires a / 2 == b / 2 && (a % 2 == 0 <==> b % 2 == 0)
    ensures a == b
  {
  }

  lemma {:induction false} XorTwice(a: nat, b: nat)
    ensures Xor(Xor(a, b), b) == a
    decreases a + b
  {
    if a > 0 || b > 0 {
      XorTwice(a / 2, b / 2);
      XorUnfold(a, b);
      XorUnfold(Xor(a, b), b);
      SameBits(Xor(Xor(a, b), b), a);
    }
  }

  lemma {:induction false} XorSeparates(a: nat, b: nat, c: nat)
    requires Xor(a, b) == Xor(a, c)
    ensures b == c
    decreases a + b + c
  {
    if a > 0 || b > 0 || c > 0 {
      XorUnfold(a, b);
      XorUnfold(a, c);
      XorSeparates(a / 2, b / 2, c / 2);
      SameBits(b, c);
    }
  }

  function Power(n: nat): nat {
    if n == 0 then 1 else 2 * Power(n - 1)
  }

  lemma {:induction false} XorBounded(a: nat, b: nat, n: nat)
    requires a < Power(n) && b < Power(n)
    ensures Xor(a, b) < Power(n)
    decreases n
  {
    if n > 0 {
      XorBounded(a / 2, b / 2, n - 1);
    }
  }

  lemma XorInRange(h: nat, c: Byte)
    requires h < MODULUS
    ensures Xor(h, c) < MODULUS
  {
    ModulusIsPower();
    XorBounded(h, c, 64);
  }

  lemma ModulusIsPower()
    ensures Power(64) == MODULUS
  {
    assert Power(1) == 2;
    PowerAdd(1, 1);
    PowerAdd(2, 2);
    PowerAdd(4, 4);
    PowerAdd(8, 8);
    PowerAdd(16, 16);
    PowerAdd(32, 32);
  }

  lemma {:induction false} PowerAdd(m: nat, n: nat)
    ensures Power(m + n) == Power(m) * Power(n)
    decreases m
  {
    if m > 0 {
      PowerAdd(m - 1, n);
      assert Power(m + n) == 2 * Power(m - 1 + n);
      TwiceTimes(Power(m - 1), Power(n));
    }
  }

  lemma TwiceTimes(a: nat, b: nat)
    ensures (2 * a) * b == 2 * (a * b)
  {
  }

  lemma ModUnique(h: nat, m: nat, z: int)
    requires h < m
    ensures (h + m * z) % m == h
  {
    var x := h + m * z;
    var q := x / m;
    assert x == m * q + x % m;
    assert m * (z - q) == x % m - h;
    Small(m, z - q, x % m - h);
  }

  lemma Small(m: int, z: int, r: int)
    requires m * z == r && -m < r < m
    ensures r == 0
  {
    assert z >= 1 ==> m * z >= m;
    assert z <= -1 ==> m * z <= -m;
  }

  /** Multiplying by a unit and then by its inverse gives the state back. */
  lemma UnitsCancel(h: nat, p: nat, q: nat, m: nat, k: nat)
    requires h < m && p * q == k * m + 1
    ensures (h * p % m) * q % m == h
  {
    var d := h * p / m;
    assert h * p % m == h * p - d * m;
    calc {
      (h * p % m) * q;
      (h * p - d * m) * q;
      h * (p * q) - d * m * q;
      h * (k * m + 1) - d * m * q;
      h + m * (h * k - d * q);
    }
    ModUnique(h, m, h * k - d * q);
  }

  lemma PrimeIsUnit()
    ensures PRIME * INVERSE == EXCESS * MODULUS + 1
  {
  }

  lemma TimesCancels(h: nat)
    requires h < MODULUS
    ensures Times(Times(h, PRIME), INVERSE) == h && Times(Times(h, INVERSE), PRIME) == h
  {
    PrimeIsUnit();
    UnitsCancel(h, PRIME, INVERSE, MODULUS, EXCESS);
    UnitsCancel(h, INVERSE, PRIME, MODULUS, EXCESS);
  }

  /** For every byte, mixing it in is a bijection on the 64-bit states. */
  lemma RoundIsBijective(h: nat, c: Byte)
    requires h < MODULUS
    ensures Back(h, c) < MODULUS
    ensures Back(Round(h, c), c) == h && Round(Back(h, c), c) == h
  {
    XorInRange(h, c);
    TimesCancels(Xor(h, c));
    XorTwice(h, c);
    TimesCancels(h);
    XorInRange(Times(h, INVERSE), c);
    XorTwice(Times(h, INVERSE), c);
  }

  /** And from one state, different bytes lead to different states. */
  lemma RoundSeparates(h: nat, c: Byte, d: Byte)
    requires h < MODULUS
    ensures Round(h, c) == Round(h, d) <==> c == d
  {
    if Round(h, c) == Round(h, d) {
      XorInRange(h, c);
      XorInRange(h, d);
      TimesCancels(Xor(h, c));
      TimesCancels(Xor(h, d));
      XorSeparates(h, c, d);
    }
  }

  // ---- Names ----------------------------------------------------------------------------------

  lemma {:induction false} HashInRange(h: nat, name: Name)
    requires h < MODULUS
    ensures Hash(h, name) < MODULUS
    decreases |name|
  {
    if name != [] {
      HashInRange(Round(h, name[0]), name[1..]);
    }
  }

  lemma {:induction false} HashInTwo(h: nat, a: Name, b: Name)
    ensures Hash(h, a + b) == Hash(Hash(h, a), b)
    decreases |a|
  {
    if a == [] {
      assert a + b == b;
    } else {
      assert (a + b)[1..] == a[1..] + b;
      HashInTwo(Round(h, a[0]), a[1..], b);
    }
  }

  /** The rest of a name keeps states apart. */
  lemma {:induction false} HashIsInjective(h: nat, k: nat, name: Name)
    requires h < MODULUS && k < MODULUS && Hash(h, name) == Hash(k, name)
    ensures h == k
    decreases |name|
  {
    if name != [] {
      HashIsInjective(Round(h, name[0]), Round(k, name[0]), name[1..]);
      RoundIsBijective(h, name[0]);
      RoundIsBijective(k, name[0]);
    }
  }

  /** Names that differ in one character at most have the same identifier only if they are the same. */
  lemma OneCharacterDecides(before: Name, c: Byte, d: Byte, after: Name)
    ensures Hash(BASIS, before + [c] + after) == Hash(BASIS, before + [d] + after) <==> c == d
  {
    HashInTwo(BASIS, before + [c], after);
    HashInTwo(BASIS, before + [d], after);
    HashInTwo(BASIS, before, [c]);
    HashInTwo(BASIS, before, [d]);
    HashInRange(BASIS, before);
    var h := Hash(BASIS, before);
    OneByte(h, c);
    OneByte(h, d);
    if Hash(BASIS, before + [c] + after) == Hash(BASIS, before + [d] + after) {
      HashIsInjective(Round(h, c), Round(h, d), after);
    }
    RoundSeparates(h, c, d);
  }

  lemma OneByte(h: nat, c: Byte)
    ensures Hash(h, [c]) == Round(h, c)
  {
    assert [c][1..] == [];
  }

  /** Of two equally long names that differ at exactly one place, the identifiers differ. */
  lemma OneDifferenceSeparates(a: Name, b: Name, i: nat)
    requires |a| == |b| && i < |a| && a[i] != b[i]
    requires forall k :: 0 <= k < |a| && k != i ==> a[k] == b[k]
    ensures Hash(BASIS, a) != Hash(BASIS, b)
  {
    assert a[..i] == b[..i] && a[i + 1..] == b[i + 1..];
    assert a == a[..i] + [a[i]] + a[i + 1..];
    assert b == a[..i] + [b[i]] + a[i + 1..];
    OneCharacterDecides(a[..i], a[i], b[i], a[i + 1..]);
  }

  // ---- Published values -----------------------------------------------------------------------

  lemma {:induction false} XorZero(a: nat)
    ensures Xor(a, 0) == a
    decreases a
  {
    if a > 0 {
      XorZero(a / 2);
    }
  }

  /** The lowest bit of the operands decides that of the result, the others are independent of it. */
  lemma XorBit(a: nat, b: nat, x: nat, y: nat)
    requires x < 2 && y < 2
    ensures Xor(2 * a + x, 2 * b + y) == 2 * Xor(a, b) + if x == y then 0 else 1
  {
    assert (2 * a + x) / 2 == a && (2 * b + y) / 2 == b;
  }

  lemma XorLonger(x: nat, low: nat, c: nat)
    requires Xor(x + low / 2, c / 2) == x + Xor(low / 2, c / 2)
    ensures Xor(2 * x + low, c) == 2 * x + Xor(low, c)
  {
    var l, m, a, b := low / 2, c / 2, low % 2, c % 2;
    XorBit(x + l, m, a, b);
    XorBit(l, m, a, b);
    assert 2 * (x + l) + a == 2 * x + low && 2 * l + a == low && 2 * m + b == c;
  }

  function Shifted(q: nat, n: nat): nat {
    if n == 0 then q else 2 * Shifted(q, n - 1)
  }

  /** A short operand leaves the high bits alone. */
  lemma {:induction false} XorLow(q: nat, low: nat, c: nat, n: nat)
    requires low < Power(n) && c < Power(n)
    ensures Xor(Shifted(q, n) + low, c) == Shifted(q, n) + Xor(low, c)
    decreases n
  {
    if n == 0 {
      XorZero(q);
    } else {
      XorLow(q, low / 2, c / 2, n - 1);
      XorLonger(Shifted(q, n - 1), low, c);
    }
  }

  lemma XorByte(q: nat, low: nat, c: Byte)
    requires low < 256
    ensures Xor(256 * q + low, c) == 256 * q + Xor(low, c)
  {
    assert Power(8) == 256;
    assert Shifted(q, 2) == 2 * Shifted(q, 1) == 4 * q;
    assert Shifted(q, 4) == 2 * Shifted(q, 3) == 16 * q;
    assert Shifted(q, 6) == 2 * Shifted(q, 5) == 64 * q;
    assert Shifted(q, 8) == 2 * Shifted(q, 7) == 256 * q;
    XorLow(q, low, c, 8);
  }

  lemma RoundIs(h: nat, c: Byte, q: nat, low: nat, n: nat, r: nat)
    requires low < 256 && h == 256 * q + low && n == 256 * q + Xor(low, c) && n * PRIME % MODULUS == r
    ensures Round(h, c) == r
  {
    XorByte(q, low, c);
  }

  lemma LowBytes()
    ensures Xor(37, 97) == 68 && Xor(140, 98) == 238
  {
    assert Xor(0, 1) == 1 && Xor(1, 3) == 2 && Xor(2, 6) == 4 && Xor(4, 12) == 8 && Xor(9, 24) == 17 && Xor(18, 48) == 34;
    assert Xor(1, 0) == 1 && Xor(2, 1) == 3 && Xor(4, 3) == 7 && Xor(8, 6) == 14 && Xor(17, 12) == 29 && Xor(35, 24) == 59
        && Xor(70, 49) == 119;
  }

  lemma Products()
    ensures 14695981039346656068 * PRIME % MODULUS == 0xaf63_dc4c_8601_ec8c
    ensures 12638187200555642094 * PRIME % MODULUS == 0x089c_4407_b545_986a
  {
  }

  lemma RoundOfA(h: nat, c: Byte)
    requires h == BASIS && c == 97
    ensures Round(h, c) == 0xaf63_dc4c_8601_ec8c
  {
    LowBytes();
    Products();
    RoundIs(h, c, 57406175934947875, 37, 14695981039346656068, 0xaf63_dc4c_8601_ec8c);
  }

  lemma RoundOfB(h: nat, c: Byte)
    requires h == 0xaf63_dc4c_8601_ec8c && c == 98
    ensures Round(h, c) == 0x089c_4407_b545_986a
  {
    LowBytes();
    Products();
    RoundIs(h, c, 49367918752170476, 140, 12638187200555642094, 0x089c_4407_b545_986a);
  }

  lemma HashOfTwo(h: nat, c: Byte, d: Byte)
    ensures Hash(h, [c, d]) == Round(Round(h, c), d)
  {
    assert [c, d][1..] == [d];
    OneByte(Round(h, c), d);
  }

  /** The published hashes of the names `a` and `ab`, and of the empty one. */
  lemma PublishedHashes(none: Name, a: Byte, b: Byte)
    requires none == [] && a == 97 && b == 98
    ensures Hash(BASIS, none) == 0xcbf2_9ce4_8422_2325
    ensures Hash(BASIS, [a]) == 0xaf63_dc4c_8601_ec8c
    ensures Hash(BASIS, [a, b]) == 0x089c_4407_b545_986a
  {
    OneByte(BASIS, a);
    RoundOfA(BASIS, a);
    HashOfTwo(BASIS, a, b);
    RoundOfB(Round(BASIS, a), b);
  }
}
