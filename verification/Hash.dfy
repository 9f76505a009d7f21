/** The FNV hashes. A hash is an unsigned number of 32 or 64 bits. */
module Hash {
  import Shapes

  type Byte = b: int | 0 <= b < 256

  datatype Traits = Fnv32 | Fnv64 {
    function Modulus(): int {
      if Fnv32? then 0x1_0000_0000 else 0x1_0000_0000_0000_0000
    }

    function Prime(): int {
      if Fnv32? then 0x0100_0193 else 0x0000_0100_0000_01b3
    }

    function OffsetBasis(): int {
      if Fnv32? then 0x811C_9DC5 else 0xcbf2_9ce4_8422_2645
    }

    /** The multiplicative inverse of the prime. */
    ghost function Inverse(): int {
      if Fnv32? then 0x359c_449b else 0xce96_5057_aff6_957b
    }
  }

  /** FNV-1 multiplies first, FNV-1a mixes in the byte first. */
  datatype Variant = Fnv1 | Fnv1a

  predicate IsHash(t: Traits, h: int) { 0 <= h < t.Modulus() }

  function Multiply(t: Traits, h: int): int { h * t.Prime() % t.Modulus() }

  function Pow2(n: nat): int { if n == 0 then 1 else 2 * Pow2(n - 1) }

  /** Exclusive or of the low `n` bits. */
  function Xor(n: nat, x: int, y: int): int {
    if n == 0 then 0 else (x % 2 + y % 2) % 2 + 2 * Xor(n - 1, x / 2, y / 2)
  }

  /** Exclusive or with a byte touches the low eight bits only. */
  function Mix(h: int, b: Byte): int {
    h - h % 256 + Xor(8, h % 256, b)
  }

  function Step(t: Traits, v: Variant, h: int, b: Byte): int {
    if v.Fnv1? then Mix(Multiply(t, h), b) else Multiply(t, Mix(h, b))
  }

  function HashFrom(t: Traits, v: Variant, h: int, s: seq<Byte>): int
    decreases |s|
  {
    if s == [] then h else HashFrom(t, v, Step(t, v, h, s[0]), s[1..])
  }

  function HashOf(t: Traits, v: Variant, s: seq<Byte>): int {
    HashFrom(t, v, t.OffsetBasis(), s)
  }

  /** The bytes up to the terminating zero. */
  function Text(input: seq<Byte>): (s: seq<Byte>)
    ensures s <= input && 0 !in s && (|s| < |input| ==> input[|s|] == 0)
  {
    if input == [] || input[0] == 0 then [] else [input[0]] + Text(input[1..])
  }

  method HashFnv1(t: Traits, input: seq<Byte>) returns (hash: int)
    requires 0 in input
    ensures hash == HashOf(t, Fnv1, Text(input))
  {
    hash := t.OffsetBasis();
    var c := 0;
    while input[c] != 0
      invariant 0 <= c < |input| && 0 in input[c..]
      invariant HashFrom(t, Fnv1, hash, Text(input[c..])) == HashOf(t, Fnv1, Text(input))
      decreases |input| - c
    {
      TextNext(input, c);
      hash := hash * t.Prime() % t.Modulus();
      hash := Mix(hash, input[c]);
      c := c + 1;
    }
  }

  method HashFnv1a(t: Traits, input: seq<Byte>) returns (hash: int)
    requires 0 in input
    ensures hash == HashOf(t, Fnv1a, Text(input))
  {
    hash := t.OffsetBasis();
    var c := 0;
    while input[c] != 0
      invariant 0 <= c < |input| && 0 in input[c..]
      invariant HashFrom(t, Fnv1a, hash, Text(input[c..])) == HashOf(t, Fnv1a, Text(input))
      decreases |input| - c
    {
      TextNext(input, c);
      hash := Mix(hash, input[c]);
      hash := hash * t.Prime() % t.Modulus();
      c := c + 1;
    }
  }

  lemma TextNext(input: seq<Byte>, c: nat)
    requires c < |input| && input[c] != 0 && 0 in input[c..]
    ensures c + 1 < |input| && 0 in input[c + 1..]
    ensures var s := Text(input[c..]); s != [] && s[0] == input[c] && s[1..] == Text(input[c + 1..])
  {
    assert input[c..][1..] == input[c + 1..];
    var k :| 0 <= k < |input[c..]| && input[c..][k] == 0;
    assert input[c + 1..][k - 1] == 0;
  }

  // ---------------------------------------------------------------- every step can be undone

  lemma MultiplyBack(t: Traits, h: int)
    requires IsHash(t, h)
    ensures IsHash(t, Multiply(t, h)) && Multiply(t, h) * t.Inverse() % t.Modulus() == h
  {
    var (m, p, i) := (t.Modulus(), t.Prime(), t.Inverse());
    var k := if t.Fnv32? then 3513497 else 887285111055;
    assert p * i == 1 + k * m;
    var (q, r) := (h * p / m, h * p % m);
    UndoMultiply(h, p, i, m, k, q, r);
    Shapes.DivModUnique(r * i, m, h * k - q * i, h);
  }

  lemma UndoMultiply(h: int, p: int, i: int, m: int, k: int, q: int, r: int)
    requires p * i == 1 + k * m && h * p == q * m + r
    ensures r * i == (h * k - q * i) * m + h
  {
    assert (h * p) * i == h * (p * i) == h + h * (k * m);
    assert (h * p) * i == (q * m) * i + r * i;
    assert (q * m) * i == (q * i) * m && h * (k * m) == (h * k) * m;
  }

  lemma {:induction false} XorUndone(n: nat, x: int, y: int)
    requires 0 <= x < Pow2(n) && 0 <= y < Pow2(n)
    ensures 0 <= Xor(n, x, y) < Pow2(n) && Xor(n, Xor(n, x, y), y) == x
  {
    if n > 0 {
      Halves(x, Pow2(n - 1));
      Halves(y, Pow2(n - 1));
      XorUndone(n - 1, x / 2, y / 2);
      LowBit(x, y, Xor(n - 1, x / 2, y / 2));
    }
  }

  lemma LowBit(x: int, y: int, rest: int)
    ensures var z := (x % 2 + y % 2) % 2 + 2 * rest;
            z / 2 == rest && (z % 2 + y % 2) % 2 == x % 2 && x == x % 2 + 2 * (x / 2)
  {
  }

  lemma {:induction false} XorTells(n: nat, x: int, y: int, z: int)
    requires 0 <= y < Pow2(n) && 0 <= z < Pow2(n) && Xor(n, x, y) == Xor(n, x, z)
    ensures y == z
  {
    if n > 0 {
      BitTells(x, y, z, Xor(n - 1, x / 2, y / 2), Xor(n - 1, x / 2, z / 2));
      Halves(y, Pow2(n - 1));
      Halves(z, Pow2(n - 1));
      XorTells(n - 1, x / 2, y / 2, z / 2);
    }
  }

  lemma BitTells(x: int, y: int, z: int, p: int, q: int)
    requires (x % 2 + y % 2) % 2 + 2 * p == (x % 2 + z % 2) % 2 + 2 * q
    ensures p == q && y % 2 == z % 2
  {
  }

  lemma Halves(y: int, m: int)
    requires 0 <= y < 2 * m
    ensures 0 <= y / 2 < m && y == y / 2 * 2 + y % 2
  {
  }

  lemma EightBits()
    ensures Pow2(8) == 256
  {
    assert Pow2(4) == 16;
  }

  lemma MixBack(t: Traits, h: int, b: Byte)
    requires IsHash(t, h)
    ensures IsHash(t, Mix(h, b)) && Mix(Mix(h, b), b) == h
  {
    hide Xor, Pow2;
    EightBits();
    XorUndone(8, h % 256, b);
    var low := Xor(8, h % 256, b);
    assert h == h / 256 * 256 + h % 256;
    Shapes.DivModUnique(Mix(h, b), 256, h / 256, low);
  }

  lemma MixTells(h: int, x: Byte, y: Byte)
    requires Mix(h, x) == Mix(h, y)
    ensures x == y
  {
    hide Xor, Pow2;
    EightBits();
    XorTells(8, h % 256, x, y);
  }

  /** A step loses nothing of the hash. */
  lemma StepInjective(t: Traits, v: Variant, h: int, k: int, b: Byte)
    requires IsHash(t, h) && IsHash(t, k)
    ensures IsHash(t, Step(t, v, h, b))
    ensures Step(t, v, h, b) == Step(t, v, k, b) <==> h == k
  {
    hide Mix, Multiply;
    if v.Fnv1? {
      MultiplyBack(t, h);
      MultiplyBack(t, k);
      MixBack(t, Multiply(t, h), b);
      MixBack(t, Multiply(t, k), b);
    } else {
      MixBack(t, h, b);
      MixBack(t, k, b);
      MultiplyBack(t, Mix(h, b));
      MultiplyBack(t, Mix(k, b));
    }
  }

  /** ... and tells bytes apart. */
  lemma StepTells(t: Traits, v: Variant, h: int, x: Byte, y: Byte)
    requires IsHash(t, h)
    ensures Step(t, v, h, x) == Step(t, v, h, y) <==> x == y
  {
    hide Mix, Multiply;
    if Step(t, v, h, x) == Step(t, v, h, y) {
      if v.Fnv1? {
        MixTells(Multiply(t, h), x, y);
      } else {
        MixBack(t, h, x);
        MixBack(t, h, y);
        MultiplyBack(t, Mix(h, x));
        MultiplyBack(t, Mix(h, y));
        MixTells(h, x, y);
      }
    }
  }

  /** The same bytes keep different hashes different and equal hashes equal. */
  lemma {:induction false} SameTail(t: Traits, v: Variant, h: int, k: int, s: seq<Byte>)
    requires IsHash(t, h) && IsHash(t, k)
    ensures IsHash(t, HashFrom(t, v, h, s))
    ensures HashFrom(t, v, h, s) == HashFrom(t, v, k, s) <==> h == k
    decreases |s|
  {
    hide Step, IsHash;
    if s != [] {
      StepInjective(t, v, h, k, s[0]);
      StepInjective(t, v, k, h, s[0]);
      SameTail(t, v, Step(t, v, h, s[0]), Step(t, v, k, s[0]), s[1..]);
    }
  }

  lemma {:induction false} HashConcat(t: Traits, v: Variant, h: int, a: seq<Byte>, b: seq<Byte>)
    ensures HashFrom(t, v, h, a + b) == HashFrom(t, v, HashFrom(t, v, h, a), b)
    decreases |a|
  {
    hide Step;
    if a == [] {
      assert a + b == b;
    } else {
      assert (a + b)[1..] == a[1..] + b;
      HashConcat(t, v, Step(t, v, h, a[0]), a[1..], b);
    }
  }

  lemma BasisIsHash(t: Traits)
    ensures IsHash(t, t.OffsetBasis())
  {
  }

  /** Texts that differ in one byte have different hashes. */
  lemma OneByteChangesHash(t: Traits, v: Variant, a: seq<Byte>, x: Byte, y: Byte, b: seq<Byte>)
    ensures HashOf(t, v, a + [x] + b) == HashOf(t, v, a + [y] + b) <==> x == y
  {
    hide Step, IsHash;
    BasisIsHash(t);
    var h := HashFrom(t, v, t.OffsetBasis(), a);
    SameTail(t, v, t.OffsetBasis(), t.OffsetBasis(), a);
    OneByte(t, v, a, x, b);
    OneByte(t, v, a, y, b);
    StepInjective(t, v, h, h, x);
    StepInjective(t, v, h, h, y);
    StepTells(t, v, h, x, y);
    SameTail(t, v, Step(t, v, h, x), Step(t, v, h, y), b);
  }

  lemma OneByte(t: Traits, v: Variant, a: seq<Byte>, x: Byte, b: seq<Byte>)
    ensures HashOf(t, v, a + [x] + b) == HashFrom(t, v, Step(t, v, HashFrom(t, v, t.OffsetBasis(), a), x), b)
  {
    hide Step;
    assert a + [x] + b == a + ([x] + b);
    HashConcat(t, v, t.OffsetBasis(), a, [x] + b);
    assert ([x] + b)[1..] == b;
  }

  // ---------------------------------------------------------------- what a step is

  /** Bit `i` of a number, the lowest being bit 0. */
  ghost function Bit(x: int, i: nat): int
    decreases i
  {
    if i == 0 then x % 2 else Bit(x / 2, i - 1)
  }

  lemma {:induction false} BitRange(x: int, i: nat)
    ensures 0 <= Bit(x, i) <= 1 && Bit(0, i) == 0
    decreases i
  {
    if i > 0 {
      BitRange(x / 2, i - 1);
    }
  }

  /** Exclusive or of the low `n` bits with a number below 2^n is that of all bits. */
  lemma {:induction false} XorBits(n: nat, h: nat, b: nat, i: nat)
    requires b < Pow2(n)
    ensures Bit(h - h % Pow2(n) + Xor(n, h % Pow2(n), b), i) == (Bit(h, i) + Bit(b, i)) % 2
  {
    if n == 0 {
      BitRange(h, i);
    } else {
      var P := Pow2(n - 1);
      Halves(b, P);
      HalfMix(h, b, P, Xor(n - 1, h % (2 * P) / 2, b / 2));
      if i > 0 {
        XorBits(n - 1, h / 2, b / 2, i - 1);
      }
    }
  }

  lemma HalfMix(h: nat, b: nat, P: int, rest: int)
    requires P > 0
    ensures h % (2 * P) / 2 == h / 2 % P
    ensures var z := h - h % (2 * P) + ((h % (2 * P) % 2 + b % 2) % 2 + 2 * rest);
            z % 2 == (h % 2 + b % 2) % 2 && z / 2 == h / 2 - h / 2 % P + rest
  {
    var (q, x) := (h / (2 * P), h % (2 * P));
    TwiceTimes(q, P);
    assert h == 2 * (q * P) + x && 0 <= x < 2 * P;
    HalfOf(h, q * P, x);
    Shapes.DivModUnique(h / 2, P, q, x / 2);
    Parity(q * P, (x % 2 + b % 2) % 2, rest);
  }

  lemma TwiceTimes(q: int, P: int)
    ensures q * (2 * P) == 2 * (q * P)
  {
  }

  lemma HalfOf(h: int, a: int, x: int)
    requires h == 2 * a + x
    ensures h / 2 == a + x / 2 && h % 2 == x % 2
  {
  }

  lemma Parity(a: int, bit: int, rest: int)
    requires 0 <= bit <= 1
    ensures (2 * a + (bit + 2 * rest)) % 2 == bit && (2 * a + (bit + 2 * rest)) / 2 == a + rest
  {
  }

  /** FNV-1 multiplies by 16777619, or 1099511628211 for 64 bits, and then mixes in the byte by
      exclusive or, bit by bit; FNV-1a does the second first. */
  lemma StepIs(v: Variant, h: nat, b: Byte, i: nat)
    ensures Step(Fnv32, Fnv1a, h, b) == Mix(h, b) * 16777619 % 4294967296
    ensures Step(Fnv64, Fnv1a, h, b) == Mix(h, b) * 1099511628211 % 18446744073709551616
    ensures Step(Fnv32, Fnv1, h, b) == Mix(h * 16777619 % 4294967296, b)
    ensures Step(Fnv64, Fnv1, h, b) == Mix(h * 1099511628211 % 18446744073709551616, b)
    ensures Bit(Mix(h, b), i) == (Bit(h, i) + Bit(b, i)) % 2
  {
    hide Xor, Pow2;
    EightBits();
    XorBits(8, h, b, i);
  }

  lemma NinetySeven()
    ensures Xor(8, 0x1f, 97) == 0x7e && Xor(8, 0xc5, 97) == 0xa4
  {
    assert Xor(1, 0, 0) == 0 && Xor(2, 0, 1) == 1 && Xor(3, 0, 3) == 3 && Xor(4, 1, 6) == 7;
    assert Xor(1, 1, 0) == 1 && Xor(2, 3, 1) == 2 && Xor(3, 6, 3) == 5 && Xor(4, 12, 6) == 10;
  }

  /** The published 32-bit hashes of the text "a". */
  lemma KnownHashes()
    ensures HashOf(Fnv32, Fnv1, [97]) == 0x050c_5d7e && HashOf(Fnv32, Fnv1a, [97]) == 0xe40c_292c
  {
    hide Xor;
    NinetySeven();
    var text: seq<Byte> := [97];
    assert text[1..] == [];
    assert Multiply(Fnv32, 0x811c_9dc5) == 0x050c_5d1f;
    assert Mix(0x050c_5d1f, 97) == 0x050c_5d7e;
    assert Mix(0x811c_9dc5, 97) == 0x811c_9da4;
    assert Multiply(Fnv32, 0x811c_9da4) == 0xe40c_292c;
  }

  /** The 64-bit basis is not the one the FNV definition gives, 14695981039346656037, so no text
      at all has the FNV hash. */
  lemma NeverFnv64(v: Variant, s: seq<Byte>)
    ensures HashOf(Fnv64, v, s) != HashFrom(Fnv64, v, 14695981039346656037, s)
  {
    hide Step;
    SameTail(Fnv64, v, Fnv64.OffsetBasis(), 14695981039346656037, s);
  }

  /** Texts with the same end have the same hash exactly if what is in front has. */
  lemma SameEnd(t: Traits, v: Variant, a: seq<Byte>, b: seq<Byte>, tail: seq<Byte>)
    ensures HashOf(t, v, a + tail) == HashOf(t, v, b + tail) <==> HashOf(t, v, a) == HashOf(t, v, b)
  {
    hide Step, IsHash;
    BasisIsHash(t);
    var h := t.OffsetBasis();
    SameTail(t, v, h, h, a);
    SameTail(t, v, h, h, b);
    HashConcat(t, v, h, a, tail);
    HashConcat(t, v, h, b, tail);
    SameTail(t, v, HashFrom(t, v, h, a), HashFrom(t, v, h, b), tail);
  }
}
