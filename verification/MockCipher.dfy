/**
 The pseudo-ciphertext of the marketing page: an FNV-1a hash of the seed feeds a
 linear congruential generator, whose low bits pick letters. All arithmetic wraps at
 32 bits.
 */
module MockCipher {

  const TWO_32 := 0x1_0000_0000

  type Word = x: int | 0 <= x < TWO_32
  type CodeUnit = x: int | 0 <= x < 0x1_0000

  const FNV_OFFSET: Word := 2166136261
  const FNV_PRIME := 16777619
  const MULTIPLIER := 1103515245
  const INCREMENT := 12345

  /** The 64 letters, in order: a to z, A to Z, 0 to 9, plus, slash. */
  function Letter(i: nat): char
    requires i < 64
  {
    if i < 26 then 'a' + i as char
    else if i < 52 then 'A' + (i - 26) as char
    else if i < 62 then '0' + (i - 52) as char
    else if i == 62 then '+' else '/'
  }

  /** Math.imul: the product, wrapped to a signed 32-bit integer. */
  function Imul(a: int, b: int): int {
    var r := a * b % TWO_32;
    if r < TWO_32 / 2 then r else r - TWO_32
  }

  /** The operator >>> 0. */
  function ToUint32(x: int): Word {
    x % TWO_32
  }

  /** Bitwise exclusive or, bit by bit from the lowest. */
  function Xor(a: nat, b: nat): nat
    decreases a + b
  {
    if a == 0 && b == 0 then 0 else (a + b) % 2 + 2 * Xor(a / 2, b / 2)
  }

  function Hash(seed: seq<CodeUnit>): Word {
    if seed == [] then FNV_OFFSET
    else ToUint32(Imul(Xor(Hash(seed[..|seed| - 1]), seed[|seed| - 1]), FNV_PRIME))
  }

  function Next(h: Word): Word {
    ToUint32(Imul(h, MULTIPLIER) + INCREMENT)
  }

  function States(h: Word, n: nat): Word {
    if n == 0 then h else Next(States(h, n - 1))
  }

  function CharAt(seed: seq<CodeUnit>, i: nat): char {
    Letter(States(Hash(seed), i + 1) % 64)
  }

  method Cipher(seed: seq<CodeUnit>, length: int := 24) returns (out: string)
    ensures |out| == if length < 0 then 0 else length
    ensures forall i :: 0 <= i < |out| ==> out[i] == CharAt(seed, i)
  {
    var h := FNV_OFFSET;
    for i := 0 to |seed|
      invariant h == Hash(seed[..i])
    {
      assert seed[..i + 1][..i] == seed[..i];
      h := Xor(h, seed[i]);
      h := ToUint32(Imul(h, FNV_PRIME));
    }
    assert seed[..|seed|] == seed;
    out := [];
    var i := 0;
    while i < length
      invariant i == |out| && (length >= 0 ==> i <= length) && (length < 0 ==> i == 0)
      invariant h == States(Hash(seed), i)
      invariant forall j :: 0 <= j < i ==> out[j] == CharAt(seed, j)
    {
      h := ToUint32(Imul(h, MULTIPLIER) + INCREMENT);
      out := out + [Letter(h % 64)];
      i := i + 1;
    }
  }

  // -------------------------------------------------------------------
  // The period of a generator modulo a power of two
  // -------------------------------------------------------------------

  datatype Affine = Affine(mul: int, add: int)

  function Iterate(g: Affine, x: int, n: nat): int {
    if n == 0 then x else g.mul * Iterate(g, x, n - 1) + g.add
  }

  /** The map applied twice. */
  function Squared(g: Affine): Affine {
    Affine(g.mul * g.mul, g.mul * g.add + g.add)
  }

  lemma Twice(mul: int, add: int, y: int)
    ensures mul * (mul * y + add) + add == mul * mul * y + (mul * add + add)
  {
    assert mul * (mul * y + add) == mul * (mul * y) + mul * add;
  }

  lemma {:induction false} IterateSquared(g: Affine, x: int, n: nat)
    ensures Iterate(Squared(g), x, n) == Iterate(g, x, 2 * n)
    decreases n
  {
    if n > 0 {
      IterateSquared(g, x, n - 1);
      var y := Iterate(g, x, 2 * n - 2);
      Twice(g.mul, g.add, y);
      assert Iterate(g, x, 2 * n - 1) == g.mul * y + g.add;
    }
  }

  /** The map moves every point by an odd multiple of `e`, up to multiples of 4e. */
  ghost predicate MovesBy(g: Affine, e: int) {
    exists m: int, j: int :: MovesWith(g, e, m, j)
  }

  predicate MovesWith(g: Affine, e: int, m: int, j: int) {
    g.mul == 1 + 4 * (e * m) && g.add == e * (2 * j + 1)
  }

  lemma SquaredMul(e: int, m: int)
    ensures (1 + 4 * (e * m)) * (1 + 4 * (e * m)) == 1 + 4 * (2 * e * (m + 2 * (m * (e * m))))
  {
    var p := e * m;
    assert e * (m * p) == p * p;
    assert e * (m + 2 * (m * p)) == e * m + 2 * (e * (m * p));
    assert (1 + 4 * p) * (1 + 4 * p) == 1 + 8 * p + 16 * (p * p);
  }

  lemma SquaredAdd(e: int, p: int, odd: int)
    ensures (1 + 4 * p) * (e * odd) + e * odd == 2 * e * (odd + 2 * (odd * p))
  {
    var a := e * odd;
    assert (1 + 4 * p) * a == a + 4 * (a * p);
    assert e * (odd * p) == a * p;
    assert e * (odd + 2 * (odd * p)) == e * odd + 2 * (e * (odd * p));
  }

  lemma SquaredMovesByTwice(g: Affine, e: int)
    requires MovesBy(g, e)
    ensures MovesBy(Squared(g), 2 * e)
  {
    var m, j :| MovesWith(g, e, m, j);
    SquaredMul(e, m);
    SquaredAdd(e, e * m, 2 * j + 1);
    var m', j' := m + 2 * (m * (e * m)), j + (2 * j + 1) * (e * m);
    assert 2 * j' + 1 == 2 * j + 1 + 2 * ((2 * j + 1) * (e * m));
    assert MovesWith(Squared(g), 2 * e, m', j');
  }

  lemma AffineStep(e: int, m: int, odd: int, y: int)
    ensures (1 + 4 * (e * m)) * y + e * odd == y + e * (4 * (m * y) + odd)
  {
    assert (1 + 4 * (e * m)) * y == y + 4 * (e * m * y);
    assert e * m * y == e * (m * y);
    assert e * (4 * (m * y) + odd) == 4 * (e * (m * y)) + e * odd;
  }

  /** After n rounds the displacement is e times a number of the same parity as n. */
  lemma {:induction false} Displacement(g: Affine, e: int, x: int, n: nat) returns (t: int)
    requires MovesBy(g, e)
    ensures Iterate(g, x, n) == x + e * t && t % 2 == n % 2
    decreases n
  {
    if n == 0 {
      t := 0;
    } else {
      var m, j :| MovesWith(g, e, m, j);
      var s := Displacement(g, e, x, n - 1);
      var y := Iterate(g, x, n - 1);
      AffineStep(e, m, 2 * j + 1, y);
      t := OddStep(e, s, m * y, j, n);
    }
  }

  lemma Parity(s: int, v: int, n: int)
    requires s % 2 == (n - 1) % 2
    ensures (s + (2 * v + 1)) % 2 == n % 2
  {
  }

  lemma OddStep(e: int, s: int, u: int, j: int, n: nat) returns (t: int)
    requires n > 0 && s % 2 == (n - 1) % 2
    ensures e * s + e * (4 * u + (2 * j + 1)) == e * t && t % 2 == n % 2
  {
    t := s + (4 * u + (2 * j + 1));
    Distribute(e, s, 4 * u + (2 * j + 1));
    Parity(s, 2 * u + j, n);
    assert 4 * u + (2 * j + 1) == 2 * (2 * u + j) + 1;
  }

  lemma Distribute(e: int, a: int, b: int)
    ensures e * (a + b) == e * a + e * b
  {
  }

  function Power2(b: nat): (r: nat)
    ensures r > 0
  {
    if b == 0 then 1 else 2 * Power2(b - 1)
  }

  ghost predicate Divides(d: int, x: int) {
    exists k: int :: x == d * k
  }

  /** Hull and Dobell's criterion: with multiplier 1 modulo 4 and odd increment every cycle has full length. */
  lemma {:induction false} FullPeriod(g: Affine, e: nat, b: nat, x: int, n: nat)
    requires e > 0 && MovesBy(g, e)
    ensures Divides(e * Power2(b), Iterate(g, x, n) - x) <==> n % Power2(b) == 0
    decreases b
  {
    var t := Displacement(g, e, x, n);
    if b == 0 {
      assert Iterate(g, x, n) - x == e * Power2(0) * t;
    } else {
      var half := Power2(b - 1);
      if n % 2 == 0 {
        SquaredMovesByTwice(g, e);
        IterateSquared(g, x, n / 2);
        FullPeriod(Squared(g), 2 * e, b - 1, x, n / 2);
        assert 2 * e * half == e * Power2(b);
        HalfDivisible(n, half);
      } else {
        OddNotDivisible(e, half, t);
        HalfDivisible(n, half);
      }
    }
  }

  lemma HalfDivisible(n: nat, half: nat)
    requires half > 0
    ensures n % 2 == 0 ==> (n % (2 * half) == 0 <==> n / 2 % half == 0)
    ensures n % 2 == 1 ==> n % (2 * half) != 0
  {
    var q, r := n / (2 * half), n % (2 * half);
    assert n == 2 * (half * q) + r;
    if n % 2 == 0 {
      assert r % 2 == 0 && n / 2 == half * q + r / 2;
      RemainderIs(n / 2, half, q, r / 2);
    }
  }

  lemma RemainderIs(a: int, d: int, q: int, r: int)
    requires d > 0 && a == d * q + r && 0 <= r < d
    ensures a % d == r
  {
    var q', r' := a / d, a % d;
    assert a == d * q' + r';
    SmallMultiple(d, q - q', r' - r);
  }

  lemma SmallMultiple(d: int, k: int, x: int)
    requires d > 0 && x == d * k && -d < x < d
    ensures x == 0
  {
    assert k >= 1 ==> d * k >= d * 1;
    assert k <= -1 ==> d * k <= d * -1;
  }

  lemma OddNotDivisible(e: nat, half: nat, t: int)
    requires e > 0 && t % 2 == 1
    ensures !Divides(e * (2 * half), e * t)
  {
    forall k: int
      ensures e * t != e * (2 * half) * k
    {
      var z := t - 2 * (half * k);
      assert z != 0;
      assert e * z != 0;
      assert e * (2 * half) * k == e * (2 * (half * k));
      assert e * (t - 2 * (half * k)) == e * t - e * (2 * (half * k));
    }
  }

  // -------------------------------------------------------------------
  // The characters
  // -------------------------------------------------------------------

  const GENERATOR := Affine(MULTIPLIER, INCREMENT)

  /** The wrapped generator is the unwrapped one up to multiples of 2^32. */
  lemma {:induction false} WrappingIsHarmless(h: Word, n: nat)
    ensures Divides(TWO_32, Iterate(GENERATOR, h, n) - States(h, n))
    decreases n
  {
    if n == 0 {
      assert Iterate(GENERATOR, h, 0) - States(h, 0) == TWO_32 * 0;
    } else {
      WrappingIsHarmless(h, n - 1);
      var y, w := Iterate(GENERATOR, h, n - 1), States(h, n - 1);
      var k :| y - w == TWO_32 * k;
      var q := StepWraps(w, MULTIPLIER, INCREMENT);
      assert MULTIPLIER * y + INCREMENT - Next(w) == TWO_32 * (MULTIPLIER * k + q);
    }
  }

  lemma StepWraps(a: int, m: int, add: int) returns (q: int)
    ensures a * m + add == ToUint32(Imul(a, m) + add) + TWO_32 * q
  {
    var p := a * m;
    var i := Imul(a, m) + add;
    assert p == p / TWO_32 * TWO_32 + p % TWO_32;
    q := p / TWO_32 + (if p % TWO_32 < TWO_32 / 2 then 0 else 1) + i / TWO_32;
  }

  lemma {:induction false} StatesAdd(h: Word, m: nat, n: nat)
    ensures States(States(h, m), n) == States(h, m + n)
    decreases n
  {
    if n > 0 {
      StatesAdd(h, m, n - 1);
    }
  }

  lemma GeneratorMoves()
    ensures MovesBy(GENERATOR, 1)
  {
    assert MovesWith(GENERATOR, 1, MULTIPLIER / 4, INCREMENT / 2);
  }

  lemma {:induction false} PowerAdds(a: nat, b: nat)
    ensures Power2(a + b) == Power2(a) * Power2(b)
    decreases a
  {
    if a > 0 {
      PowerAdds(a - 1, b);
      assert Power2(a + b) == 2 * Power2(a - 1 + b);
      assert 2 * (Power2(a - 1) * Power2(b)) == 2 * Power2(a - 1) * Power2(b);
    }
  }

  lemma ThirtyTwoBits()
    ensures Power2(32) == TWO_32
  {
    assert Power2(4) == 16;
    PowerAdds(4, 4);
    PowerAdds(8, 8);
    PowerAdds(16, 16);
  }

  lemma DividesShifted(p: int, x: int, k: int)
    ensures Divides(p, x + p * k) <==> Divides(p, x)
  {
    if Divides(p, x) {
      var i :| x == p * i;
      assert x + p * k == p * (i + k);
    }
    if Divides(p, x + p * k) {
      var i :| x + p * k == p * i;
      assert x == p * (i - k);
    }
  }

  lemma ModuloFactor(p: int, q: int, x: int, y: int)
    requires Divides(p * q, y - x)
    ensures Divides(p, y) <==> Divides(p, x)
  {
    var k :| y - x == p * q * k;
    assert p * q * k == p * (q * k);
    DividesShifted(p, x, q * k);
  }

  /** A difference that is a multiple of 2^32 does not matter modulo a smaller power. */
  lemma ModuloSmaller(b: nat, x: int, y: int)
    requires b <= 32 && Divides(TWO_32, y - x)
    ensures Divides(Power2(b), y) <==> Divides(Power2(b), x)
  {
    ThirtyTwoBits();
    PowerAdds(b, 32 - b);
    ModuloFactor(Power2(b), Power2(32 - b), x, y);
  }

  /** The generator returns to the same low `b` bits exactly after multiples of 2^b steps. */
  lemma LowBitsReturn(h: Word, n: nat, b: nat)
    requires b <= 32
    ensures Divides(Power2(b), States(h, n) - h) <==> n % Power2(b) == 0
  {
    GeneratorMoves();
    FullPeriod(GENERATOR, 1, b, h, n);
    assert 1 * Power2(b) == Power2(b);
    WrappingIsHarmless(h, n);
    ModuloSmaller(b, States(h, n) - h, Iterate(GENERATOR, h, n) - h);
  }

  lemma LettersDiffer(i: nat, j: nat)
    requires i < j < 64
    ensures Letter(i) != Letter(j)
  {
  }

  lemma SameRemainder(a: int, b: int)
    ensures Divides(64, b - a) <==> a % 64 == b % 64
  {
    if a % 64 == b % 64 {
      assert b - a == 64 * (b / 64 - a / 64);
    }
  }

  /**
   Full period: two characters of the output are equal exactly if their positions
   differ by a multiple of 64. So any 64 consecutive ones are different, and the
   output repeats after 64.
   */
  lemma CharsRepeatExactly(seed: seq<CodeUnit>, i: nat, j: nat)
    requires i <= j
    ensures CharAt(seed, i) == CharAt(seed, j) <==> (j - i) % 64 == 0
  {
    var h := Hash(seed);
    var a, b := States(h, i + 1), States(h, j + 1);
    StatesAdd(h, i + 1, j - i);
    LowBitsReturn(a, j - i, 6);
    SixBits();
    SameRemainder(a, b);
    if a % 64 < b % 64 {
      LettersDiffer(a % 64, b % 64);
    } else if b % 64 < a % 64 {
      LettersDiffer(b % 64, a % 64);
    }
  }

  lemma OnlyZeroDivides(d: int, x: int)
    requires d > 0 && -d < x < d
    ensures Divides(d, x) <==> x == 0
  {
    assert d * 0 == 0;
    if Divides(d, x) {
      var k :| x == d * k;
      SmallMultiple(d, k, x);
    }
  }

  /** And the generator itself comes back to its state only after all 2^32 steps. */
  lemma StatesRepeatExactly(h: Word, n: nat)
    ensures States(h, n) == h <==> n % TWO_32 == 0
  {
    LowBitsReturn(h, n, 32);
    ThirtyTwoBits();
    OnlyZeroDivides(TWO_32, States(h, n) - h);
  }

  // -------------------------------------------------------------------
  // The letters
  // -------------------------------------------------------------------

  /** The alphabet begins with a, A, 0, + and / at these places, and runs on in order in between. */
  lemma LettersInOrder(i: nat)
    requires i < 63
    ensures Letter(0) == 'a' && Letter(26) == 'A' && Letter(52) == '0' && Letter(62) == '+' && Letter(63) == '/'
    ensures i !in {25, 51, 61, 62} ==> Letter(i + 1) as int == Letter(i) as int + 1
  {
  }

  /** FNV-1a: each further character is mixed in by exclusive or, and then the product is taken modulo 2^32. */
  lemma HashExtends(seed: seq<CodeUnit>, c: CodeUnit)
    ensures Hash([]) == 0x811C9DC5
    ensures Hash(seed + [c]) == Xor(Hash(seed), c) * 0x0100_0193 % TWO_32
  {
    assert (seed + [c])[..|seed|] == seed;
    var p := Xor(Hash(seed), c) * FNV_PRIME;
    var q := StepWraps(Xor(Hash(seed), c), FNV_PRIME, 0);
    RemainderIs(p, TWO_32, q, ToUint32(Imul(Xor(Hash(seed), c), FNV_PRIME) + 0));
  }

  // -------------------------------------------------------------------
  // How much of the seed is left
  // -------------------------------------------------------------------

  predicate SameLowBits(x: int, y: int) {
    x % 64 == y % 64
  }

  lemma Cancel(d: int, m: int, inverse: int, q: int, k: int)
    requires m * inverse == 64 * q + 1 && d * m == 64 * k
    ensures d == 64 * (k * inverse - d * q)
  {
    assert d * m * inverse == d * (m * inverse);
    assert d * (64 * q + 1) == 64 * (d * q) + d;
    assert 64 * k * inverse == 64 * (k * inverse);
  }

  lemma MultipleOfMultiple(d: int, m: int)
    requires Divides(64, d)
    ensures Divides(64, d * m)
  {
    var k :| d == 64 * k;
    assert d * m == 64 * (k * m);
  }

  /** A multiplier with an inverse modulo 64 keeps apart what differs. */
  lemma TimesKeepsApart(m: int, inverse: int, q: int, x: int, y: int)
    requires m * inverse == 64 * q + 1
    ensures SameLowBits(x * m, y * m) <==> SameLowBits(x, y)
  {
    var d := y - x;
    SameRemainder(x, y);
    SameRemainder(x * m, y * m);
    assert y * m - x * m == d * m;
    if Divides(64, d) {
      MultipleOfMultiple(d, m);
    }
    if Divides(64, d * m) {
      var k :| d * m == 64 * k;
      Cancel(d, m, inverse, q, k);
    }
  }

  /** Wrapping at 32 bits, signed or not, leaves the low bits alone. */
  lemma WrappingKeepsLowBits(a: int, m: int, add: int)
    ensures SameLowBits(ToUint32(Imul(a, m) + add), a * m + add)
  {
    var q := StepWraps(a, m, add);
    SameRemainder(ToUint32(Imul(a, m) + add), a * m + add);
    assert TWO_32 * q == 64 * (67108864 * q);
  }

  lemma Shifted(x: int, y: int, add: int)
    ensures SameLowBits(x + add, y + add) <==> SameLowBits(x, y)
  {
    SameRemainder(x, y);
    SameRemainder(x + add, y + add);
  }

  /** So does a wrapped step with such a multiplier. */
  lemma StepKeepsApart(m: int, inverse: int, q: int, add: int, x: int, y: int)
    requires m * inverse == 64 * q + 1
    ensures SameLowBits(ToUint32(Imul(x, m) + add), ToUint32(Imul(y, m) + add)) <==> SameLowBits(x, y)
  {
    WrappingKeepsLowBits(x, m, add);
    WrappingKeepsLowBits(y, m, add);
    Shifted(x * m, y * m, add);
    TimesKeepsApart(m, inverse, q, x, y);
  }

  lemma NextKeepsApart(g: Word, h: Word)
    ensures SameLowBits(Next(g), Next(h)) <==> SameLowBits(g, h)
  {
    StepKeepsApart(MULTIPLIER, 37, MULTIPLIER * 37 / 64, INCREMENT, g, h);
  }

  lemma {:induction false} StatesKeepApart(g: Word, h: Word, n: nat)
    ensures SameLowBits(States(g, n), States(h, n)) <==> SameLowBits(g, h)
    decreases n
  {
    if n > 0 {
      StatesKeepApart(g, h, n - 1);
      NextKeepsApart(States(g, n - 1), States(h, n - 1));
    }
  }

  /**
   Only six bits of the hash are ever used: the outputs of two seeds agree in any one
   character, and then in all, exactly if their hashes do. So there are at most 64 outputs.
   */
  lemma AgreeEverywhereOrNowhere(a: seq<CodeUnit>, b: seq<CodeUnit>, i: nat)
    ensures CharAt(a, i) == CharAt(b, i) <==> SameLowBits(Hash(a), Hash(b))
  {
    StatesKeepApart(Hash(a), Hash(b), i + 1);
    var x, y := States(Hash(a), i + 1) % 64, States(Hash(b), i + 1) % 64;
    if x < y {
      LettersDiffer(x, y);
    } else if y < x {
      LettersDiffer(y, x);
    }
  }

  // Bit by bit, the exclusive or is determined by any two of its three words.

  predicate AgreeTo(bits: nat, x: nat, y: nat) {
    bits == 0 || (x % 2 == y % 2 && AgreeTo(bits - 1, x / 2, y / 2))
  }

  lemma {:induction false} AgreeToPower(bits: nat, x: nat, y: nat)
    ensures AgreeTo(bits, x, y) <==> x % Power2(bits) == y % Power2(bits)
    decreases bits
  {
    if bits > 0 {
      LowBit(x, y, Power2(bits - 1));
      AgreeToPower(bits - 1, x / 2, y / 2);
    }
  }

  lemma SixBits()
    ensures Power2(6) == 64
  {
    PowerAdds(3, 3);
    assert Power2(3) == 8;
  }

  lemma AgreeToSix(x: nat, y: nat)
    ensures AgreeTo(6, x, y) <==> SameLowBits(x, y)
  {
    AgreeToPower(6, x, y);
    SixBits();
  }

  lemma LowBit(x: nat, y: nat, half: nat)
    requires half > 0
    ensures x % (2 * half) == y % (2 * half) <==> x % 2 == y % 2 && x / 2 % half == y / 2 % half
  {
    Remainder(x, half);
    Remainder(y, half);
  }

  lemma Remainder(x: nat, half: nat)
    requires half > 0
    ensures x % (2 * half) == x % 2 + 2 * (x / 2 % half)
  {
    var q, r := x / 2 / half, x / 2 % half;
    assert x / 2 == half * q + r;
    assert x == 2 * half * q + (x % 2 + 2 * r);
    RemainderIs(x, 2 * half, q, x % 2 + 2 * r);
  }

  lemma Halves(bit: int, x: int)
    requires bit == 0 || bit == 1
    ensures (bit + 2 * x) % 2 == bit && (bit + 2 * x) / 2 == x
  {
  }

  lemma XorParts(a: nat, b: nat)
    ensures Xor(a, b) % 2 == (a + b) % 2 && Xor(a, b) / 2 == Xor(a / 2, b / 2)
  {
    Halves((a + b) % 2, Xor(a / 2, b / 2));
  }

  lemma SumParity(a: int, b: int, x: int, y: int)
    requires x % 2 == y % 2
    ensures (a + x) % 2 == (b + y) % 2 <==> a % 2 == b % 2
  {
  }

  lemma {:induction false} XorAgrees(bits: nat, a: nat, b: nat, x: nat, y: nat)
    requires AgreeTo(bits, x, y)
    ensures AgreeTo(bits, Xor(a, x), Xor(b, y)) <==> AgreeTo(bits, a, b)
    decreases bits
  {
    if bits > 0 {
      XorParts(a, x);
      XorParts(b, y);
      SumParity(a, b, x, y);
      XorAgrees(bits - 1, a / 2, b / 2, x / 2, y / 2);
    }
  }

  lemma {:induction false} XorCommutes(a: nat, b: nat)
    ensures Xor(a, b) == Xor(b, a)
    decreases a + b
  {
    if a != 0 || b != 0 {
      XorCommutes(a / 2, b / 2);
    }
  }

  /** One step of the hash: what goes in differently comes out differently, as long as the rest is equal. */
  lemma HashStep(g: Word, h: Word, x: CodeUnit, y: CodeUnit)
    ensures var g', h' := ToUint32(Imul(Xor(g, x), FNV_PRIME)), ToUint32(Imul(Xor(h, y), FNV_PRIME));
            && (SameLowBits(x, y) ==> (SameLowBits(g', h') <==> SameLowBits(g, h)))
            && (SameLowBits(g, h) ==> (SameLowBits(g', h') <==> SameLowBits(x, y)))
  {
    StepKeepsApart(FNV_PRIME, 27, FNV_PRIME * 27 / 64, 0, Xor(g, x), Xor(h, y));
    AgreeToSix(g, h);
    AgreeToSix(x, y);
    AgreeToSix(Xor(g, x), Xor(h, y));
    if SameLowBits(x, y) {
      XorAgrees(6, g, h, x, y);
    }
    if SameLowBits(g, h) {
      XorCommutes(g, x);
      XorCommutes(h, y);
      XorAgrees(6, x, y, g, h);
    }
  }

  lemma {:induction false} HashesAgreeExactly(a: seq<CodeUnit>, b: seq<CodeUnit>, k: nat)
    requires |a| == |b| && k < |a|
    requires forall i :: 0 <= i < |a| && i != k ==> SameLowBits(a[i], b[i])
    ensures SameLowBits(Hash(a), Hash(b)) <==> SameLowBits(a[k], b[k])
    decreases |a|
  {
    var n := |a| - 1;
    HashStep(Hash(a[..n]), Hash(b[..n]), a[n], b[n]);
    if k < n {
      HashesAgreeExactly(a[..n], b[..n], k);
    } else if n > 0 {
      assert SameLowBits(a[..n][0], b[..n][0]);
      HashesAgreeExactly(a[..n], b[..n], 0);
    }
  }

  /**
   So of each character of the seed only the low six bits matter, and they do: seeds that
   agree in them at all positions but one have the same output if they agree there too,
   and outputs that differ in every character if they do not.
   */
  lemma OneCharacterChanges(a: seq<CodeUnit>, b: seq<CodeUnit>, k: nat, i: nat)
    requires |a| == |b| && k < |a|
    requires forall j :: 0 <= j < |a| && j != k ==> SameLowBits(a[j], b[j])
    ensures CharAt(a, i) == CharAt(b, i) <==> SameLowBits(a[k], b[k])
  {
    HashesAgreeExactly(a, b, k);
    AgreeEverywhereOrNowhere(a, b, i);
  }
}
