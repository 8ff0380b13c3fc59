/**
 JavaScript's bitwise operators on numbers. Each takes its operands modulo 2^32; `&`, `|` and `<<`
 give a signed 32-bit result and `>>>` an unsigned one.
 */
module JsBits {

  import opened Arithmetic

  /** The 32-bit pattern of an integer. */
  function Pattern(x: int): (w: nat)
    ensures w < 0x1_0000_0000
  {
    x % 0x1_0000_0000
  }

  function Signed(w: nat): int
    requires w < 0x1_0000_0000
  {
    if w < 0x8000_0000 then w else w - 0x1_0000_0000
  }

  /** Drops the k lowest bits. */
  function Halved(w: nat, k: nat): nat {
    if k == 0 then w else Halved(w / 2, k - 1)
  }

  function BitAnd(a: nat, b: nat): (r: nat)
    ensures r <= a
  {
    if a == 0 then 0 else 2 * BitAnd(a / 2, b / 2) + (if a % 2 == 1 && b % 2 == 1 then 1 else 0)
  }

  function BitOr(a: nat, b: nat): nat {
    if a == 0 then b
    else 2 * BitOr(a / 2, b / 2) + (if a % 2 == 1 || b % 2 == 1 then 1 else 0)
  }

  function And(a: int, b: int): int {
    Signed(BitAnd(Pattern(a), Pattern(b)))
  }

  function Or(a: int, b: int): int {
    Signed(Pattern(BitOr(Pattern(a), Pattern(b))))
  }

  function Shl(a: int, count: nat): int {
    Signed(Pattern(Pattern(a) * Pow2(count % 32)))
  }

  function Ushr(a: int, count: nat): nat {
    Halved(Pattern(a), count % 32)
  }

  lemma {:induction false} SignedPattern(w: nat)
    requires w < 0x1_0000_0000
    ensures Pattern(Signed(w)) == w
  {
  }

  lemma {:induction false} SignedInjective(a: nat, b: nat)
    requires a < 0x1_0000_0000 && b < 0x1_0000_0000
    ensures Signed(a) == Signed(b) <==> a == b
  {
  }

  // ---------- What the operators mean on numbers ----------

  lemma {:induction false} Spread(d: int, m: nat)
    requires d != 0
    ensures d * m >= m || d * m <= -(m as int)
  {
    if d > 0 {
      assert (d - 1) * m >= 0;
    } else {
      assert (-d - 1) * m >= 0;
    }
  }

  lemma {:induction false} DivisionIsUnique(x: nat, m: nat, q: nat, r: nat)
    requires x == q * m + r && r < m
    ensures x / m == q && x % m == r
  {
    var d := x / m - q;
    assert x == (x / m) * m + x % m;
    assert d * m == r - x % m;
    if d != 0 {
      Spread(d, m);
    }
  }

  lemma {:induction false} HalfFirst(v: nat, p: nat)
    requires p > 0
    ensures v % (2 * p) == 2 * (v / 2 % p) + v % 2
    ensures v / (2 * p) == v / 2 / p
  {
    var q, r := v / 2 / p, v / 2 % p;
    assert v / 2 == q * p + r;
    assert v == q * (2 * p) + (2 * r + v % 2);
    DivisionIsUnique(v, 2 * p, q, 2 * r + v % 2);
  }

  lemma {:induction false} HalvedDivides(w: nat, k: nat)
    ensures Halved(w, k) == w / Pow2(k)
    decreases k
  {
    if k > 0 {
      HalvedDivides(w / 2, k - 1);
      HalfFirst(w, Pow2(k - 1));
    }
  }

  /** A mask of the k lowest bits keeps the remainder modulo 2^k. */
  lemma {:induction false} LowMask(v: nat, k: nat)
    ensures BitAnd(v, Pow2(k) - 1) == v % Pow2(k)
    decreases k
  {
    if k == 0 {
      NothingMasked(v);
    } else {
      HalfFirst(v, Pow2(k - 1));
      LowMask(v / 2, k - 1);
      assert (Pow2(k) - 1) / 2 == Pow2(k - 1) - 1 && (Pow2(k) - 1) % 2 == 1;
    }
  }

  lemma {:induction false} NothingMasked(v: nat)
    ensures BitAnd(v, 0) == 0
  {
    if v > 0 {
      NothingMasked(v / 2);
    }
  }

  lemma {:induction false} EvenMask(v: nat, m: nat)
    ensures BitAnd(v, 2 * m) == 2 * BitAnd(v / 2, m)
  {
  }

  /** Clears the k lowest bits. */
  function RoundedDown(v: nat, k: nat): nat {
    if k == 0 then v else 2 * RoundedDown(v / 2, k - 1)
  }

  lemma {:induction false} RoundedDownIs(v: nat, k: nat)
    ensures RoundedDown(v, k) == v - v % Pow2(k)
    decreases k
  {
    if k > 0 {
      RoundedDownIs(v / 2, k - 1);
      HalfFirst(v, Pow2(k - 1));
    }
  }

  /** A mask of all but the k lowest of n bits rounds down to a multiple of 2^k. */
  lemma {:induction false} HighMask(v: nat, k: nat, n: nat)
    requires k <= n && v < Pow2(n)
    ensures Pow2(k) <= Pow2(n)
    ensures BitAnd(v, Pow2(n) - Pow2(k)) == RoundedDown(v, k)
    decreases k
  {
    Pow2Grows(k, n);
    if k == 0 {
      LowMask(v, n);
      DivisionIsUnique(v, Pow2(n), 0, v);
    } else {
      HighMask(v / 2, k - 1, n - 1);
      EvenMask(v, Pow2(n - 1) - Pow2(k - 1));
    }
  }

  /** Joining bits below a multiple of 2^k is addition. */
  lemma {:induction false} OrIsSum(a: nat, o: nat, k: nat)
    requires o < Pow2(k)
    ensures BitOr(a * Pow2(k), o) == a * Pow2(k) + o
    decreases k
  {
    if a == 0 {
      assert a * Pow2(k) == 0;
    } else if k == 0 {
      NothingJoined(a);
    } else {
      var p := Pow2(k - 1);
      assert a * Pow2(k) == 2 * (a * p);
      OrIsSum(a, o / 2, k - 1);
      assert a * p > 0;
    }
  }

  lemma {:induction false} NothingJoined(a: nat)
    ensures BitOr(a, 0) == a
  {
    if a > 0 {
      NothingJoined(a / 2);
    }
  }

  lemma {:induction false} Powers()
    ensures Pow2(8) == 256 && Pow2(16) == 0x1_0000 && Pow2(24) == 0x100_0000 && Pow2(32) == 0x1_0000_0000
  {
    assert Pow2(4) == 16;
    assert Pow2(8) == 256;
    assert Pow2(12) == 4096;
    assert Pow2(16) == 0x1_0000;
    assert Pow2(20) == 0x10_0000;
    assert Pow2(24) == 0x100_0000;
    assert Pow2(28) == 0x1000_0000;
    assert Pow2(32) == 0x1_0000_0000;
  }

  lemma {:induction false} ShlMultiplies(x: int, k: nat)
    requires k < 32
    ensures Pattern(Shl(x, k)) == Pattern(Pattern(x) * Pow2(k))
  {
    SignedPattern(Pattern(Pattern(x) * Pow2(k)));
  }

  lemma {:induction false} OrByte(r: nat, octet: nat)
    requires octet < 256
    ensures BitOr(r * 256, octet) == r * 256 + octet
  {
    Powers();
    OrIsSum(r, octet, 8);
  }

  lemma {:induction false} OrOfWords(a: nat, b: nat)
    requires a < 0x1_0000_0000 && b < 0x1_0000_0000 && BitOr(a, b) < 0x1_0000_0000
    ensures Pattern(Signed(Pattern(BitOr(a, b)))) == BitOr(a, b)
  {
    SignedPattern(BitOr(a, b));
  }

  lemma {:induction false} OctetJoined(shifted: int, r: nat, octet: nat)
    requires r < 0x100_0000 && octet < 256 && Pattern(shifted) == r * 256
    ensures Pattern(Or(shifted, octet)) == r * 256 + octet
  {
    assert Pattern(octet) == octet;
    OrByte(r, octet);
    OrOfWords(r * 256, octet);
  }

  lemma {:induction false} ShiftedByte(w: nat)
    ensures w * 256 % 0x1_0000_0000 == w % 0x100_0000 * 256
  {
  }

  lemma {:induction false} ShiftedLeft(value: int)
    ensures Pattern(Shl(value, 8)) == Pattern(value) % 0x100_0000 * 256
  {
    ShlMultiplies(value, 8);
    Powers();
    ShiftedByte(Pattern(value));
  }

  /** One turn of `value = (value << 8) | octet` shifts in a base-256 digit, dropping what leaves the word. */
  lemma {:induction false} ShiftInOctet(value: int, octet: nat)
    requires octet < 256
    ensures Pattern(Or(Shl(value, 8), octet)) == Pattern(value) % 0x100_0000 * 256 + octet
  {
    var r: nat := Pattern(value) % 0x100_0000;
    ShiftedLeft(value);
    OctetJoined(Shl(value, 8), r, octet);
  }

  lemma {:induction false} TopBits(p: nat)
    requires 0 < p <= 0x1_0000_0000
    ensures 0xffffffff * p % 0x1_0000_0000 == 0x1_0000_0000 - p
  {
  }

  /** `(0xffffffff << s) >>> 0` is the word with its s lowest bits clear. */
  lemma {:induction false} PrefixMask(s: nat)
    requires s < 32
    ensures Pow2(s) <= 0x1_0000_0000
    ensures Ushr(Shl(0xffffffff, s), 0) == 0x1_0000_0000 - Pow2(s)
  {
    Powers();
    Pow2Grows(s, 32);
    ShlMultiplies(0xffffffff, s);
    TopBits(Pow2(s));
  }

  /** The block of `size` consecutive numbers that x belongs to starts here. */
  function BlockStart(x: nat, size: nat): nat
    requires size > 0
  {
    x - x % size
  }

  lemma {:induction false} SameBlock(x: nat, y: nat, size: nat)
    requires size > 0
    ensures BlockStart(x, size) == BlockStart(y, size) <==> BlockStart(y, size) <= x < BlockStart(y, size) + size
  {
    var q := y / size;
    var first := BlockStart(y, size);
    assert first == q * size;
    if first <= x < first + size {
      DivisionIsUnique(x, size, q, x - first);
    }
  }

  lemma {:induction false} AndOfWords(a: nat, b: nat)
    requires a < 0x1_0000_0000 && b < 0x1_0000_0000
    ensures BitAnd(a, b) < 0x1_0000_0000 && And(a, b) == Signed(BitAnd(a, b))
  {
    assert Pattern(a) == a && Pattern(b) == b;
  }

  lemma {:induction false} AndsAgree(a: nat, b: nat, mask: nat)
    requires a < 0x1_0000_0000 && b < 0x1_0000_0000 && mask < 0x1_0000_0000
    ensures And(a, mask) == And(b, mask) <==> BitAnd(a, mask) == BitAnd(b, mask)
  {
    AndOfWords(a, mask);
    AndOfWords(b, mask);
    SignedInjective(BitAnd(a, mask), BitAnd(b, mask));
  }

  lemma {:induction false} MaskTest(value: nat, base: nat, s: nat)
    requires value < 0x1_0000_0000 && base < 0x1_0000_0000 && s < 32
    ensures Pow2(s) <= 0x1_0000_0000
    ensures And(value, 0x1_0000_0000 - Pow2(s)) == And(base, 0x1_0000_0000 - Pow2(s))
            <==> BlockStart(base, Pow2(s)) <= value < BlockStart(base, Pow2(s)) + Pow2(s)
  {
    MaskRoundsDown(value, s);
    MaskRoundsDown(base, s);
    AndsAgree(value, base, 0x1_0000_0000 - Pow2(s));
    SameBlock(value, base, Pow2(s));
  }

  /** Equal after masking means inside the block the base belongs to, for every 32-bit number and prefix. */
  lemma {:induction false} MaskTestIsInterval(value: nat, base: nat, bits: nat)
    requires value < 0x1_0000_0000 && base < 0x1_0000_0000 && 1 <= bits <= 32
    ensures
      var mask := Ushr(Shl(0xffffffff, 32 - bits), 0);
      var first := BlockStart(base, Pow2(32 - bits));
      And(value, mask) == And(base, mask) <==> first <= value < first + Pow2(32 - bits)
  {
    PrefixMask(32 - bits);
    MaskTest(value, base, 32 - bits);
  }

  lemma {:induction false} MaskRoundsDown(v: nat, s: nat)
    requires v < 0x1_0000_0000 && s < 32
    ensures Pow2(s) <= 0x1_0000_0000 && BitAnd(v, 0x1_0000_0000 - Pow2(s)) == BlockStart(v, Pow2(s))
  {
    Powers();
    HighMask(v, s, 32);
    RoundedDownIs(v, s);
  }

  /** `x & 0xff` and `x & 0xffff` are remainders, `x >>> 8` and `x >>> 16` quotients. */
  lemma {:induction false} LowBits(x: nat, k: nat)
    requires x < 0x1_0000_0000 && k <= 16
    ensures 0 < Pow2(k) <= 0x1_0000 && And(x, Pow2(k) - 1) == x % Pow2(k)
  {
    Powers();
    Pow2Grows(k, 16);
    LowMask(x, k);
    AndOfWords(x, Pow2(k) - 1);
  }

  lemma {:induction false} HighBits(x: nat, k: nat)
    requires x < 0x1_0000_0000 && k < 32
    ensures Ushr(x, k) == x / Pow2(k)
  {
    assert Ushr(x, k) == Halved(x, k) by {
      assert Pattern(x) == x && k % 32 == k;
    }
    HalvedDivides(x, k);
  }

  lemma {:induction false} Bytes(x: nat)
    requires x < 0x1_0000_0000
    ensures And(x, 0xff) == x % 0x100 && Ushr(x, 8) == x / 0x100
    ensures And(x, 0xffff) == x % 0x1_0000 && Ushr(x, 16) == x / 0x1_0000
  {
    Powers();
    LowBits(x, 8);
    HighBits(x, 8);
    LowBits(x, 16);
    HighBits(x, 16);
  }

  /** The masks 0xfe00, 0xffc0 and 0xff00 round a 16-bit group down to a multiple of 0x200, 0x40 and 0x100. */
  lemma {:induction false} GroupMasks(x: nat)
    requires x < 0x1_0000
    ensures And(x, 0xfe00) == x - x % 0x200
    ensures And(x, 0xffc0) == x - x % 0x40
    ensures And(x, 0xff00) == x - x % 0x100
  {
    assert Pow2(9) == 0x200 && Pow2(6) == 0x40;
    GroupMask(x, 9);
    GroupMask(x, 6);
    Powers();
    GroupMask(x, 8);
  }

  lemma {:induction false} GroupMask(x: nat, k: nat)
    requires x < 0x1_0000 && k <= 16
    ensures 0 < Pow2(k) <= 0x1_0000
    ensures And(x, 0x1_0000 - Pow2(k)) == x - x % Pow2(k)
  {
    Powers();
    HighMask(x, k, 16);
    RoundedDownIs(x, k);
    AndOfWords(x, 0x1_0000 - Pow2(k));
  }
}
