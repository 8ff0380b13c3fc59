/**
 The IPv4 half of the URL guard: reading an address into a 32-bit word and testing it against CIDR
 blocks with masks.  The partner definitions are the blocks as plain intervals of numbers.
 */
module Ipv4 {
  import opened Arithmetic
  import opened JsBits
  import opened Text
  import opened Wrappers

  /** One part of a dotted address, as `Number` reads it: digits only, the empty string being zero. */
  predicate IsOctet(part: string) {
    AllDigits(part) && Decimal(part) <= 255
  }

  /** The number a dotted address stands for: four base-256 digits. */
  function V4Value(address: string): (r: Option<nat>)
    ensures r.Some? ==> r.value < 0x1_0000_0000
  {
    var parts := Split(address, '.');
    if |parts| == 4 && IsOctet(parts[0]) && IsOctet(parts[1]) && IsOctet(parts[2]) && IsOctet(parts[3])
    then Some(Decimal(parts[0]) * 0x100_0000 + Decimal(parts[1]) * 0x1_0000 + Decimal(parts[2]) * 0x100 + Decimal(parts[3]))
    else None
  }

  predicate OctetsUpTo(parts: seq<string>, n: nat) {
    n <= |parts| && forall k: nat :: k < n ==> IsOctet(parts[k])
  }

  /** The value of the first `n` octets. */
  function Leading(parts: seq<string>, n: nat): (r: nat)
    requires n <= 4 && OctetsUpTo(parts, n)
    ensures n == 0 ==> r == 0
    ensures n == 1 ==> r < 0x100
    ensures n == 2 ==> r < 0x1_0000
    ensures n == 3 ==> r < 0x100_0000
  {
    if n == 0 then 0 else Leading(parts, n - 1) * 0x100 + Decimal(parts[n - 1])
  }

  lemma {:induction false} LeadingFour(parts: seq<string>)
    requires |parts| == 4 && OctetsUpTo(parts, 4)
    ensures Leading(parts, 4) == Decimal(parts[0]) * 0x100_0000 + Decimal(parts[1]) * 0x1_0000 + Decimal(parts[2]) * 0x100 + Decimal(parts[3])
  {
    assert Leading(parts, 1) == Decimal(parts[0]);
    assert Leading(parts, 2) == Leading(parts, 1) * 0x100 + Decimal(parts[1]);
    assert Leading(parts, 3) == Leading(parts, 2) * 0x100 + Decimal(parts[2]);
  }

  lemma {:induction false} LeadingStep(w: nat, parts: seq<string>, i: nat)
    requires i < 4 && OctetsUpTo(parts, i + 1) && w == Leading(parts, i)
    ensures w % 0x100_0000 * 0x100 + Decimal(parts[i]) == Leading(parts, i + 1)
  {
    assert w < 0x100_0000;
  }

  /** `(value << 8) | octet`. */
  method ShiftIn(value: int, octet: nat) returns (next: int)
    requires octet < 256
    ensures Pattern(next) == Pattern(value) % 0x100_0000 * 0x100 + octet
  {
    ShiftInOctet(value, octet);
    next := Or(Shl(value, 8), octet);
  }

  /** Shifting octets into a signed 32-bit word and reading it unsigned is base-256 notation. */
  method V4ToInt(address: string) returns (r: Option<nat>)
    ensures r == V4Value(address)
  {
    var parts := Split(address, '.');
    if |parts| != 4 {
      return None;
    }
    var value: int := 0;
    for i := 0 to 4
      invariant OctetsUpTo(parts, i)
      invariant Pattern(value) == Leading(parts, i)
    {
      var part := parts[i];
      if !IsOctet(part) {
        return None;
      }
      assert OctetsUpTo(parts, i + 1);
      LeadingStep(Pattern(value), parts, i);
      value := ShiftIn(value, Decimal(part));
    }
    LeadingFour(parts);
    r := Some(Ushr(value, 0));
  }

  /** An address joined from four octets is read back as their number. */
  lemma {:induction false} QuadIsRead(parts: seq<string>)
    requires |parts| == 4 && OctetsUpTo(parts, 4)
    ensures Split(Join(parts, '.'), '.') == parts
    ensures V4Value(Join(parts, '.')) == Some(Decimal(parts[0]) * 0x100_0000 + Decimal(parts[1]) * 0x1_0000 + Decimal(parts[2]) * 0x100 + Decimal(parts[3]))
  {
    forall i | 0 <= i < 4
      ensures '.' !in parts[i]
    {
      assert IsOctet(parts[i]);
    }
    SplitJoined(parts, '.');
  }

  lemma {:induction false} PrintedQuadIsRead(a: nat, b: nat, c: nat, d: nat)
    requires a < 0x100 && b < 0x100 && c < 0x100 && d < 0x100
    ensures V4Value(Join([Print(a), Print(b), Print(c), Print(d)], '.')) == Some(a * 0x100_0000 + b * 0x1_0000 + c * 0x100 + d)
  {
    PrintedIsRead(a);
    PrintedIsRead(b);
    PrintedIsRead(c);
    PrintedIsRead(d);
    QuadIsRead([Print(a), Print(b), Print(c), Print(d)]);
  }

  // ---------- The blocked networks ----------

  /** `a.b.c.d` and the number of prefix bits. */
  datatype Network = Network(a: nat, b: nat, c: nat, d: nat, bits: nat)

  predicate IsNetwork(n: Network) {
    n.a < 0x100 && n.b < 0x100 && n.c < 0x100 && n.d < 0x100 && n.bits <= 32
  }

  function Dotted(a: nat, b: nat, c: nat, d: nat): string {
    Join([Print(a), Print(b), Print(c), Print(d)], '.')
  }

  const BLOCKED_V4: seq<Network> := [
    Network(0, 0, 0, 0, 8), Network(10, 0, 0, 0, 8), Network(100, 64, 0, 0, 10), Network(127, 0, 0, 0, 8),
    Network(169, 254, 0, 0, 16), Network(172, 16, 0, 0, 12), Network(192, 0, 0, 0, 24), Network(192, 0, 2, 0, 24),
    Network(192, 168, 0, 0, 16), Network(198, 18, 0, 0, 15), Network(198, 51, 100, 0, 24), Network(203, 0, 113, 0, 24),
    Network(224, 0, 0, 0, 4), Network(240, 0, 0, 0, 4)]

  const BLOCKED_V4_EXACT: set<string> := {Dotted(100, 100, 100, 200), Dotted(255, 255, 255, 255)}

  predicate SamePrefix(value: nat, base: nat, bits: nat)
    requires bits <= 32
  {
    var mask := if bits == 0 then 0 else Ushr(Shl(0xffffffff, 32 - bits), 0);
    And(value, mask) == And(base, mask)
  }

  predicate InNetwork(value: nat, network: Network) {
    var base := V4Value(Dotted(network.a, network.b, network.c, network.d));
    base.Some? && network.bits <= 32 && SamePrefix(value, base.value, network.bits)
  }

  predicate InSomeNetwork(value: nat, networks: seq<Network>) {
    networks != [] && (InNetwork(value, networks[0]) || InSomeNetwork(value, networks[1..]))
  }

  predicate IsBlockedV4(address: string) {
    || address in BLOCKED_V4_EXACT
    || match V4Value(address)
       case None => true
       case Some(value) => InSomeNetwork(value, BLOCKED_V4)
  }

  /** First address and number of addresses of each block, in the order of the table. */
  const INTERVALS: seq<(nat, nat)> := [
    (0x00000000, 0x1000000), (0x0a000000, 0x1000000), (0x64400000, 0x400000), (0x7f000000, 0x1000000),
    (0xa9fe0000, 0x10000), (0xac100000, 0x100000), (0xc0000000, 0x100), (0xc0000200, 0x100),
    (0xc0a80000, 0x10000), (0xc6120000, 0x20000), (0xc6336400, 0x100), (0xcb007100, 0x100),
    (0xe0000000, 0x10000000), (0xf0000000, 0x10000000)]

  predicate InInterval(value: nat, interval: (nat, nat)) {
    interval.0 <= value < interval.0 + interval.1
  }

  predicate InSomeInterval(value: nat, intervals: seq<(nat, nat)>) {
    exists i :: 0 <= i < |intervals| && InInterval(value, intervals[i])
  }

  /** The special-purpose blocks as intervals. */
  predicate Reserved(value: nat) {
    InSomeInterval(value, INTERVALS)
  }

  lemma {:induction false} PrefixIsInterval(value: nat, bits: nat, base: nat, size: nat)
    requires value < 0x1_0000_0000 && base < 0x1_0000_0000 && 1 <= bits <= 32
    requires size == Pow2(32 - bits) && base % size == 0
    ensures SamePrefix(value, base, bits) <==> InInterval(value, (base, size))
  {
    MaskTestIsInterval(value, base, bits);
  }

  lemma {:induction false} NetworkIsInterval(value: nat, n: Network, base: nat, size: nat)
    requires value < 0x1_0000_0000 && IsNetwork(n) && 1 <= n.bits
    requires base == n.a * 0x100_0000 + n.b * 0x1_0000 + n.c * 0x100 + n.d
    requires size == Pow2(32 - n.bits) && base % size == 0
    ensures InNetwork(value, n) <==> InInterval(value, (base, size))
  {
    PrintedQuadIsRead(n.a, n.b, n.c, n.d);
    PrefixIsInterval(value, n.bits, base, size);
  }

  lemma BlockSizes()
    ensures Pow2(8) == 0x100 && Pow2(16) == 0x1_0000 && Pow2(17) == 0x2_0000 && Pow2(20) == 0x10_0000
    ensures Pow2(22) == 0x40_0000 && Pow2(24) == 0x100_0000 && Pow2(28) == 0x1000_0000
  {
    Powers();
    assert Pow2(18) == 4 * Pow2(16) && Pow2(20) == 4 * Pow2(18);
    assert Pow2(26) == 4 * Pow2(24) && Pow2(28) == 4 * Pow2(26);
  }

  predicate Describes(n: Network, interval: (nat, nat)) {
    && IsNetwork(n) && 1 <= n.bits
    && interval.0 == n.a * 0x100_0000 + n.b * 0x1_0000 + n.c * 0x100 + n.d
    && interval.1 == Pow2(32 - n.bits) && interval.0 % interval.1 == 0
  }

  lemma {:induction false} TableIsDescribed(i: nat)
    requires i < |BLOCKED_V4|
    ensures Describes(BLOCKED_V4[i], INTERVALS[i])
  {
    BlockSizes();
  }

  lemma {:induction false} TableIsIntervals(value: nat, i: nat)
    requires value < 0x1_0000_0000 && i < |BLOCKED_V4|
    ensures InNetwork(value, BLOCKED_V4[i]) <==> InInterval(value, INTERVALS[i])
  {
    TableIsDescribed(i);
    NetworkIsInterval(value, BLOCKED_V4[i], INTERVALS[i].0, INTERVALS[i].1);
  }

  /** Block by block the same, so the same as a whole. */
  lemma {:induction false} SameBlocks(value: nat, networks: seq<Network>, intervals: seq<(nat, nat)>)
    requires |networks| == |intervals|
    requires forall i :: 0 <= i < |networks| ==> (InNetwork(value, networks[i]) <==> InInterval(value, intervals[i]))
    ensures InSomeNetwork(value, networks) <==> InSomeInterval(value, intervals)
  {
    if networks != [] {
      SameBlocks(value, networks[1..], intervals[1..]);
      assert intervals == [intervals[0]] + intervals[1..];
    }
  }

  lemma ExactValuesAreReserved()
    ensures Reserved(0x646464c8) && Reserved(0xffffffff)
  {
    assert InInterval(0x646464c8, INTERVALS[2]);
    assert InInterval(0xffffffff, INTERVALS[13]);
  }

  /** The addresses listed one by one lie in the blocks anyway. */
  lemma {:induction false} ExactIsReserved(address: string)
    requires address in BLOCKED_V4_EXACT
    ensures V4Value(address).Some? && Reserved(V4Value(address).value)
  {
    PrintedQuadIsRead(100, 100, 100, 200);
    PrintedQuadIsRead(255, 255, 255, 255);
    ExactValuesAreReserved();
  }

  /** An address is blocked exactly when it does not parse or lies in one of the blocks. */
  lemma {:induction false} BlockedV4Iff(address: string)
    ensures IsBlockedV4(address) <==> V4Value(address).None? || Reserved(V4Value(address).value)
  {
    if address in BLOCKED_V4_EXACT {
      ExactIsReserved(address);
    } else if V4Value(address).Some? {
      var value := V4Value(address).value;
      forall i: nat | i < |BLOCKED_V4|
        ensures InNetwork(value, BLOCKED_V4[i]) <==> InInterval(value, INTERVALS[i])
      {
        TableIsIntervals(value, i);
      }
      SameBlocks(value, BLOCKED_V4, INTERVALS);
    }
  }

  // ---------- Print, then parse again ----------

  /** Two 16-bit groups written as a dotted quad: `g[6] >>> 8`, `g[6] & 0xff` and so on. */
  function AsV4(g6: nat, g7: nat): string
    requires g6 < 0x1_0000 && g7 < 0x1_0000
  {
    Bytes(g6);
    Bytes(g7);
    Join([Print(Ushr(g6, 8)), Print(And(g6, 0xff)), Print(Ushr(g7, 8)), Print(And(g7, 0xff))], '.')
  }

  lemma {:induction false} AsV4Prints(g6: nat, g7: nat)
    requires g6 < 0x1_0000 && g7 < 0x1_0000
    ensures AsV4(g6, g7) == Join([Print(g6 / 0x100), Print(g6 % 0x100), Print(g7 / 0x100), Print(g7 % 0x100)], '.')
  {
    Bytes(g6);
    Bytes(g7);
  }

  lemma OctetsOfGroups(g6: nat, g7: nat)
    ensures g6 / 0x100 * 0x100_0000 + g6 % 0x100 * 0x1_0000 + g7 / 0x100 * 0x100 + g7 % 0x100 == g6 * 0x1_0000 + g7
  {
  }

  lemma {:induction false} PrintedGroupsAreRead(g6: nat, g7: nat)
    requires g6 < 0x1_0000 && g7 < 0x1_0000
    ensures V4Value(Join([Print(g6 / 0x100), Print(g6 % 0x100), Print(g7 / 0x100), Print(g7 % 0x100)], '.')) == Some(g6 * 0x1_0000 + g7)
  {
    OctetsOfGroups(g6, g7);
    PrintedQuadIsRead(g6 / 0x100, g6 % 0x100, g7 / 0x100, g7 % 0x100);
  }

  /** Printing an embedded address and parsing the text again loses nothing. */
  lemma {:induction false} AsV4IsRead(g6: nat, g7: nat)
    requires g6 < 0x1_0000 && g7 < 0x1_0000
    ensures V4Value(AsV4(g6, g7)) == Some(g6 * 0x1_0000 + g7)
  {
    AsV4Prints(g6, g7);
    PrintedGroupsAreRead(g6, g7);
  }
}
