/**
 The IPv6 half of the URL guard: reading the text of an address into eight groups, and judging the
 groups.  The partner definitions are the spellings of section 2.2 of RFC 4291 with the groups they
 stand for, and the blocked ranges as intervals.
 */
module Ipv6 {
  import opened JsBits
  import opened Text
  import opened Wrappers
  import opened Ipv4

  /** What the parser does with a text: eight groups, null, or a RangeError from `Array(-n)`. */
  datatype Parse = Groups(groups: seq<nat>) | Rejected | Throws

  function LowerChar(c: char): char {
    if 'A' <= c <= 'Z' then (c as int + 32) as char else c
  }

  function Lower(s: string): string {
    seq(|s|, i requires 0 <= i < |s| => LowerChar(s[i]))
  }

  function WithoutBrackets(s: string): string {
    var t := if s != "" && s[0] == '[' then s[1..] else s;
    if t != "" && t[|t| - 1] == ']' then t[..|t| - 1] else t
  }

  /** Everything before the first '%'. */
  function WithoutZone(s: string): string {
    if s == "" || s[0] == '%' then "" else [s[0]] + WithoutZone(s[1..])
  }

  // ---------- The dotted tail ----------

  predicate ShortNumber(part: string) {
    1 <= |part| <= 3 && AllDigits(part)
  }

  /** `\d{1,3}(\.\d{1,3}){3}`, from end to end. */
  predicate IsDottedQuad(s: string) {
    var parts := Split(s, '.');
    |parts| == 4 && forall i :: 0 <= i < 4 ==> ShortNumber(parts[i])
  }

  /** The leftmost place from which the rest of the text is a dotted quad. */
  function QuadStart(text: string, i: nat): (r: Option<nat>)
    requires i <= |text|
    ensures r.Some? ==> i <= r.value <= |text| && IsDottedQuad(text[r.value..])
    decreases |text| - i
  {
    if IsDottedQuad(text[i..]) then Some(i)
    else if i == |text| then None
    else QuadStart(text, i + 1)
  }

  /** The colon that joined the quad goes; a '::' stays. */
  function WithoutColon(s: string): string {
    if |s| >= 1 && s[|s| - 1] == ':' && !(|s| >= 2 && s[|s| - 2] == ':') then s[..|s| - 1] else s
  }

  /** `value >>> 16` and `value & 0xffff`. */
  function TailGroups(value: nat): seq<nat>
    requires value < 0x1_0000_0000
  {
    Bytes(value);
    [Ushr(value, 16), And(value, 0xffff)]
  }

  datatype Cut = Cut(text: string, tail: seq<nat>) | BadQuad

  function CutQuad(text: string): Cut {
    match QuadStart(text, 0)
    case None => Cut(text, [])
    case Some(i) =>
      match V4Value(text[i..])
      case None => BadQuad
      case Some(value) => Cut(WithoutColon(text[..i]), TailGroups(value))
  }

  // ---------- The groups ----------

  /** `split("::")`. */
  function Halves(s: string): (halves: seq<string>)
    ensures halves != []
  {
    if |s| < 2 then [s]
    else if s[0] == ':' && s[1] == ':' then [""] + Halves(s[2..])
    else
      var halves := Halves(s[1..]);
      [[s[0]] + halves[0]] + halves[1..]
  }

  predicate IsHex(c: char) {
    '0' <= c <= '9' || 'a' <= c <= 'f'
  }

  predicate IsField(s: string) {
    1 <= |s| <= 4 && forall i :: 0 <= i < |s| ==> IsHex(s[i])
  }

  function HexDigit(c: char): (d: nat)
    requires IsHex(c)
    ensures d < 16
  {
    if c <= '9' then c as int - '0' as int else c as int - 'a' as int + 10
  }

  function Hex(s: string): nat
    requires forall i :: 0 <= i < |s| ==> IsHex(s[i])
  {
    if s == "" then 0 else Hex(s[..|s| - 1]) * 16 + HexDigit(s[|s| - 1])
  }

  /** One to four hex digits, or NaN. */
  function Group(s: string): Option<nat> {
    if IsField(s) then Some(Hex(s)) else None
  }

  function NonEmpty(parts: seq<string>): seq<string> {
    if parts == [] then []
    else (if parts[0] == "" then [] else [parts[0]]) + NonEmpty(parts[1..])
  }

  function GroupsOf(part: string): seq<Option<nat>> {
    var fields := NonEmpty(Split(part, ':'));
    seq(|fields|, i requires 0 <= i < |fields| => Group(fields[i]))
  }

  function Zeros(n: nat): seq<nat> {
    seq(n, _ => 0)
  }

  function Known(groups: seq<nat>): seq<Option<nat>> {
    seq(|groups|, i requires 0 <= i < |groups| => Some(groups[i]))
  }

  predicate AllKnown(groups: seq<Option<nat>>) {
    forall i :: 0 <= i < |groups| ==> groups[i].Some?
  }

  function Values(groups: seq<Option<nat>>): seq<nat>
    requires AllKnown(groups)
  {
    seq(|groups|, i requires 0 <= i < |groups| => groups[i].value)
  }

  function Checked(groups: seq<Option<nat>>): Parse {
    if |groups| != 8 || !AllKnown(groups) then Rejected else Groups(Values(groups))
  }

  function Assembled(halves: seq<string>, tail: seq<nat>): Parse
    requires halves != []
  {
    if |halves| > 2 then Rejected
    else
      var head := GroupsOf(halves[0]);
      if |halves| == 1 then Checked(head + Known(tail))
      else
        var rest := GroupsOf(halves[1]);
        var missing := 8 - |head| - |rest| - |tail|;
        if missing < 0 then Throws
        else Checked(head + Known(Zeros(missing)) + rest + Known(tail))
  }

  function Parsed(address: string): Parse {
    match CutQuad(WithoutZone(WithoutBrackets(Lower(address))))
    case BadQuad => Rejected
    case Cut(text, tail) => Assembled(Halves(text), tail)
  }

  /** `text` is rewritten as pieces are taken off it; the quad leaves two groups in `tail`. */
  method ParseV6(address: string) returns (parse: Parse)
    ensures parse == Parsed(address)
  {
    var text := WithoutBrackets(Lower(address));
    text := WithoutZone(text);
    var tail: seq<nat> := [];
    ghost var cut := CutQuad(text);
    var dotted := QuadStart(text, 0);
    if dotted.Some? {
      var value := V4ToInt(text[dotted.value..]);
      if value.None? {
        return Rejected;
      }
      tail := tail + TailGroups(value.value);
      assert tail == TailGroups(value.value);
      text := WithoutColon(text[..dotted.value]);
    }
    assert Cut(text, tail) == cut;
    parse := Assembled(Halves(text), tail);
  }

  // ---------- Section 2.2 of RFC 4291 ----------

  /**
   A spelling in lower case: fields of one to four hex digits, at most one '::', and perhaps a dotted
   quad for the last 32 bits; optionally in brackets, optionally with a zone.
   */
  datatype Spelling = Spelling(head: seq<string>, gap: bool, rest: seq<string>, quad: seq<string>, bracketed: bool, zone: Option<string>)

  predicate AreFields(fields: seq<string>) {
    forall i :: 0 <= i < |fields| ==> IsField(fields[i])
  }

  predicate IsQuad(quad: seq<string>) {
    |quad| == 4 && forall i :: 0 <= i < 4 ==> ShortNumber(quad[i]) && Decimal(quad[i]) <= 255
  }

  predicate WellFormed(sp: Spelling) {
    AreFields(sp.head) && AreFields(sp.rest) && (!sp.gap ==> sp.rest == []) && (sp.quad == [] || IsQuad(sp.quad))
  }

  function Front(sp: Spelling): string {
    Join(sp.head, ':') + (if sp.gap then "::" else "") + Join(sp.rest, ':')
  }

  /** A quad follows a field after one colon, and a '::' directly. */
  function Joint(sp: Spelling): string {
    if (if sp.gap then sp.rest != [] else sp.head != []) then ":" else ""
  }

  function Body(sp: Spelling): string {
    if sp.quad == [] then Front(sp) else Front(sp) + Joint(sp) + Join(sp.quad, '.')
  }

  function Unbracketed(sp: Spelling): string {
    Body(sp) + (if sp.zone.Some? then "%" + sp.zone.value else "")
  }

  function Spelled(sp: Spelling): string {
    if sp.bracketed then "[" + Unbracketed(sp) + "]" else Unbracketed(sp)
  }

  function HexAll(fields: seq<string>): seq<nat>
    requires AreFields(fields)
  {
    seq(|fields|, i requires 0 <= i < |fields| => Hex(fields[i]))
  }

  /** The last 32 bits, two octets to a group. */
  function QuadGroups(quad: seq<string>): seq<nat>
    requires quad == [] || IsQuad(quad)
  {
    if quad == [] then []
    else [Decimal(quad[0]) * 0x100 + Decimal(quad[1]), Decimal(quad[2]) * 0x100 + Decimal(quad[3])]
  }

  function Explicit(sp: Spelling): nat {
    |sp.head| + |sp.rest| + (if sp.quad == [] then 0 else 2)
  }

  /** The eight groups a spelling stands for: the '::' fills up with zeros. */
  function Meaning(sp: Spelling): seq<nat>
    requires WellFormed(sp) && Explicit(sp) <= 8
  {
    HexAll(sp.head) + Zeros(8 - Explicit(sp)) + HexAll(sp.rest) + QuadGroups(sp.quad)
  }

  // ---------- Taking the text apart ----------

  /** Nothing but hex digits, colons and dots. */
  predicate Clean(s: string) {
    forall i :: 0 <= i < |s| ==> IsHex(s[i]) || s[i] == ':' || s[i] == '.'
  }

  lemma {:induction false} FieldsAreClean(fields: seq<string>)
    requires AreFields(fields)
    ensures Clean(Join(fields, ':')) && '.' !in Join(fields, ':')
    decreases |fields|
  {
    if fields != [] {
      assert IsField(fields[0]);
      if |fields| > 1 {
        FieldsAreClean(fields[1..]);
      }
    }
  }

  lemma {:induction false} QuadIsClean(quad: seq<string>)
    requires IsQuad(quad)
    ensures Clean(Join(quad, '.')) && Join(quad, '.') != ""
  {
    JoinFour(quad[0], quad[1], quad[2], quad[3], '.');
    assert quad == [quad[0], quad[1], quad[2], quad[3]];
  }

  lemma {:induction false} ZoneIsCut(body: string, zone: string)
    requires Clean(body)
    ensures WithoutZone(body + "%" + zone) == body && WithoutZone(body) == body
    decreases |body|
  {
    if body != "" {
      assert (body + "%" + zone)[1..] == body[1..] + "%" + zone;
      ZoneIsCut(body[1..], zone);
      assert [body[0]] + body[1..] == body;
    }
  }

  lemma BracketsAreRemoved(inner: string)
    ensures WithoutBrackets("[" + inner + "]") == inner
  {
    var t := "[" + inner + "]";
    assert t[1..] == inner + "]";
    assert (inner + "]")[..|inner|] == inner;
  }

  /** Without brackets of its own, a spelling can lose at most the last character of its zone. */
  lemma {:induction false} ZoneEndMayGo(body: string, zone: string)
    requires Clean(body)
    ensures WithoutZone(WithoutBrackets(body + "%" + zone)) == body
  {
    var t := body + "%" + zone;
    if t[|t| - 1] == ']' {
      assert zone != "";
      assert t[..|t| - 1] == body + "%" + zone[..|zone| - 1];
      ZoneIsCut(body, zone[..|zone| - 1]);
    } else {
      ZoneIsCut(body, zone);
    }
  }

  lemma CleanIsKept(body: string)
    requires Clean(body)
    ensures WithoutBrackets(body) == body
  {
  }

  lemma {:induction false} WrappingIsRemoved(sp: Spelling)
    requires Clean(Body(sp))
    ensures WithoutZone(WithoutBrackets(Spelled(sp))) == Body(sp)
  {
    if sp.zone.Some? {
      ZoneIsCut(Body(sp), sp.zone.value);
      ZoneEndMayGo(Body(sp), sp.zone.value);
      assert Unbracketed(sp) == Body(sp) + "%" + sp.zone.value;
    } else {
      ZoneIsCut(Body(sp), "");
      CleanIsKept(Body(sp));
      assert Unbracketed(sp) == Body(sp);
    }
    BracketsAreRemoved(Unbracketed(sp));
  }

  /** A dotted quad holds dots and digits only. */
  lemma {:induction false} NotQuad(s: string)
    requires ':' in s || '.' !in s
    ensures !IsDottedQuad(s)
  {
    if '.' !in s {
      SplitWhole(s, '.');
    } else {
      SplitKeeps(s, '.', ':');
    }
  }

  lemma {:induction false} QuadStartIs(text: string, i: nat, at: nat)
    requires i <= at <= |text| && IsDottedQuad(text[at..])
    requires at > 0 ==> text[at - 1] == ':'
    ensures QuadStart(text, i) == Some(at)
    decreases at - i
  {
    if i < at {
      assert text[i..][at - 1 - i] == ':';
      NotQuad(text[i..]);
      QuadStartIs(text, i + 1, at);
    }
  }

  lemma {:induction false} NoQuadStart(text: string, i: nat)
    requires i <= |text| && '.' !in text
    ensures QuadStart(text, i).None?
    decreases |text| - i
  {
    NotQuad(text[i..]);
    if i < |text| {
      NoQuadStart(text, i + 1);
    }
  }

  lemma {:induction false} FieldsEndInHex(fields: seq<string>)
    requires AreFields(fields) && fields != []
    ensures var t := Join(fields, ':'); t != "" && IsHex(t[0]) && IsHex(t[|t| - 1])
    decreases |fields|
  {
    assert IsField(fields[0]);
    if |fields| > 1 {
      FieldsEndInHex(fields[1..]);
    }
  }

  /** What stands before the quad: nothing, a '::', or a field and one colon. */
  lemma {:induction false} JointIsTaken(sp: Spelling)
    requires WellFormed(sp)
    ensures WithoutColon(Front(sp) + Joint(sp)) == Front(sp)
    ensures var t := Front(sp) + Joint(sp); t != "" && (sp.gap || sp.head != []) ==> t[|t| - 1] == ':'
    ensures !(sp.gap || sp.head != []) ==> Front(sp) + Joint(sp) == ""
  {
    var t := Front(sp) + Joint(sp);
    if sp.gap && sp.rest == [] {
      assert t == Join(sp.head, ':') + "::";
    } else if sp.gap {
      FieldsEndInHex(sp.rest);
      assert t[..|t| - 1] == Front(sp);
    } else if sp.head != [] {
      FieldsEndInHex(sp.head);
      assert Front(sp) == Join(sp.head, ':');
      assert t[..|t| - 1] == Front(sp);
    }
  }

  lemma {:induction false} FrontIsClean(sp: Spelling)
    requires WellFormed(sp)
    ensures Clean(Front(sp)) && '.' !in Front(sp)
  {
    FieldsAreClean(sp.head);
    FieldsAreClean(sp.rest);
  }

  lemma {:induction false} BodyIsClean(sp: Spelling)
    requires WellFormed(sp)
    ensures Clean(Body(sp))
  {
    FrontIsClean(sp);
    if sp.quad != [] {
      QuadIsClean(sp.quad);
    }
  }

  lemma TailDivides(value: nat)
    requires value < 0x1_0000_0000
    ensures TailGroups(value) == [value / 0x1_0000, value % 0x1_0000]
  {
    Bytes(value);
  }

  lemma {:induction false} TailGroupsAre(a: nat, b: nat, c: nat, d: nat)
    requires a < 0x100 && b < 0x100 && c < 0x100 && d < 0x100
    ensures TailGroups(a * 0x100_0000 + b * 0x1_0000 + c * 0x100 + d) == [a * 0x100 + b, c * 0x100 + d]
  {
    var value := a * 0x100_0000 + b * 0x1_0000 + c * 0x100 + d;
    DivisionIsUnique(value, 0x1_0000, a * 0x100 + b, c * 0x100 + d);
    TailDivides(value);
  }

  lemma {:induction false} QuadIsOctets(quad: seq<string>)
    requires IsQuad(quad)
    ensures OctetsUpTo(quad, 4)
  {
    forall k: nat | k < 4
      ensures IsOctet(quad[k])
    {
      assert ShortNumber(quad[k]);
    }
  }

  lemma {:induction false} QuadGroupsAre(quad: seq<string>)
    requires IsQuad(quad)
    ensures TailGroups(Decimal(quad[0]) * 0x100_0000 + Decimal(quad[1]) * 0x1_0000 + Decimal(quad[2]) * 0x100 + Decimal(quad[3]))
            == QuadGroups(quad)
  {
    forall k | 0 <= k < 4
      ensures Decimal(quad[k]) < 0x100
    {
      assert ShortNumber(quad[k]);
    }
    TailGroupsAre(Decimal(quad[0]), Decimal(quad[1]), Decimal(quad[2]), Decimal(quad[3]));
  }

  lemma {:induction false} QuadIsValued(quad: seq<string>)
    requires IsQuad(quad)
    ensures IsDottedQuad(Join(quad, '.'))
    ensures V4Value(Join(quad, '.')).Some?
    ensures TailGroups(V4Value(Join(quad, '.')).value) == QuadGroups(quad)
  {
    QuadIsOctets(quad);
    QuadIsRead(quad);
    QuadGroupsAre(quad);
  }

  lemma {:induction false} QuadIsCut(sp: Spelling)
    requires WellFormed(sp)
    ensures CutQuad(Body(sp)) == Cut(Front(sp), QuadGroups(sp.quad))
  {
    FrontIsClean(sp);
    if sp.quad == [] {
      NoQuadStart(Front(sp), 0);
    } else {
      var before := Front(sp) + Joint(sp);
      JointIsTaken(sp);
      QuadIsValued(sp.quad);
      assert Body(sp)[..|before|] == before && Body(sp)[|before|..] == Join(sp.quad, '.');
      assert before != "" ==> before[|before| - 1] == ':';
      QuadStartIs(Body(sp), 0, |before|);
    }
  }

  // ---------- Halves and groups ----------

  predicate NoDouble(s: string) {
    forall i :: 0 <= i < |s| - 1 ==> !(s[i] == ':' && s[i + 1] == ':')
  }

  lemma {:induction false} HalvesWhole(s: string)
    requires NoDouble(s)
    ensures Halves(s) == [s]
    decreases |s|
  {
    if |s| >= 2 {
      HalvesWhole(s[1..]);
      assert [s[0]] + s[1..] == s;
    }
  }

  lemma {:induction false} HalvesAtGap(a: string, b: string)
    requires NoDouble(a) && (a != "" ==> a[|a| - 1] != ':') && NoDouble(b)
    ensures Halves(a + "::" + b) == [a, b]
    decreases |a|
  {
    var s := a + "::" + b;
    if a == "" {
      HalvesWhole(b);
      assert s[2..] == b;
    } else {
      assert s[1..] == a[1..] + "::" + b;
      HalvesAtGap(a[1..], b);
      assert [a[0]] + a[1..] == a;
      assert !(s[0] == ':' && s[1] == ':');
    }
  }

  lemma {:induction false} FieldsHaveNoDouble(fields: seq<string>)
    requires AreFields(fields)
    ensures NoDouble(Join(fields, ':'))
    decreases |fields|
  {
    if fields != [] {
      assert IsField(fields[0]);
      if |fields| > 1 {
        FieldsHaveNoDouble(fields[1..]);
        FieldsEndInHex(fields[1..]);
      }
    }
  }

  lemma {:induction false} NoneEmpty(fields: seq<string>)
    requires AreFields(fields)
    ensures NonEmpty(fields) == fields
    decreases |fields|
  {
    if fields != [] {
      assert IsField(fields[0]);
      NoneEmpty(fields[1..]);
      assert [fields[0]] + fields[1..] == fields;
    }
  }

  lemma {:induction false} FieldsAreRead(fields: seq<string>)
    requires AreFields(fields)
    ensures GroupsOf(Join(fields, ':')) == Known(HexAll(fields))
  {
    if fields == [] {
      assert Split("", ':') == [""];
      assert NonEmpty([""]) == [] by {
        assert [""][1..] == [];
      }
    } else {
      forall i | 0 <= i < |fields|
        ensures ':' !in fields[i]
      {
        assert IsField(fields[i]);
      }
      SplitJoined(fields, ':');
      NoneEmpty(fields);
      assert forall i :: 0 <= i < |fields| ==> Group(fields[i]) == Some(Hex(fields[i]));
    }
  }

  lemma {:induction false} KnownIsChecked(groups: seq<nat>)
    ensures Checked(Known(groups)) == if |groups| == 8 then Groups(groups) else Rejected
  {
    assert Values(Known(groups)) == groups;
  }

  lemma KnownJoins(a: seq<nat>, b: seq<nat>)
    ensures Known(a) + Known(b) == Known(a + b)
  {
  }

  /** With a '::' the front falls into two halves, without one it stays whole. */
  lemma {:induction false} FrontHalves(sp: Spelling)
    requires WellFormed(sp)
    ensures Halves(Front(sp)) == if sp.gap then [Join(sp.head, ':'), Join(sp.rest, ':')] else [Join(sp.head, ':')]
  {
    FieldsHaveNoDouble(sp.head);
    FieldsHaveNoDouble(sp.rest);
    if sp.gap {
      if sp.head != [] {
        FieldsEndInHex(sp.head);
      }
      HalvesAtGap(Join(sp.head, ':'), Join(sp.rest, ':'));
    } else {
      assert Front(sp) == Join(sp.head, ':');
      HalvesWhole(Front(sp));
    }
  }

  lemma {:induction false} GapIsAssembled(a: string, b: string, head: seq<nat>, rest: seq<nat>, tail: seq<nat>)
    requires GroupsOf(a) == Known(head) && GroupsOf(b) == Known(rest)
    ensures
      var missing := 8 - |head| - |rest| - |tail|;
      Assembled([a, b], tail) == if missing < 0 then Throws else Groups(head + Zeros(missing) + rest + tail)
  {
    var missing := 8 - |head| - |rest| - |tail|;
    if missing >= 0 {
      var zeros := Zeros(missing);
      KnownJoins(head, zeros);
      KnownJoins(head + zeros, rest);
      KnownJoins(head + zeros + rest, tail);
      KnownIsChecked(head + zeros + rest + tail);
    }
  }

  lemma {:induction false} WholeIsAssembled(a: string, head: seq<nat>, tail: seq<nat>)
    requires GroupsOf(a) == Known(head)
    ensures Assembled([a], tail) == if |head| + |tail| == 8 then Groups(head + tail) else Rejected
  {
    KnownJoins(head, tail);
    KnownIsChecked(head + tail);
  }

  lemma {:induction false} FrontIsAssembled(sp: Spelling)
    requires WellFormed(sp)
    ensures Assembled(Halves(Front(sp)), QuadGroups(sp.quad)) ==
            if Explicit(sp) == 8 || (sp.gap && Explicit(sp) < 8) then Groups(Meaning(sp))
            else if sp.gap then Throws
            else Rejected
  {
    FrontHalves(sp);
    if sp.gap {
      GapMeans(sp);
    } else {
      WholeMeans(sp);
    }
  }

  lemma {:induction false} GapMeans(sp: Spelling)
    requires WellFormed(sp) && sp.gap
    ensures Assembled([Join(sp.head, ':'), Join(sp.rest, ':')], QuadGroups(sp.quad)) ==
            if Explicit(sp) <= 8 then Groups(Meaning(sp)) else Throws
  {
    FieldsAreRead(sp.head);
    FieldsAreRead(sp.rest);
    GapIsAssembled(Join(sp.head, ':'), Join(sp.rest, ':'), HexAll(sp.head), HexAll(sp.rest), QuadGroups(sp.quad));
  }

  lemma {:induction false} WholeMeans(sp: Spelling)
    requires WellFormed(sp) && !sp.gap
    ensures Assembled([Join(sp.head, ':')], QuadGroups(sp.quad)) ==
            if Explicit(sp) == 8 then Groups(Meaning(sp)) else Rejected
  {
    FieldsAreRead(sp.head);
    WholeIsAssembled(Join(sp.head, ':'), HexAll(sp.head), QuadGroups(sp.quad));
    if Explicit(sp) == 8 {
      assert Meaning(sp) == HexAll(sp.head) + QuadGroups(sp.quad);
    }
  }

  /**
   The parser reads every spelling as the address it stands for, in any letter case, with or without
   brackets and zone, and for the rest behaves by the number of groups written: with a '::' and more
   than eight it throws, without one and not eight it answers null.
   */
  lemma ReadsEverySpelling(address: string, sp: Spelling)
    requires WellFormed(sp) && Lower(address) == Spelled(sp)
    ensures Parsed(address) ==
            if Explicit(sp) == 8 || (sp.gap && Explicit(sp) < 8) then Groups(Meaning(sp))
            else if sp.gap then Throws
            else Rejected
  {
    BodyIsClean(sp);
    WrappingIsRemoved(sp);
    QuadIsCut(sp);
    FrontIsAssembled(sp);
  }

  // ---------- Every text ----------

  /** Maximal runs of characters other than colons; `starting` says that a colon or nothing comes before. */
  function Runs(s: string, starting: bool): nat
  {
    if s == "" then 0
    else if s[0] == ':' then Runs(s[1..], true)
    else (if starting then 1 else 0) + Runs(s[1..], false)
  }

  lemma {:induction false} NonEmptyAppends(first: string, parts: seq<string>)
    ensures NonEmpty([first] + parts) == (if first == "" then [] else [first]) + NonEmpty(parts)
  {
    assert ([first] + parts)[1..] == parts;
  }

  /** The groups written in a part are its runs, malformed ones included. */
  lemma {:induction false} RunsAreGroups(s: string)
    ensures |NonEmpty(Split(s, ':'))| == Runs(s, true)
    ensures |NonEmpty(Split(s, ':')[1..])| == Runs(s, false)
    decreases |s|
  {
    var parts := Split(s, ':');
    if s == "" {
      assert parts == [""] && parts[1..] == [];
    } else {
      var later := Split(s[1..], ':');
      RunsAreGroups(s[1..]);
      if s[0] == ':' {
        NonEmptyAppends("", later);
        assert parts[1..] == later;
      } else {
        assert parts[1..] == later[1..];
        assert parts == [[s[0]] + later[0]] + later[1..];
        NonEmptyAppends([s[0]] + later[0], later[1..]);
      }
    }
  }

  lemma {:induction false} GroupsWritten(part: string)
    ensures |GroupsOf(part)| == Runs(part, true)
  {
    RunsAreGroups(part);
  }

  /** `a` and `b` stand on the two sides of the only '::', read from the left. */
  predicate OneGap(text: string, a: string, b: string) {
    text == a + "::" + b && NoDouble(a) && (a != "" ==> a[|a| - 1] != ':') && NoDouble(b)
  }

  lemma {:induction false} HalfIsWhole(s: string)
    requires Halves(s) == [s]
    ensures NoDouble(s)
    decreases |s|
  {
    if |s| >= 2 {
      var later := Halves(s[1..]);
      assert !(s[0] == ':' && s[1] == ':');
      assert Halves(s)[0] == [s[0]] + later[0] && |later| == 1;
      assert later[0] == s[1..] by {
        assert ([s[0]] + later[0])[1..] == later[0];
      }
      HalfIsWhole(s[1..]);
      assert forall i :: 0 < i < |s| ==> s[i] == s[1..][i - 1];
    }
  }

  lemma {:induction false} OneHalfIsText(s: string)
    ensures |Halves(s)| == 1 ==> Halves(s) == [s]
    decreases |s|
  {
    if |s| >= 2 && !(s[0] == ':' && s[1] == ':') {
      OneHalfIsText(s[1..]);
      assert [s[0]] + s[1..] == s;
    }
  }

  lemma {:induction false} TwoHalvesAreGap(s: string)
    requires |Halves(s)| == 2
    ensures OneGap(s, Halves(s)[0], Halves(s)[1])
    decreases |s|
  {
    var a, b := Halves(s)[0], Halves(s)[1];
    if s[0] == ':' && s[1] == ':' {
      OneHalfIsText(s[2..]);
      HalfIsWhole(s[2..]);
      assert s == "" + "::" + s[2..];
    } else {
      TwoHalvesAreGap(s[1..]);
      var a' := Halves(s[1..])[0];
      assert a == [s[0]] + a' && s[1..] == a' + "::" + b;
      assert s == [s[0]] + s[1..];
      assert a' != "" ==> a[|a| - 1] == a'[|a'| - 1];
      assert a' == "" ==> s[1] == ':';
      assert forall i :: 0 < i < |a| ==> a[i] == a'[i - 1];
      assert a' != "" ==> s[1] == a'[0];
    }
  }

  /** What is left of the text when brackets, zone and case are gone. */
  function Core(address: string): string {
    WithoutZone(WithoutBrackets(Lower(address)))
  }

  /** Before its dotted tail, the text has one '::', and more than eight groups are written in all. */
  ghost predicate Overfull(address: string, a: string, b: string) {
    var cut := CutQuad(Core(address));
    cut.Cut? && OneGap(cut.text, a, b) && Runs(a, true) + Runs(b, true) + |cut.tail| > 8
  }

  /** The RangeError, for every text whatever its fields: exactly one '::' and more than eight groups written. */
  lemma {:induction false} ThrowsIff(address: string)
    ensures Parsed(address).Throws? <==> exists a, b :: Overfull(address, a, b)
  {
    var cut := CutQuad(Core(address));
    if cut.Cut? {
      if |Halves(cut.text)| == 2 {
        var a, b := Halves(cut.text)[0], Halves(cut.text)[1];
        TwoHalvesAreGap(cut.text);
        GroupsWritten(a);
        GroupsWritten(b);
        assert Parsed(address).Throws? ==> Overfull(address, a, b);
      }
      if a, b :| Overfull(address, a, b) {
        HalvesAtGap(a, b);
        GroupsWritten(a);
        GroupsWritten(b);
      }
    }
  }

  // ---------- Judging the groups ----------

  predicate IsAddress(g: seq<nat>) {
    |g| == 8 && forall i :: 0 <= i < 8 ==> g[i] < 0x1_0000
  }

  predicate SmallGroups(groups: seq<Option<nat>>) {
    forall i :: 0 <= i < |groups| && groups[i].Some? ==> groups[i].value < 0x1_0000
  }

  lemma {:induction false} FieldIsSmall(s: string)
    requires IsField(s)
    ensures Hex(s) < 0x1_0000
  {
    assert s[..1][..0] == "";
    assert Hex(s[..1]) < 0x10;
    if |s| > 1 {
      assert s[..2][..1] == s[..1];
      assert Hex(s[..2]) < 0x100;
    }
    if |s| > 2 {
      assert s[..3][..2] == s[..2];
      assert Hex(s[..3]) < 0x1000;
    }
    if |s| > 3 {
      assert s[..4] == s;
    }
    assert s[..|s|] == s;
  }

  lemma {:induction false} PartIsSmall(part: string)
    ensures SmallGroups(GroupsOf(part))
  {
    var fields := NonEmpty(Split(part, ':'));
    forall i | 0 <= i < |fields| && Group(fields[i]).Some?
      ensures Group(fields[i]).value < 0x1_0000
    {
      FieldIsSmall(fields[i]);
    }
  }

  lemma {:induction false} CheckedIsAddress(groups: seq<Option<nat>>)
    requires SmallGroups(groups) && Checked(groups).Groups?
    ensures IsAddress(Checked(groups).groups)
  {
  }

  lemma {:induction false} AssembledIsAddress(halves: seq<string>, tail: seq<nat>)
    requires halves != [] && Assembled(halves, tail).Groups?
    requires forall i :: 0 <= i < |tail| ==> tail[i] < 0x1_0000
    ensures IsAddress(Assembled(halves, tail).groups)
  {
    var head := GroupsOf(halves[0]);
    PartIsSmall(halves[0]);
    if |halves| == 1 {
      CheckedIsAddress(head + Known(tail));
    } else {
      var rest := GroupsOf(halves[1]);
      PartIsSmall(halves[1]);
      CheckedIsAddress(head + Known(Zeros(8 - |head| - |rest| - |tail|)) + rest + Known(tail));
    }
  }

  /** What parses is an address: eight groups of 16 bits. */
  lemma {:induction false} ParsedIsAddress(address: string)
    ensures Parsed(address).Groups? ==> IsAddress(Parsed(address).groups)
  {
    var text := WithoutZone(WithoutBrackets(Lower(address)));
    if Parsed(address).Groups? {
      var start := QuadStart(text, 0);
      if start.Some? {
        TailDivides(V4Value(text[start.value..]).value);
      }
      AssembledIsAddress(Halves(CutQuad(text).text), CutQuad(text).tail);
    }
  }

  predicate ZerosUpTo(g: seq<nat>, count: nat)
    requires IsAddress(g) && count <= 8
  {
    forall i :: 0 <= i < count ==> g[i] == 0
  }

  predicate IsBlockedAddress(g: seq<nat>)
    requires IsAddress(g)
  {
    if ZerosUpTo(g, 5) && g[5] == 0xffff then IsBlockedV4(AsV4(g[6], g[7]))
    else if ZerosUpTo(g, 7) then true
    else if ZerosUpTo(g, 6) then IsBlockedV4(AsV4(g[6], g[7]))
    else if g[0] == 0x64 && g[1] == 0xff9b && g[2] == 0 && g[3] == 0 && g[4] == 0 && g[5] == 0 then IsBlockedV4(AsV4(g[6], g[7]))
    else And(g[0], 0xfe00) == 0xfc00 || And(g[0], 0xffc0) == 0xfe80 || And(g[0], 0xff00) == 0xff00
  }

  datatype Verdict = Blocked | Allowed | Raised

  function IsBlockedV6(address: string): Verdict {
    match Parsed(address)
    case Throws => Raised
    case Rejected => Blocked
    case Groups(g) => ParsedIsAddress(address); if IsBlockedAddress(g) then Blocked else Allowed
  }

  /** The IPv4 address inside ::ffff:0:0/96, ::/96 and 64:ff9b::/96 (section 2.1 of RFC 6052). */
  function Embedded(g: seq<nat>): Option<nat>
    requires IsAddress(g)
  {
    if || g[..6] == [0, 0, 0, 0, 0, 0xffff]
       || g[..6] == [0, 0, 0, 0, 0, 0]
       || g[..6] == [0x64, 0xff9b, 0, 0, 0, 0]
    then Some(g[6] * 0x1_0000 + g[7])
    else None
  }

  /** fc00::/7, fe80::/10 and ff00::/8, by their first group. */
  predicate PrivatePrefix(g0: nat) {
    0xfc00 <= g0 <= 0xfdff || 0xfe80 <= g0 <= 0xfebf || 0xff00 <= g0 <= 0xffff
  }

  lemma RoundedRanges(x: nat)
    ensures x - x % 0x200 == 0xfc00 <==> 0xfc00 <= x <= 0xfdff
    ensures x - x % 0x40 == 0xfe80 <==> 0xfe80 <= x <= 0xfebf
    ensures x - x % 0x100 == 0xff00 <==> 0xff00 <= x <= 0xffff
  {
  }

  lemma {:induction false} FirstGroupMasks(g0: nat)
    requires g0 < 0x1_0000
    ensures And(g0, 0xfe00) == 0xfc00 || And(g0, 0xffc0) == 0xfe80 || And(g0, 0xff00) == 0xff00 <==> PrivatePrefix(g0)
  {
    GroupMasks(g0);
    RoundedRanges(g0);
  }

  lemma {:induction false} PrefixIs(g: seq<nat>, g0: nat, g1: nat, g5: nat)
    requires IsAddress(g)
    ensures g[..6] == [g0, g1, 0, 0, 0, g5]
            <==> g[0] == g0 && g[1] == g1 && g[2] == 0 && g[3] == 0 && g[4] == 0 && g[5] == g5
  {
    if g[..6] == [g0, g1, 0, 0, 0, g5] {
      assert forall i :: 0 <= i < 6 ==> g[i] == g[..6][i];
    }
  }

  lemma {:induction false} PrintedVerdict(g6: nat, g7: nat)
    requires g6 < 0x1_0000 && g7 < 0x1_0000
    ensures IsBlockedV4(AsV4(g6, g7)) <==> Reserved(g6 * 0x1_0000 + g7)
  {
    AsV4IsRead(g6, g7);
    BlockedV4Iff(AsV4(g6, g7));
  }

  /** ::1 and its neighbours stand for addresses in 0.0.0.0/8. */
  lemma LowIsReserved(value: nat)
    requires value < 0x1_0000
    ensures Reserved(value)
  {
    assert InInterval(value, INTERVALS[0]);
  }

  lemma {:induction false} EmbeddedWhen(g: seq<nat>)
    requires IsAddress(g)
    ensures Embedded(g) ==
            if || (ZerosUpTo(g, 5) && g[5] == 0xffff)
               || ZerosUpTo(g, 6)
               || (g[0] == 0x64 && g[1] == 0xff9b && g[2] == 0 && g[3] == 0 && g[4] == 0 && g[5] == 0)
            then Some(g[6] * 0x1_0000 + g[7])
            else None
  {
    PrefixIs(g, 0, 0, 0xffff);
    PrefixIs(g, 0, 0, 0);
    PrefixIs(g, 0x64, 0xff9b, 0);
  }

  /** An address that carries an IPv4 address is blocked exactly when that one is; any other, by its first group. */
  lemma {:induction false} JudgedByEmbedded(g: seq<nat>)
    requires IsAddress(g)
    ensures IsBlockedAddress(g)
            <==> match Embedded(g)
                 case Some(v4) => Reserved(v4)
                 case None => PrivatePrefix(g[0])
  {
    EmbeddedWhen(g);
    PrintedVerdict(g[6], g[7]);
    FirstGroupMasks(g[0]);
    if ZerosUpTo(g, 7) {
      assert ZerosUpTo(g, 6);
      LowIsReserved(g[7]);
    }
  }

  /** The verdict on every valid spelling is the verdict on the address it stands for. */
  lemma EverySpellingIsJudged(address: string, sp: Spelling)
    requires WellFormed(sp) && Lower(address) == Spelled(sp)
    requires Explicit(sp) == 8 || (sp.gap && Explicit(sp) < 8)
    ensures IsAddress(Meaning(sp)) && IsBlockedV6(address) != Raised
    ensures IsBlockedV6(address) == Blocked
            <==> match Embedded(Meaning(sp))
                 case Some(v4) => Reserved(v4)
                 case None => PrivatePrefix(Meaning(sp)[0])
  {
    ReadsEverySpelling(address, sp);
    ParsedIsAddress(address);
    JudgedByEmbedded(Meaning(sp));
  }
}
