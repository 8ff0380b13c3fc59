/**
 Reading and writing PostgreSQL array literals: a character loop on the way in, a plain join on the
 way out.
 */
module PgArray {
  import Text

  /** What Python's `strip` removes. */
  predicate IsSpace(c: char) {
    var n := c as int;
    || 0x09 <= n <= 0x0D || 0x1C <= n <= 0x20 || n == 0x85 || n == 0xA0 || n == 0x1680
    || 0x2000 <= n <= 0x200A || n == 0x2028 || n == 0x2029 || n == 0x202F || n == 0x205F || n == 0x3000
  }

  function Strip(s: string): string {
    if s == "" then ""
    else if IsSpace(s[0]) then Strip(s[1..])
    else if IsSpace(s[|s| - 1]) then Strip(s[..|s| - 1])
    else s
  }

  /** The loop's variables. */
  datatype Scan = Scan(out: seq<string>, current: string, quoted: bool, escaped: bool)

  const START := Scan([], "", false, false)

  function Step(s: Scan, c: char): Scan {
    if s.escaped then s.(current := s.current + [c], escaped := false)
    else if c == '\\' then s.(escaped := true)
    else if c == '"' then s.(quoted := !s.quoted)
    else if c == ',' && !s.quoted then s.(out := s.out + [s.current], current := "")
    else s.(current := s.current + [c])
  }

  function Steps(s: Scan, body: string): Scan
    decreases |body|
  {
    if body == "" then s else Steps(Step(s, body[0]), body[1..])
  }

  lemma {:induction false} StepsAppend(s: Scan, a: string, b: string)
    ensures Steps(s, a + b) == Steps(Steps(s, a), b)
    decreases |a|
  {
    if a == "" {
      assert a + b == b;
    } else {
      assert (a + b)[1..] == a[1..] + b;
      StepsAppend(Step(s, a[0]), a[1..], b);
    }
  }

  function Elements(s: Scan): seq<string> {
    s.out + [s.current]
  }

  function Parsed(literal: string): seq<string> {
    var text := Strip(literal);
    if !(|text| > 0 && text[0] == '{' && text[|text| - 1] == '}') then
      if text == "" then [] else [text]
    else
      var body := text[1..|text| - 1];
      if body == "" then [] else Elements(Steps(START, body))
  }

  method ParsePgArray(literal: string) returns (elements: seq<string>)
    ensures elements == Parsed(literal)
  {
    var text := Strip(literal);
    if !(|text| > 0 && text[0] == '{' && text[|text| - 1] == '}') {
      return if text == "" then [] else [text];
    }
    var body := text[1..|text| - 1];
    if body == "" {
      return [];
    }
    var out: seq<string>, current: string := [], "";
    var quoted, escaped := false, false;
    for i := 0 to |body|
      invariant Scan(out, current, quoted, escaped) == Steps(START, body[..i])
    {
      ghost var s := Scan(out, current, quoted, escaped);
      var c := body[i];
      if escaped {
        current := current + [c];
        escaped := false;
      } else if c == '\\' {
        escaped := true;
      } else if c == '"' {
        quoted := !quoted;
      } else if c == ',' && !quoted {
        out := out + [current];
        current := "";
      } else {
        current := current + [c];
      }
      StepsAppend(START, body[..i], [c]);
      assert body[..i + 1] == body[..i] + [c];
      assert Steps(s, [c]) == Step(s, c);
    }
    assert body[..|body|] == body;
    return out + [current];
  }

  function Join(parts: seq<string>): string {
    Text.Join(parts, ',')
  }

  function Braced(body: string): string {
    "{" + body + "}"
  }

  lemma ParsedBraced(body: string)
    ensures Parsed(Braced(body)) == if body == "" then [] else Elements(Steps(START, body))
  {
    var text := Braced(body);
    assert Strip(text) == text;
    assert text[1..|text| - 1] == body;
  }

  // ---------- PostgreSQL's own quoted output ----------

  /** Inside quotes, a quote and a backslash are preceded by a backslash. */
  function Escape(e: string): string {
    if e == "" then ""
    else (if e[0] == '"' || e[0] == '\\' then ['\\', e[0]] else [e[0]]) + Escape(e[1..])
  }

  function Quote(e: string): string {
    "\"" + Escape(e) + "\""
  }

  predicate Plain(e: string) {
    ',' !in e && '"' !in e && '\\' !in e
  }

  /** One element of the output: quoted, or as it is. */
  datatype Item = Item(text: string, quoted: bool)

  /** The server quotes what needs it, and at least empty strings and those with a comma, quote or backslash. */
  predicate MayStand(item: Item) {
    item.quoted || (Plain(item.text) && item.text != "")
  }

  predicate AllMayStand(items: seq<Item>) {
    forall i :: 0 <= i < |items| ==> MayStand(items[i])
  }

  function Shown(item: Item): string {
    if item.quoted then Quote(item.text) else item.text
  }

  function ShowAll(items: seq<Item>): (shown: seq<string>)
    ensures |shown| == |items|
  {
    if items == [] then [] else [Shown(items[0])] + ShowAll(items[1..])
  }

  function Texts(items: seq<Item>): seq<string> {
    if items == [] then [] else [items[0].text] + Texts(items[1..])
  }

  lemma {:induction false} EscapedIsRead(s: Scan, e: string)
    requires s.quoted && !s.escaped
    ensures Steps(s, Escape(e)) == s.(current := s.current + e)
    decreases |e|
  {
    if e == "" {
      assert s.current + e == s.current;
    } else {
      var head := if e[0] == '"' || e[0] == '\\' then ['\\', e[0]] else [e[0]];
      StepsAppend(s, head, Escape(e[1..]));
      var s' := s.(current := s.current + [e[0]]);
      if |head| == 2 {
        assert head[1..] == [e[0]] && [e[0]][1..] == "";
        assert Steps(s, head) == Steps(Step(s, '\\'), [e[0]]) == s';
      } else {
        assert [e[0]][1..] == "";
      }
      assert Steps(s, head) == s';
      EscapedIsRead(s', e[1..]);
      assert s.current + [e[0]] + e[1..] == s.current + e;
    }
  }

  lemma QuotedIsRead(s: Scan, e: string)
    requires !s.quoted && !s.escaped && s.current == ""
    ensures Steps(s, Quote(e)) == s.(current := e)
  {
    var inside := s.(quoted := true);
    assert Quote(e) == "\"" + (Escape(e) + "\"");
    StepsAppend(s, "\"", Escape(e) + "\"");
    assert "\""[1..] == "";
    assert Steps(s, "\"") == inside;
    StepsAppend(inside, Escape(e), "\"");
    EscapedIsRead(inside, e);
    assert s.current + e == e;
  }

  lemma {:induction false} PlainIsRead(s: Scan, e: string)
    requires !s.quoted && !s.escaped && Plain(e)
    ensures Steps(s, e) == s.(current := s.current + e)
    decreases |e|
  {
    if e == "" {
      assert s.current + e == s.current;
    } else {
      assert e == [e[0]] + e[1..];
      PlainIsRead(s.(current := s.current + [e[0]]), e[1..]);
      assert s.current + [e[0]] + e[1..] == s.current + e;
    }
  }

  lemma {:induction false} ShownIsRead(s: Scan, item: Item)
    requires !s.quoted && !s.escaped && s.current == "" && MayStand(item)
    ensures Steps(s, Shown(item)) == s.(current := item.text)
  {
    if item.quoted {
      QuotedIsRead(s, item.text);
    } else {
      PlainIsRead(s, item.text);
      assert s.current + item.text == item.text;
    }
  }

  /** An element that has been read, and the comma after it. */
  lemma {:induction false} CommaEndsElement(s: Scan, e: string, more: string)
    requires !s.quoted && !s.escaped
    ensures Steps(s.(current := e), "," + more) == Steps(s.(out := s.out + [e], current := ""), more)
  {
    StepsAppend(s.(current := e), ",", more);
    assert ","[1..] == "";
    assert Steps(s.(current := e), ",") == s.(out := s.out + [e], current := "");
  }

  lemma JoinUnfolds(list: seq<string>)
    requires |list| > 1
    ensures Join(list) == list[0] + ("," + Join(list[1..]))
  {
  }

  lemma Reassociated<T>(before: seq<T>, e: T, more: seq<T>)
    ensures before + [e] + more == before + ([e] + more)
  {
  }

  /** One element and the comma after it. */
  lemma {:induction false} ItemAndCommaAreRead(s: Scan, item: Item, more: string)
    requires !s.quoted && !s.escaped && s.current == "" && MayStand(item)
    ensures Steps(s, Shown(item) + ("," + more)) == Steps(s.(out := s.out + [item.text]), more)
  {
    ShownIsRead(s, item);
    StepsAppend(s, Shown(item), "," + more);
    CommaEndsElement(s, item.text, more);
  }

  lemma {:induction false} LastItemIsRead(s: Scan, items: seq<Item>)
    requires !s.quoted && !s.escaped && s.current == "" && |items| == 1 && MayStand(items[0])
    ensures Elements(Steps(s, Join(ShowAll(items)))) == s.out + Texts(items)
  {
    ShownIsRead(s, items[0]);
    assert items[1..] == [];
    assert ShowAll(items) == [Shown(items[0])] && Texts(items) == [items[0].text];
  }

  lemma {:induction false} JoinedItemsAreRead(s: Scan, items: seq<Item>)
    requires !s.quoted && !s.escaped && s.current == "" && items != [] && AllMayStand(items)
    ensures Elements(Steps(s, Join(ShowAll(items)))) == s.out + Texts(items)
    decreases |items|
  {
    assert MayStand(items[0]);
    if |items| == 1 {
      LastItemIsRead(s, items);
    } else {
      var rest := items[1..];
      assert ShowAll(items)[1..] == ShowAll(rest);
      JoinUnfolds(ShowAll(items));
      ItemAndCommaAreRead(s, items[0], Join(ShowAll(rest)));
      JoinedItemsAreRead(s.(out := s.out + [items[0].text]), rest);
      Reassociated(s.out, items[0].text, Texts(rest));
    }
  }

  lemma {:induction false} ShownIsNotEmpty(items: seq<Item>)
    requires items != [] && AllMayStand(items)
    ensures Join(ShowAll(items)) != ""
  {
    assert MayStand(items[0]) && ShowAll(items)[0] == Shown(items[0]);
    if |items| > 1 {
      JoinUnfolds(ShowAll(items));
    }
  }

  /**
   The loop inverts PostgreSQL's output (section 8.15.6 of its manual) for every list of strings, whichever
   elements the server chooses to quote: braces, commas, quotes, backslashes, empty strings and all.
   */
  lemma {:induction false} QuotedRoundTrip(items: seq<Item>)
    requires AllMayStand(items)
    ensures Parsed(Braced(Join(ShowAll(items)))) == Texts(items)
  {
    ParsedBraced(Join(ShowAll(items)));
    if items != [] {
      JoinedItemsAreRead(START, items);
      ShownIsNotEmpty(items);
      assert START.out + Texts(items) == Texts(items);
    }
  }

  // ---------- The repository's own writer ----------

  function Written(list: seq<string>): string {
    Braced(Join(list))
  }

  predicate AllPlain(list: seq<string>) {
    forall e :: e in list ==> Plain(e)
  }

  function Length(list: seq<string>): nat {
    if list == [] then 0 else |list[0]| + Length(list[1..])
  }

  function Commas(s: string): nat {
    if s == "" then 0 else (if s[0] == ',' then 1 else 0) + Commas(s[1..])
  }

  function CommasIn(list: seq<string>): nat {
    if list == [] then 0 else Commas(list[0]) + CommasIn(list[1..])
  }

  lemma {:induction false} LengthAppend(a: seq<string>, e: string)
    ensures Length(a + [e]) == Length(a) + |e|
    decreases |a|
  {
    if a != [] {
      assert (a + [e])[1..] == a[1..] + [e];
      LengthAppend(a[1..], e);
    } else {
      assert a + [e] == [e];
      assert Length([e]) == |e| + Length([e][1..]);
    }
  }

  lemma {:induction false} CommasAppend(a: string, b: string)
    ensures Commas(a + b) == Commas(a) + Commas(b)
    decreases |a|
  {
    if a == "" {
      assert a + b == b;
    } else {
      assert (a + b)[1..] == a[1..] + b;
      CommasAppend(a[1..], b);
    }
  }

  lemma {:induction false} NoCommas(s: string)
    ensures Commas(s) == 0 <==> ',' !in s
    decreases |s|
  {
    if s != "" {
      NoCommas(s[1..]);
      assert s == [s[0]] + s[1..];
    }
  }

  /** Characters accounted for so far: kept ones, and separators. */
  function Weight(s: Scan): nat {
    Length(s.out) + |s.current| + |s.out|
  }

  lemma StepWeight(s: Scan, c: char)
    ensures Weight(Step(s, c)) == Weight(s) + (if !s.escaped && (c == '\\' || c == '"') then 0 else 1)
  {
    LengthAppend(s.out, s.current);
  }

  /**
   The scan keeps or counts at most every character, and loses none exactly when there is no quote and
   no backslash; then it splits at every comma.
   */
  lemma {:induction false} ScanWeight(s: Scan, body: string)
    requires !s.escaped && !s.quoted
    ensures '"' !in body && '\\' !in body ==>
              && Weight(Steps(s, body)) == Weight(s) + |body|
              && |Steps(s, body).out| == |s.out| + Commas(body)
    decreases |body|
  {
    if body != "" {
      StepWeight(s, body[0]);
      assert body == [body[0]] + body[1..];
      if body[0] != '"' && body[0] != '\\' {
        ScanWeight(Step(s, body[0]), body[1..]);
      }
    }
  }

  lemma {:induction false} ScanLoses(s: Scan, body: string)
    ensures Weight(Steps(s, body)) <= Weight(s) + |body|
    ensures !s.escaped && ('"' in body || '\\' in body) ==> Weight(Steps(s, body)) < Weight(s) + |body|
    decreases |body|
  {
    if body != "" {
      StepWeight(s, body[0]);
      assert body == [body[0]] + body[1..];
      ScanLoses(Step(s, body[0]), body[1..]);
    }
  }

  lemma {:induction false} JoinCounts(list: seq<string>)
    requires list != []
    ensures |Join(list)| == Length(list) + |list| - 1
    ensures Commas(Join(list)) == CommasIn(list) + |list| - 1
    ensures forall c :: c != ',' ==> (c in Join(list) <==> exists e :: e in list && c in e)
    decreases |list|
  {
    if |list| == 1 {
      assert list == [list[0]] && list[1..] == [];
    } else {
      JoinCounts(list[1..]);
      CommasAppend(list[0] + ",", Join(list[1..]));
      CommasAppend(list[0], ",");
      assert ","[1..] == "";
      assert list == [list[0]] + list[1..];
      assert Join(list) == list[0] + "," + Join(list[1..]);
    }
  }

  lemma {:induction false} NoCommasIn(list: seq<string>)
    ensures CommasIn(list) == 0 <==> forall e :: e in list ==> ',' !in e
    decreases |list|
  {
    if list != [] {
      NoCommasIn(list[1..]);
      NoCommas(list[0]);
      assert list == [list[0]] + list[1..];
    }
  }

  lemma TailIsPlain(list: seq<string>)
    requires list != [] && AllPlain(list)
    ensures Plain(list[0]) && AllPlain(list[1..])
  {
    assert list[0] in list;
    forall e | e in list[1..]
      ensures e in list
    {
    }
  }

  /** An element and the comma after it. */
  lemma {:induction false} PlainFieldIsRead(s: Scan, e: string, more: string)
    requires !s.quoted && !s.escaped && s.current == "" && Plain(e)
    ensures Steps(s, e + ("," + more)) == Steps(s.(out := s.out + [e]), more)
  {
    PlainIsRead(s, e);
    assert s.current + e == e;
    StepsAppend(s, e, "," + more);
    StepsAppend(s.(current := e), ",", more);
    assert ","[1..] == "";
    assert Steps(s.(current := e), ",") == s.(out := s.out + [e]);
  }

  lemma HeadAndTail<T>(before: seq<T>, list: seq<T>)
    requires list != []
    ensures before + [list[0]] + list[1..] == before + list
  {
  }

  lemma {:induction false} JoinedPlainIsRead(s: Scan, list: seq<string>)
    requires !s.quoted && !s.escaped && s.current == "" && list != [] && AllPlain(list)
    ensures Elements(Steps(s, Join(list))) == s.out + list
    decreases |list|
  {
    TailIsPlain(list);
    HeadAndTail(s.out, list);
    if |list| > 1 {
      JoinUnfolds(list);
      PlainFieldIsRead(s, list[0], Join(list[1..]));
      JoinedPlainIsRead(s.(out := s.out + [list[0]]), list[1..]);
    } else {
      PlainIsRead(s, list[0]);
      assert s.current + list[0] == list[0];
      assert [list[0]] + list[1..] == [list[0]];
    }
  }

  /**
   The unquoted writer is inverted exactly on the lists whose elements hold no comma, quote or
   backslash, other than the list of one empty string.
   */
  lemma WrittenRoundTripIff(list: seq<string>)
    ensures Parsed(Written(list)) == list <==> AllPlain(list) && list != [""]
  {
    ParsedBraced(Join(list));
    if list != [] {
      JoinCounts(list);
      if Join(list) == "" {
        assert |list| == 1 && list[0] == "";
        assert list == [""];
      } else if AllPlain(list) {
        JoinedPlainIsRead(START, list);
        assert START.out + list == list;
      } else if Parsed(Written(list)) == list {
        var end := Steps(START, Join(list));
        LengthAppend(end.out, end.current);
        ScanLoses(START, Join(list));
        ScanWeight(START, Join(list));
        NoCommasIn(list);
        assert false;
      }
    }
  }
}
