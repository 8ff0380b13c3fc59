/** JavaScript's `split` and `join` on a one-character separator. */
module Text {

  function Join(parts: seq<string>, sep: char): string {
    if parts == [] then ""
    else if |parts| == 1 then parts[0]
    else parts[0] + [sep] + Join(parts[1..], sep)
  }

  function Split(s: string, sep: char): (parts: seq<string>)
    ensures parts != []
  {
    if s == "" then [""]
    else
      var parts := Split(s[1..], sep);
      if s[0] == sep then [""] + parts else [[s[0]] + parts[0]] + parts[1..]
  }

  lemma {:induction false} SplitWhole(s: string, sep: char)
    requires sep !in s
    ensures Split(s, sep) == [s]
    decreases |s|
  {
    if s != "" {
      SplitWhole(s[1..], sep);
      assert [s[0]] + s[1..] == s;
    }
  }

  lemma {:induction false} SplitFirst(p: string, sep: char, more: string)
    requires sep !in p
    ensures Split(p + [sep] + more, sep) == [p] + Split(more, sep)
    decreases |p|
  {
    var s := p + [sep] + more;
    if p == "" {
      assert s[1..] == more;
    } else {
      assert s[1..] == p[1..] + [sep] + more;
      SplitFirst(p[1..], sep, more);
      assert [p[0]] + p[1..] == p;
    }
  }

  /** Splitting undoes joining when no part holds the separator. */
  lemma {:induction false} SplitJoined(parts: seq<string>, sep: char)
    requires parts != []
    requires forall i :: 0 <= i < |parts| ==> sep !in parts[i]
    ensures Split(Join(parts, sep), sep) == parts
    decreases |parts|
  {
    if |parts| == 1 {
      SplitWhole(parts[0], sep);
    } else {
      SplitJoined(parts[1..], sep);
      SplitFirst(parts[0], sep, Join(parts[1..], sep));
      assert [parts[0]] + parts[1..] == parts;
    }
  }

  /** Every character of the text is a separator or lands in a part. */
  lemma {:induction false} SplitKeeps(s: string, sep: char, c: char)
    requires c in s && c != sep
    ensures exists i :: 0 <= i < |Split(s, sep)| && c in Split(s, sep)[i]
    decreases |s|
  {
    var parts := Split(s[1..], sep);
    assert s == [s[0]] + s[1..];
    if s[0] == sep {
      SplitKeeps(s[1..], sep, c);
      var i :| 0 <= i < |parts| && c in parts[i];
      assert Split(s, sep)[i + 1] == parts[i];
    } else if s[0] == c {
      assert c in Split(s, sep)[0];
    } else {
      SplitKeeps(s[1..], sep, c);
      var i :| 0 <= i < |parts| && c in parts[i];
      assert i > 0 ==> Split(s, sep)[i] == parts[i];
      assert i == 0 ==> c in Split(s, sep)[0];
    }
  }

  lemma JoinFour(a: string, b: string, c: string, d: string, sep: char)
    ensures Join([a, b, c, d], sep) == a + [sep] + b + [sep] + c + [sep] + d
  {
    assert [a, b, c, d][1..] == [b, c, d];
    assert [b, c, d][1..] == [c, d];
    assert [c, d][1..] == [d];
    assert Join([c, d], sep) == c + [sep] + d;
    assert Join([b, c, d], sep) == b + [sep] + (c + [sep] + d);
  }

  // ---------- Numerals ----------

  predicate IsDigit(c: char) {
    '0' <= c <= '9'
  }

  predicate AllDigits(s: string) {
    forall i :: 0 <= i < |s| ==> IsDigit(s[i])
  }

  function Decimal(s: string): nat
    requires AllDigits(s)
  {
    if s == "" then 0 else Decimal(s[..|s| - 1]) * 10 + (s[|s| - 1] as int - '0' as int)
  }

  function Print(n: nat): string {
    if n < 10 then [('0' as int + n) as char] else Print(n / 10) + [('0' as int + n % 10) as char]
  }

  lemma {:induction false} PrintedIsRead(n: nat)
    ensures Print(n) != "" && AllDigits(Print(n)) && Decimal(Print(n)) == n
  {
    if n >= 10 {
      PrintedIsRead(n / 10);
      assert Print(n)[..|Print(n)| - 1] == Print(n / 10);
    } else {
      assert Decimal("") == 0;
      assert Print(n)[..0] == "";
    }
  }
}
