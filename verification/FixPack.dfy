/**
 Rendering the fixes of an audit as Markdown: code fences longer than any run of backticks inside, and
 one numbered entry per fix under a heading per severity.
 */
module FixPack {
  import opened Arithmetic
  import opened Wrappers
  import Text

  const TICK: char := '`'

  /** The length of the run of backticks a text starts with. */
  function LeadingTicks(s: string): (n: nat)
    ensures n <= |s|
    ensures forall i :: 0 <= i < n ==> s[i] == TICK
  {
    if s != "" && s[0] == TICK then 1 + LeadingTicks(s[1..]) else 0
  }

  /** The longest match of one or more backticks, taken run by run. */
  function LongestRun(s: string): nat
    decreases |s|
  {
    if s == "" then 0
    else if s[0] == TICK then Max(LeadingTicks(s), LongestRun(s[LeadingTicks(s)..]))
    else LongestRun(s[1..])
  }

  function Ticks(n: nat): string {
    seq(n, _ => TICK)
  }

  function FenceLength(body: string): nat {
    Max(3, LongestRun(body) + 1)
  }

  function Fence(body: string, lang: string): string {
    Ticks(FenceLength(body)) + lang + "\n" + body + "\n" + Ticks(FenceLength(body))
  }

  // ---------- Reading a fenced block: section 4.5 of the CommonMark specification ----------

  predicate IsLineEnd(c: char) {
    c == '\n' || c == '\r'
  }

  /** The first line, without its ending. */
  function FirstLine(s: string): string {
    if s == "" || IsLineEnd(s[0]) then "" else [s[0]] + FirstLine(s[1..])
  }

  lemma {:induction false} FirstLineIsPrefix(s: string)
    ensures |FirstLine(s)| <= |s| && s[..|FirstLine(s)|] == FirstLine(s)
    ensures |FirstLine(s)| < |s| ==> IsLineEnd(s[|FirstLine(s)|])
    ensures forall i :: 0 <= i < |FirstLine(s)| ==> !IsLineEnd(s[i])
  {
    if s != "" && !IsLineEnd(s[0]) {
      FirstLineIsPrefix(s[1..]);
    }
  }

  /** A line ending is a line feed, a carriage return, or both in that order. */
  function EndingLength(s: string): (n: nat)
    ensures n <= |s|
  {
    if |s| >= 2 && s[0] == '\r' && s[1] == '\n' then 2
    else if |s| >= 1 && IsLineEnd(s[0]) then 1
    else 0
  }

  function Indent(line: string): (n: nat)
    ensures n <= |line|
  {
    if line != "" && line[0] == ' ' then 1 + Indent(line[1..]) else 0
  }

  predicate IsBlank(s: string) {
    forall i :: 0 <= i < |s| ==> s[i] == ' ' || s[i] == '\t'
  }

  /** At most three spaces, at least `n` backticks, and nothing more than spaces and tabs. */
  predicate IsClosing(line: string, n: nat) {
    var ticks := line[Indent(line)..];
    Indent(line) <= 3 && LeadingTicks(ticks) >= n && IsBlank(ticks[LeadingTicks(ticks)..])
  }

  /** The raw lines of a block with their endings, and the text from the end of the closing line on. */
  datatype Block = Closed(content: string, after: string) | Unclosed(content: string)

  function Prepend(text: string, b: Block): Block {
    b.(content := text + b.content)
  }

  function ReadLines(s: string, n: nat): Block
    decreases |s|
  {
    FirstLineIsPrefix(s);
    var line := FirstLine(s);
    var ending := EndingLength(s[|line|..]);
    if IsClosing(line, n) then Closed("", s[|line|..])
    else if ending == 0 then Unclosed(s)
    else Prepend(s[..|line| + ending], ReadLines(s[|line| + ending..], n))
  }

  /** A block opened at the margin, with the backticks' info string free of backticks. */
  function ReadBlock(doc: string): Option<Block> {
    FirstLineIsPrefix(doc);
    var line := FirstLine(doc);
    var n := LeadingTicks(line);
    if n < 3 || TICK in line[n..] then None
    else Some(ReadLines(doc[|line| + EndingLength(doc[|line|..])..], n))
  }

  /** The content without the line ending that stands before the closing line. */
  function Snippet(content: string): string {
    if |content| >= 2 && content[|content| - 2..] == "\r\n" then content[..|content| - 2]
    else if |content| >= 1 && IsLineEnd(content[|content| - 1]) then content[..|content| - 1]
    else content
  }

  // ---------- The round trip ----------

  lemma {:induction false} RunIsBounded(s: string, i: nat)
    requires i <= |s|
    ensures LeadingTicks(s[i..]) <= LongestRun(s)
    decreases |s|
  {
    if s != "" {
      if s[0] == TICK {
        var k := LeadingTicks(s);
        if i < k {
          LaterIsShorter(s, i);
        } else {
          assert s[i..] == s[k..][i - k..];
          RunIsBounded(s[k..], i - k);
        }
      } else if i == 0 {
        assert s[0..] == s;
      } else {
        assert s[i..] == s[1..][i - 1..];
        RunIsBounded(s[1..], i - 1);
      }
    }
  }

  lemma {:induction false} LaterIsShorter(s: string, i: nat)
    requires i <= LeadingTicks(s)
    ensures LeadingTicks(s[i..]) == LeadingTicks(s) - i
    decreases i
  {
    if i == 0 {
      assert s[0..] == s;
    } else {
      assert s[i..] == s[1..][i - 1..];
      LaterIsShorter(s[1..], i - 1);
    }
  }

  /** A line holding no run of `n` backticks closes nothing. */
  lemma {:induction false} ShortRunsDoNotClose(line: string, n: nat)
    requires LongestRun(line) < n
    ensures !IsClosing(line, n)
  {
    RunIsBounded(line, Indent(line));
  }

  /** A line of the text has no longer run than the text. */
  lemma {:induction false} PrefixRuns(s: string, k: nat)
    requires k <= |s|
    ensures LongestRun(s[..k]) <= LongestRun(s)
    decreases |s|
  {
    var p := s[..k];
    if p != "" {
      if s[0] == TICK {
        var n := LeadingTicks(s);
        PrefixTicks(s, k);
        if k <= n {
          assert LeadingTicks(p) == k;
          assert p[k..] == "";
        } else {
          assert p[n..] == s[n..][..k - n];
          PrefixRuns(s[n..], k - n);
        }
      } else {
        assert p[1..] == s[1..][..k - 1];
        PrefixRuns(s[1..], k - 1);
      }
    }
  }

  lemma {:induction false} PrefixTicks(s: string, k: nat)
    requires k <= |s|
    ensures LeadingTicks(s[..k]) == if k <= LeadingTicks(s) then k else LeadingTicks(s)
    decreases k
  {
    if k > 0 && s[0] == TICK {
      assert s[..k][1..] == s[1..][..k - 1];
      PrefixTicks(s[1..], k - 1);
    }
  }

  lemma {:induction false} SuffixRuns(s: string, i: nat)
    requires i <= |s|
    ensures LongestRun(s[i..]) <= LongestRun(s)
    decreases |s|
  {
    if i == 0 {
      assert s[0..] == s;
    } else if s[0] == TICK {
      var n := LeadingTicks(s);
      if i < n {
        LaterIsShorter(s, i);
        assert s[i..][n - i..] == s[n..];
        assert s[i] == TICK;
      } else {
        assert s[i..] == s[n..][i - n..];
        SuffixRuns(s[n..], i - n);
      }
    } else {
      assert s[i..] == s[1..][i - 1..];
      SuffixRuns(s[1..], i - 1);
    }
  }

  lemma {:induction false} FirstLineOf(line: string, more: string)
    requires forall i :: 0 <= i < |line| ==> !IsLineEnd(line[i])
    requires more != "" ==> IsLineEnd(more[0])
    ensures FirstLine(line + more) == line
    decreases |line|
  {
    if line == "" {
      assert line + more == more;
    } else {
      assert (line + more)[1..] == line[1..] + more;
      FirstLineOf(line[1..], more);
    }
  }

  lemma {:induction false} TicksLead(n: nat, more: string)
    requires more != "" ==> more[0] != TICK
    ensures LeadingTicks(Ticks(n) + more) == n
    decreases n
  {
    if n == 0 {
      assert Ticks(0) + more == more;
    } else {
      assert (Ticks(n) + more)[1..] == Ticks(n - 1) + more;
      TicksLead(n - 1, more);
    }
  }

  lemma {:induction false} TicksClose(n: nat, more: string)
    requires n >= 1 && (more != "" ==> IsLineEnd(more[0]))
    ensures ReadLines(Ticks(n) + more, n) == Closed("", more)
  {
    var s := Ticks(n) + more;
    FirstLineOf(Ticks(n), more);
    TicksLead(n, "");
    assert Ticks(n) + "" == Ticks(n);
    assert Ticks(n)[0] == TICK;
    assert Indent(Ticks(n)) == 0;
    assert Ticks(n)[0..] == Ticks(n);
    assert s[n..] == more;
  }

  predicate IsEnding(ending: string, rest: string) {
    || ending == "\n" || ending == "\r\n"
    || (ending == "\r" && (rest != "" ==> rest[0] != '\n'))
  }

  /** One line of content. */
  lemma {:induction false} LineIsRead(line: string, ending: string, rest: string, n: nat)
    requires forall i :: 0 <= i < |line| ==> !IsLineEnd(line[i])
    requires !IsClosing(line, n) && IsEnding(ending, rest)
    ensures ReadLines(line + (ending + rest), n) == Prepend(line + ending, ReadLines(rest, n))
  {
    var s := line + (ending + rest);
    FirstLineOf(line, ending + rest);
    assert s[|line|..] == ending + rest;
    assert EndingLength(ending + rest) == |ending|;
    assert s[..|line| + |ending|] == line + ending;
    assert s[|line| + |ending|..] == rest;
  }

  lemma Regroup(line: string, ending: string, tail: string, close: string)
    ensures line + ending + tail + ("\n" + close) == line + (ending + (tail + ("\n" + close)))
    ensures line + ending + (tail + "\n") == line + ending + tail + "\n"
  {
  }

  predicate Closes(close: string, n: nat, after: string) {
    close != "" && !IsLineEnd(close[0]) && ReadLines(close, n) == Closed("", after)
  }

  lemma {:induction false} LastLineIsRead(line: string, ending: string, close: string, n: nat, after: string)
    requires forall i :: 0 <= i < |line| ==> !IsLineEnd(line[i])
    requires !IsClosing(line, n) && (ending == "\n" || ending == "\r\n") && Closes(close, n, after)
    ensures ReadLines(line + (ending + close), n) == Closed(line + ending, after)
  {
    LineIsRead(line, ending, close, n);
    assert line + ending + "" == line + ending;
  }

  lemma {:induction false} EndingSplits(left: string) returns (ending: string, tail: string)
    requires left != "" && IsLineEnd(left[0]) && left != "\r"
    ensures left == ending + tail && ending != ""
    ensures ending == "\n" || ending == "\r\n" || (ending == "\r" && tail != "" && tail[0] != '\n')
  {
    var n := EndingLength(left);
    ending, tail := left[..n], left[n..];
  }

  /** The first of several lines, and what is left after it. */
  lemma {:induction false} FirstOfLines(body: string) returns (line: string, ending: string, tail: string)
    requires |FirstLine(body)| < |body| && body[|FirstLine(body)|..] != "\r"
    ensures line == FirstLine(body) && body == line + ending + tail && ending != ""
    ensures ending == "\n" || ending == "\r\n" || (ending == "\r" && tail != "" && tail[0] != '\n')
  {
    FirstLineIsPrefix(body);
    line := FirstLine(body);
    ending, tail := EndingSplits(body[|line|..]);
    assert body == line + body[|line|..];
  }

  /** Any text without a run of `n` backticks, up to a line that closes, is read to the character. */
  lemma {:induction false} BodyIsRead(body: string, close: string, n: nat, after: string)
    requires LongestRun(body) < n && Closes(close, n, after)
    ensures ReadLines(body + ("\n" + close), n) == Closed(body + "\n", after)
    decreases |body|
  {
    var line := FirstLine(body);
    FirstLineDoesNotClose(body, n);
    var left := body[|line|..];
    assert body == line + left;
    if left == "" {
      LastLineIsRead(line, "\n", close, n, after);
      assert body == line;
    } else if left == "\r" {
      CarriageReturnIsRead(line, close, n, after);
    } else {
      MoreLinesAreRead(body, close, n, after);
    }
  }

  lemma {:induction false} FirstLineDoesNotClose(body: string, n: nat)
    requires LongestRun(body) < n
    ensures !IsClosing(FirstLine(body), n)
    ensures |FirstLine(body)| <= |body| && body == FirstLine(body) + body[|FirstLine(body)|..]
    ensures forall i :: 0 <= i < |FirstLine(body)| ==> !IsLineEnd(FirstLine(body)[i])
  {
    FirstLineIsPrefix(body);
    PrefixRuns(body, |FirstLine(body)|);
    ShortRunsDoNotClose(FirstLine(body), n);
  }

  /** The carriage return joins the line feed that follows the text. */
  lemma {:induction false} CarriageReturnIsRead(line: string, close: string, n: nat, after: string)
    requires forall i :: 0 <= i < |line| ==> !IsLineEnd(line[i])
    requires !IsClosing(line, n) && Closes(close, n, after)
    ensures ReadLines(line + "\r" + ("\n" + close), n) == Closed(line + "\r" + "\n", after)
  {
    assert line + "\r" + ("\n" + close) == line + ("\r\n" + close);
    assert line + "\r" + "\n" == line + "\r\n";
    LastLineIsRead(line, "\r\n", close, n, after);
  }

  lemma {:induction false} MoreLinesAreRead(body: string, close: string, n: nat, after: string)
    requires LongestRun(body) < n && Closes(close, n, after)
    requires |FirstLine(body)| < |body| && body[|FirstLine(body)|..] != "\r"
    requires !IsClosing(FirstLine(body), n)
    ensures ReadLines(body + ("\n" + close), n) == Closed(body + "\n", after)
    decreases |body|, 0
  {
    var line, ending, tail := FirstOfLines(body);
    assert body[|line + ending|..] == tail;
    SuffixRuns(body, |line + ending|);
    BodyIsRead(tail, close, n, after);
    Regroup(line, ending, tail, close);
    FirstLineIsPrefix(body);
    var rest := tail + ("\n" + close);
    assert ending == "\r" ==> rest[0] == tail[0];
    LineIsRead(line, ending, rest, n);
  }

  predicate IsTag(lang: string) {
    forall i :: 0 <= i < |lang| ==> lang[i] != TICK && !IsLineEnd(lang[i])
  }

  lemma {:induction false} TagLine(n: nat, lang: string)
    requires n >= 1 && IsTag(lang)
    ensures var line := Ticks(n) + lang;
            && LeadingTicks(line) == n && line[n..] == lang
            && forall i :: 0 <= i < |line| ==> !IsLineEnd(line[i])
  {
    TicksLead(n, lang);
  }

  /** The opening line gives the length of the fence. */
  lemma {:induction false} OpeningIsRead(line: string, n: nat, rest: string)
    requires n >= 3 && LeadingTicks(line) == n && TICK !in line[n..]
    requires forall i :: 0 <= i < |line| ==> !IsLineEnd(line[i])
    ensures ReadBlock(line + ("\n" + rest)) == Some(ReadLines(rest, n))
  {
    var doc := line + ("\n" + rest);
    FirstLineOf(line, "\n" + rest);
    assert doc[|line|..] == "\n" + rest;
    assert doc[|line| + 1..] == rest;
  }

  /**
   Whatever the snippet holds, its fence is the one that closes the block: the reader gets back every
   character of it and stops exactly where the fence ends.
   */
  lemma {:induction false} FenceIsRead(body: string, lang: string, more: string)
    requires IsTag(lang)
    requires more != "" ==> IsLineEnd(more[0])
    ensures ReadBlock(Fence(body, lang) + more) == Some(Closed(body + "\n", more))
  {
    var n := FenceLength(body);
    var close := Ticks(n) + more;
    assert Fence(body, lang) + more == Ticks(n) + lang + ("\n" + (body + ("\n" + close)));
    TagLine(n, lang);
    OpeningIsRead(Ticks(n) + lang, n, body + ("\n" + close));
    TicksClose(n, more);
    BodyIsRead(body, close, n, more);
  }

  lemma SnippetOf(body: string)
    ensures Snippet(body + "\n") == if body != "" && body[|body| - 1] == '\r' then body[..|body| - 1] else body
  {
    var content := body + "\n";
    assert content[..|body|] == body;
    if body != "" {
      assert content[|content| - 2..] == [body[|body| - 1], '\n'];
      assert content[..|content| - 2] == content[..|body|][..|body| - 1];
    }
  }

  /**
   Dropping the line ending before the closing line gives the snippet back exactly when it does not
   end in a carriage return, which would merge with the line feed that follows it.
   */
  lemma {:induction false} FenceRoundTripIff(body: string, lang: string, more: string)
    requires IsTag(lang)
    requires more != "" ==> IsLineEnd(more[0])
    ensures var block := ReadBlock(Fence(body, lang) + more);
            && block.Some? && block.value.Closed?
            && (Snippet(block.value.content) == body <==> !(body != "" && body[|body| - 1] == '\r'))
  {
    FenceIsRead(body, lang, more);
    SnippetOf(body);
  }

  /** In the joined document a fence is one line and the next line is empty, so the block ends there. */
  lemma {:induction false} FenceInDocument(body: string, lang: string, rest: seq<string>)
    requires IsTag(lang)
    ensures ReadBlock(Text.Join([Fence(body, lang), ""] + rest, '\n')) ==
            Some(Closed(body + "\n", "\n" + Text.Join([""] + rest, '\n')))
  {
    var lines := [Fence(body, lang), ""] + rest;
    assert lines[1..] == [""] + rest;
    var more := "\n" + Text.Join([""] + rest, '\n');
    assert Text.Join(lines, '\n') == Fence(body, lang) + more;
    FenceIsRead(body, lang, more);
  }

  // ---------- The entries ----------

  datatype Fix = Fix(
    status: string,
    severity: string,
    kind: string,
    targetUrl: string,
    title: string,
    before: Option<string>,
    after: Option<string>,
    filePath: Option<string>,
    guidance: string)

  const KNOWN_SEVERITIES: set<string> := {"critical", "warning", "info"}

  function Rank(severity: string): (r: nat)
    ensures r <= 3
  {
    if severity == "critical" then 0
    else if severity == "warning" then 1
    else if severity == "info" then 2
    else 3
  }

  function HeadingText(severity: string): string {
    if severity == "critical" then "Critical, fix these first"
    else if severity == "warning" then "Worth fixing"
    else if severity == "info" then "Polish"
    else severity
  }

  function Actionable(fixes: seq<Fix>): seq<Fix> {
    if fixes == [] then []
    else (if fixes[0].status != "DISMISSED" then [fixes[0]] else []) + Actionable(fixes[1..])
  }

  /** The fixes of one rank, in their given order. */
  function OfRank(fixes: seq<Fix>, r: nat): seq<Fix> {
    if fixes == [] then []
    else (if Rank(fixes[0].severity) == r then [fixes[0]] else []) + OfRank(fixes[1..], r)
  }

  /** A stable sort by rank. */
  function Sorted(fixes: seq<Fix>): seq<Fix> {
    OfRank(fixes, 0) + OfRank(fixes, 1) + OfRank(fixes, 2) + OfRank(fixes, 3)
  }

  datatype Item = Heading(severity: string) | Entry(number: nat, fix: Fix)

  /** One turn of the rendering loop: a heading where the severity changes, then the entry. */
  function Turn(f: Fix, last: string, number: nat): seq<Item> {
    if f.severity != last then [Heading(f.severity), Entry(number, f)] else [Entry(number, f)]
  }

  function Items(fixes: seq<Fix>, last: string, done: nat): seq<Item> {
    if fixes == [] then []
    else Turn(fixes[0], last, done + 1) + Items(fixes[1..], fixes[0].severity, done + 1)
  }

  predicate Truthy(s: Option<string>) {
    s.Some? && s.value != ""
  }

  function ItemLines(item: Item): seq<string> {
    match item
    case Heading(severity) => ["## " + HeadingText(severity), ""]
    case Entry(number, f) =>
      ["### " + Text.Print(number) + ". " + f.title, "",
       if f.kind == "FILE" then "**File:** `" + (if f.filePath.Some? then f.filePath.value else "null") + "`, served from `" + f.targetUrl + "`"
       else "**Page:** " + f.targetUrl, ""]
      + (if Truthy(f.before) then ["**Currently:**", "", Fence(f.before.value, "html"), ""] else [])
      + (if Truthy(f.after)
         then [if Truthy(f.before) then "**Change to:**" else "**Add this:**", "",
               Fence(f.after.value, if f.kind == "FILE" then "" else "html"), ""]
         else [])
      + [f.guidance, ""]
  }

  function Lines(items: seq<Item>): seq<string> {
    if items == [] then [] else ItemLines(items[0]) + Lines(items[1..])
  }

  lemma {:induction false} LinesAppend(a: seq<Item>, b: seq<Item>)
    ensures Lines(a + b) == Lines(a) + Lines(b)
    decreases |a|
  {
    if a == [] {
      assert a + b == b;
    } else {
      assert (a + b)[1..] == a[1..] + b;
      LinesAppend(a[1..], b);
    }
  }

  /** What one turn of the rendering loop adds. */
  function TurnLines(f: Fix, last: string, number: nat): seq<string> {
    (if f.severity != last then ItemLines(Heading(f.severity)) else []) + ItemLines(Entry(number, f))
  }

  lemma {:induction false} LinesOfTurn(f: Fix, last: string, number: nat)
    ensures Lines(Turn(f, last, number)) == TurnLines(f, last, number)
  {
    assert [Heading(f.severity), Entry(number, f)][1..] == [Entry(number, f)];
    assert Lines([Entry(number, f)]) == ItemLines(Entry(number, f)) by {
      assert [Entry(number, f)][1..] == [];
    }
  }

  lemma {:induction false} ItemsStep(fixes: seq<Fix>, last: string, done: nat)
    requires fixes != []
    ensures Lines(Items(fixes, last, done)) ==
            TurnLines(fixes[0], last, done + 1) + Lines(Items(fixes[1..], fixes[0].severity, done + 1))
  {
    LinesAppend(Turn(fixes[0], last, done + 1), Items(fixes[1..], fixes[0].severity, done + 1));
    LinesOfTurn(fixes[0], last, done + 1);
  }

  method RenderEntry(f: Fix, number: nat) returns (out: seq<string>)
    ensures out == ItemLines(Entry(number, f))
  {
    out := ["### " + Text.Print(number) + ". " + f.title, ""];
    out := out + [
      if f.kind == "FILE" then "**File:** `" + (if f.filePath.Some? then f.filePath.value else "null") + "`, served from `" + f.targetUrl + "`"
      else "**Page:** " + f.targetUrl, ""];
    if Truthy(f.before) {
      out := out + ["**Currently:**", "", Fence(f.before.value, "html"), ""];
    }
    if Truthy(f.after) {
      out := out + [if Truthy(f.before) then "**Change to:**" else "**Add this:**", "",
                    Fence(f.after.value, if f.kind == "FILE" then "" else "html"), ""];
    }
    out := out + [f.guidance, ""];
  }

  lemma Associative<T>(a: seq<T>, b: seq<T>, c: seq<T>)
    ensures a + (b + c) == a + b + c
  {
  }

  lemma {:induction false} TurnAdds(before: seq<string>, out: seq<string>, f: Fix, last: string, number: nat, rest: seq<string>)
    requires out == (if f.severity != last then before + ItemLines(Heading(f.severity)) else before) + ItemLines(Entry(number, f))
    ensures before + (TurnLines(f, last, number) + rest) == out + rest
  {
    var heading: seq<string> := if f.severity != last then ItemLines(Heading(f.severity)) else [];
    var entry := ItemLines(Entry(number, f));
    Associative(before, heading, entry);
    Associative(before, heading + entry, rest);
    assert before + [] == before;
  }

  /** The section of the pack that lists the fixes; `sorted` is the stable sort the runtime provides. */
  method RenderFixes(fixes: seq<Fix>) returns (out: seq<string>)
    ensures out == Lines(Items(Sorted(Actionable(fixes)), "", 0))
  {
    var actionable := Actionable(fixes);
    out := [];
    if |actionable| == 0 {
      return;
    }
    var sorted := Sorted(actionable);
    var lastSeverity := "";
    var index := 0;
    for i := 0 to |sorted|
      invariant index == i
      invariant out + Lines(Items(sorted[i..], lastSeverity, index)) == Lines(Items(sorted, "", 0))
    {
      var fix := sorted[i];
      ghost var before, last := out, lastSeverity;
      ItemsStep(sorted[i..], last, index);
      assert sorted[i..][1..] == sorted[i + 1..];
      if fix.severity != lastSeverity {
        lastSeverity := fix.severity;
        out := out + ["## " + HeadingText(fix.severity), ""];
      }
      index := index + 1;
      var entry := RenderEntry(fix, index);
      out := out + entry;
      TurnAdds(before, out, fix, last, index, Lines(Items(sorted[i + 1..], lastSeverity, index)));
    }
    assert sorted[|sorted|..] == [];
  }

  // ---------- What the section contains ----------

  lemma PutAnywhere<T>(f: T, a: seq<T>, b: seq<T>, c: seq<T>, d: seq<T>, r: nat)
    requires r <= 3
    ensures
      multiset((if r == 0 then [f] else []) + a + ((if r == 1 then [f] else []) + b)
               + ((if r == 2 then [f] else []) + c) + ((if r == 3 then [f] else []) + d))
      == multiset{f} + multiset(a + b + c + d)
  {
  }

  /** Sorting loses nothing and adds nothing. */
  lemma {:induction false} RankSplits(fixes: seq<Fix>)
    ensures multiset(Sorted(fixes)) == multiset(fixes)
    decreases |fixes|
  {
    if fixes != [] {
      var f, rest := fixes[0], fixes[1..];
      assert fixes == [f] + rest;
      RankSplits(rest);
      PutAnywhere(f, OfRank(rest, 0), OfRank(rest, 1), OfRank(rest, 2), OfRank(rest, 3), Rank(f.severity));
    }
  }

  lemma {:induction false} RankIs(fixes: seq<Fix>, r: nat)
    ensures forall i :: 0 <= i < |OfRank(fixes, r)| ==> Rank(OfRank(fixes, r)[i].severity) == r
    decreases |fixes|
  {
    if fixes != [] {
      RankIs(fixes[1..], r);
    }
  }

  predicate Ordered(fixes: seq<Fix>) {
    forall i, j :: 0 <= i <= j < |fixes| ==> Rank(fixes[i].severity) <= Rank(fixes[j].severity)
  }

  lemma {:induction false} SortedIsOrdered(fixes: seq<Fix>)
    ensures Ordered(Sorted(fixes))
  {
    RankIs(fixes, 0);
    RankIs(fixes, 1);
    RankIs(fixes, 2);
    RankIs(fixes, 3);
  }

  lemma {:induction false} OfRankAppend(a: seq<Fix>, b: seq<Fix>, r: nat)
    ensures OfRank(a + b, r) == OfRank(a, r) + OfRank(b, r)
    decreases |a|
  {
    if a == [] {
      assert a + b == b;
    } else {
      assert (a + b)[1..] == a[1..] + b;
      OfRankAppend(a[1..], b, r);
      Associative(if Rank(a[0].severity) == r then [a[0]] else [], OfRank(a[1..], r), OfRank(b, r));
    }
  }

  lemma {:induction false} OfOwnRank(fixes: seq<Fix>, r: nat, q: nat)
    requires forall i :: 0 <= i < |fixes| ==> Rank(fixes[i].severity) == q
    ensures OfRank(fixes, r) == if r == q then fixes else []
    decreases |fixes|
  {
    if fixes != [] {
      OfOwnRank(fixes[1..], r, q);
      assert [fixes[0]] + fixes[1..] == fixes;
    }
  }

  lemma {:induction false} OfRankTwice(fixes: seq<Fix>, q: nat, r: nat)
    ensures OfRank(OfRank(fixes, q), r) == if r == q then OfRank(fixes, q) else []
  {
    RankIs(fixes, q);
    OfOwnRank(OfRank(fixes, q), r, q);
  }

  /** Stability: sorting keeps the given order among fixes of one rank. */
  lemma {:induction false} SortIsStable(fixes: seq<Fix>, r: nat)
    requires r <= 3
    ensures OfRank(Sorted(fixes), r) == OfRank(fixes, r)
  {
    var a, b, c, d := OfRank(fixes, 0), OfRank(fixes, 1), OfRank(fixes, 2), OfRank(fixes, 3);
    OfRankAppend(a + b + c, d, r);
    OfRankAppend(a + b, c, r);
    OfRankAppend(a, b, r);
    OfRankTwice(fixes, 0, r);
    OfRankTwice(fixes, 1, r);
    OfRankTwice(fixes, 2, r);
    OfRankTwice(fixes, 3, r);
  }

  /** A list already in order of rank is its own sort. */
  lemma {:induction false} OrderedIsSorted(fixes: seq<Fix>)
    requires Ordered(fixes)
    ensures Sorted(fixes) == fixes
    decreases |fixes|
  {
    if fixes != [] {
      var f, rest := fixes[0], fixes[1..];
      assert fixes == [f] + rest;
      OrderedIsSorted(rest);
      var r := Rank(f.severity);
      if r >= 1 {
        NoneBelow(rest, r, 0);
      }
      if r >= 2 {
        NoneBelow(rest, r, 1);
      }
      if r >= 3 {
        NoneBelow(rest, r, 2);
      }
      PutFirst(f, OfRank(rest, 0), OfRank(rest, 1), OfRank(rest, 2), OfRank(rest, 3), r);
    }
  }

  lemma PutFirst<T>(f: T, a: seq<T>, b: seq<T>, c: seq<T>, d: seq<T>, r: nat)
    requires r <= 3 && (r >= 1 ==> a == []) && (r >= 2 ==> b == []) && (r >= 3 ==> c == [])
    ensures
      (if r == 0 then [f] else []) + a + ((if r == 1 then [f] else []) + b)
      + ((if r == 2 then [f] else []) + c) + ((if r == 3 then [f] else []) + d) == [f] + (a + b + c + d)
  {
  }

  lemma {:induction false} NoneBelow(fixes: seq<Fix>, r: nat, q: nat)
    requires q < r && forall i :: 0 <= i < |fixes| ==> r <= Rank(fixes[i].severity)
    ensures OfRank(fixes, q) == []
    decreases |fixes|
  {
    if fixes != [] {
      NoneBelow(fixes[1..], r, q);
    }
  }

  /** `Sorted` is the only stable sort by rank there is. */
  lemma {:induction false} StableSortIsUnique(fixes: seq<Fix>, other: seq<Fix>)
    requires Ordered(other)
    requires forall r: nat :: r <= 3 ==> OfRank(other, r) == OfRank(fixes, r)
    ensures other == Sorted(fixes)
  {
    OrderedIsSorted(other);
  }

  function Entries(items: seq<Item>): seq<Item> {
    if items == [] then []
    else (if items[0].Entry? then [items[0]] else []) + Entries(items[1..])
  }

  function Headings(items: seq<Item>, severity: string): nat {
    if items == [] then 0
    else (if items[0] == Heading(severity) then 1 else 0) + Headings(items[1..], severity)
  }

  lemma {:induction false} EntriesAppend(a: seq<Item>, b: seq<Item>)
    ensures Entries(a + b) == Entries(a) + Entries(b)
    decreases |a|
  {
    if a == [] {
      assert a + b == b;
    } else {
      assert (a + b)[1..] == a[1..] + b;
      EntriesAppend(a[1..], b);
      Associative(if a[0].Entry? then [a[0]] else [], Entries(a[1..]), Entries(b));
    }
  }

  lemma {:induction false} HeadingsAppend(a: seq<Item>, b: seq<Item>, severity: string)
    ensures Headings(a + b, severity) == Headings(a, severity) + Headings(b, severity)
    decreases |a|
  {
    if a == [] {
      assert a + b == b;
    } else {
      assert (a + b)[1..] == a[1..] + b;
      HeadingsAppend(a[1..], b, severity);
    }
  }

  lemma {:induction false} TurnHolds(f: Fix, last: string, number: nat, severity: string)
    ensures Entries(Turn(f, last, number)) == [Entry(number, f)]
    ensures Headings(Turn(f, last, number), severity) == if f.severity == severity && severity != last then 1 else 0
  {
    var one := [Entry(number, f)];
    assert one[1..] == [];
    assert Entries(one) == one && Headings(one, severity) == 0;
    if f.severity != last {
      assert Turn(f, last, number)[1..] == one;
    }
  }

  function Numbered(fixes: seq<Fix>, done: nat): seq<Item> {
    seq(|fixes|, i requires 0 <= i < |fixes| => Entry(done + 1 + i, fixes[i]))
  }

  /** The entries are the fixes in order, numbered without a gap. */
  lemma {:induction false} EntriesAreNumbered(fixes: seq<Fix>, last: string, done: nat)
    ensures Entries(Items(fixes, last, done)) == Numbered(fixes, done)
    decreases |fixes|
  {
    if fixes != [] {
      var f := fixes[0];
      EntriesAppend(Turn(f, last, done + 1), Items(fixes[1..], f.severity, done + 1));
      TurnHolds(f, last, done + 1, "");
      EntriesAreNumbered(fixes[1..], f.severity, done + 1);
    }
  }

  predicate Present(fixes: seq<Fix>, severity: string) {
    exists i :: 0 <= i < |fixes| && fixes[i].severity == severity
  }

  lemma {:induction false} HeadingsOnce(fixes: seq<Fix>, last: string, done: nat, severity: string)
    requires Ordered(fixes) && severity in KNOWN_SEVERITIES
    requires last == severity ==> forall i :: 0 <= i < |fixes| ==> Rank(severity) <= Rank(fixes[i].severity)
    ensures Headings(Items(fixes, last, done), severity) == if Present(fixes, severity) && last != severity then 1 else 0
    decreases |fixes|
  {
    if fixes != [] {
      var f := fixes[0];
      HeadingsAppend(Turn(f, last, done + 1), Items(fixes[1..], f.severity, done + 1), severity);
      TurnHolds(f, last, done + 1, severity);
      HeadingsOnce(fixes[1..], f.severity, done + 1, severity);
      assert Present(fixes, severity) <==> f.severity == severity || Present(fixes[1..], severity) by {
        assert fixes == [f] + fixes[1..];
      }
    }
  }

  /**
   Every fix that was not dismissed is rendered once, numbered 1 to n, in stable order of severity, and
   each known severity that occurs has exactly one heading.
   */
  lemma {:induction false} PackIsComplete(fixes: seq<Fix>)
    ensures var sorted := Sorted(Actionable(fixes));
            && multiset(sorted) == multiset(Actionable(fixes))
            && Ordered(sorted)
            && Entries(Items(sorted, "", 0)) == Numbered(sorted, 0)
    ensures forall r: nat :: r <= 3 ==> OfRank(Sorted(Actionable(fixes)), r) == OfRank(Actionable(fixes), r)
    ensures forall s :: s in KNOWN_SEVERITIES ==>
              Headings(Items(Sorted(Actionable(fixes)), "", 0), s) == if Present(Actionable(fixes), s) then 1 else 0
  {
    RankSplits(Actionable(fixes));
    SortedIsOrdered(Actionable(fixes));
    EntriesAreNumbered(Sorted(Actionable(fixes)), "", 0);
    forall r: nat | r <= 3
      ensures OfRank(Sorted(Actionable(fixes)), r) == OfRank(Actionable(fixes), r)
    {
      SortIsStable(Actionable(fixes), r);
    }
    forall s | s in KNOWN_SEVERITIES
      ensures Headings(Items(Sorted(Actionable(fixes)), "", 0), s) == if Present(Actionable(fixes), s) then 1 else 0
    {
      OneHeading(Actionable(fixes), s);
    }
  }

  lemma {:induction false} OneHeading(fixes: seq<Fix>, s: string)
    requires s in KNOWN_SEVERITIES
    ensures Headings(Items(Sorted(fixes), "", 0), s) == if Present(fixes, s) then 1 else 0
  {
    RankSplits(fixes);
    SortedIsOrdered(fixes);
    HeadingsOnce(Sorted(fixes), "", 0, s);
    PresentInBoth(fixes, Sorted(fixes), s);
  }

  lemma PresentInBoth(a: seq<Fix>, b: seq<Fix>, severity: string)
    requires multiset(a) == multiset(b)
    ensures Present(a, severity) <==> Present(b, severity)
  {
    if i :| 0 <= i < |a| && a[i].severity == severity {
      assert a[i] in multiset(a);
      assert a[i] in multiset(b);
    }
    if i :| 0 <= i < |b| && b[i].severity == severity {
      assert b[i] in multiset(b);
      assert b[i] in multiset(a);
    }
  }
}
