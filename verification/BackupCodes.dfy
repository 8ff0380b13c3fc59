/**
 Single-use recovery codes: sets of ten, printed in two groups of five and read back in any spelling,
 and the service that issues and redeems them.
 */
module BackupCodes {
  import opened Arithmetic
  import opened Wrappers

  const CODE_COUNT: nat := 10
  const CODE_LENGTH: nat := 10

  type RowId = nat
  type User = string

  // ---------- Printing and reading a code ----------

  /** The printed alphabet: digits and capitals without I, L, O and U. */
  predicate InAlphabet(c: char) {
    ('0' <= c <= '9') || ('A' <= c <= 'Z' && c != 'I' && c != 'L' && c != 'O' && c != 'U')
  }

  predicate IsSpace(c: char) {
    c == ' ' || c == '\t' || c == '\n' || c == '\r'
  }

  function ToUpper(c: char): char {
    if 'a' <= c <= 'z' then c - 'a' + 'A' else c
  }

  function ToLower(c: char): char {
    if 'A' <= c <= 'Z' then c - 'A' + 'a' else c
  }

  function FormatCode(raw: string): string {
    (if |raw| <= 5 then raw else raw[..5]) + "-" + (if |raw| <= 5 then "" else raw[5..])
  }

  /** Upper-cases, and drops white space and hyphens wherever they are. */
  function NormalizeCode(input: string): string {
    if input == "" then ""
    else if IsSpace(input[0]) || input[0] == '-' then NormalizeCode(input[1..])
    else [ToUpper(input[0])] + NormalizeCode(input[1..])
  }

  /** `typed` shows the code `raw` with any casing, and with hyphens and white space anywhere. */
  ghost predicate Spells(typed: string, raw: string)
    decreases |typed|
  {
    if typed == "" then raw == ""
    else
      || ((IsSpace(typed[0]) || typed[0] == '-') && Spells(typed[1..], raw))
      || (raw != "" && (typed[0] == raw[0] || typed[0] == ToLower(raw[0])) && Spells(typed[1..], raw[1..]))
  }

  /** Whatever spelling of an issued code somebody types, it is read as that code. */
  lemma {:induction false} NormalizeReadsEverySpelling(typed: string, raw: string)
    requires forall c :: c in raw ==> InAlphabet(c)
    requires Spells(typed, raw)
    ensures NormalizeCode(typed) == raw
    decreases |typed|
  {
    if typed != "" {
      if IsSpace(typed[0]) || typed[0] == '-' {
        assert raw != "" ==> InAlphabet(raw[0]);
        NormalizeReadsEverySpelling(typed[1..], raw);
      } else {
        assert InAlphabet(raw[0]);
        NormalizeReadsEverySpelling(typed[1..], raw[1..]);
        assert raw == [raw[0]] + raw[1..];
      }
    }
  }

  lemma {:induction false} SpellsItself(raw: string, shown: string)
    requires shown == raw || exists i :: 0 <= i <= |raw| && shown == raw[..i] + "-" + raw[i..]
    ensures Spells(shown, raw)
    decreases |shown|
  {
    if shown == raw {
      if raw != "" {
        SpellsItself(raw[1..], raw[1..]);
      }
    } else {
      var i :| 0 <= i <= |raw| && shown == raw[..i] + "-" + raw[i..];
      if i == 0 {
        assert shown[1..] == raw;
        SpellsItself(raw, raw);
      } else {
        assert shown[1..] == raw[1..][..i - 1] + "-" + raw[1..][i - 1..];
        SpellsItself(raw[1..], shown[1..]);
      }
    }
  }

  /** What is printed is read back. */
  lemma PrintedCodeIsRead(raw: string)
    requires forall c :: c in raw ==> InAlphabet(c)
    ensures NormalizeCode(FormatCode(raw)) == raw
  {
    var i := if |raw| <= 5 then |raw| else 5;
    assert FormatCode(raw) == raw[..i] + "-" + raw[i..];
    SpellsItself(raw, FormatCode(raw));
    NormalizeReadsEverySpelling(FormatCode(raw), raw);
  }

  // ---------- The rows ----------

  /** One stored code.  The stored hash stands for its code, being injective; it may also be unreadable. */
  datatype Row = Row(user: User, code: Option<string>, used: bool)

  type Rows = map<RowId, Row>

  function Unused(rows: Rows, user: User): set<RowId> {
    set id | id in rows && rows[id].user == user && !rows[id].used
  }

  function Claim(rows: Rows, id: RowId): Rows {
    if id in rows && !rows[id].used then rows[id := rows[id].(used := true)] else rows
  }

  function Owned(rows: Rows, user: User): set<RowId> {
    set id | id in rows && rows[id].user == user
  }

  function DeleteUser(rows: Rows, user: User): Rows {
    rows - Owned(rows, user)
  }

  function NewRows(user: User, issued: map<RowId, string>): Rows {
    map id | id in issued :: Row(user, Some(issued[id]), false)
  }

  /** The rows of everyone else are the same ones, unchanged. */
  ghost predicate OthersKept(before: Rows, after: Rows, user: User) {
    && (forall id :: id in before && before[id].user != user ==> id in after && after[id] == before[id])
    && (forall id :: id in after && after[id].user != user ==> id in before)
  }

  lemma {:induction false} ReissueLeaves(rows: Rows, user: User, issued: map<RowId, string>)
    requires issued.Keys !! rows.Keys
    ensures var after := DeleteUser(rows, user) + NewRows(user, issued);
            && Owned(after, user) == Unused(after, user) == issued.Keys
            && OthersKept(rows, after, user)
            && forall id :: id in issued ==> after[id] == Row(user, Some(issued[id]), false)
  {
  }

  /** A code as it is generated. */
  predicate IsCode(code: string) {
    |code| == CODE_LENGTH && forall c :: c in code ==> InAlphabet(c)
  }

  predicate Matches(rows: Rows, id: RowId, candidate: string) {
    id in rows && rows[id].code == Some(candidate)
  }

  ghost predicate FirstMatch(rows: Rows, listed: seq<RowId>, candidate: string, i: nat) {
    i < |listed| && Matches(rows, listed[i], candidate) && forall j :: 0 <= j < i ==> !Matches(rows, listed[j], candidate)
  }

  /** What a bounded read of the unused rows may return, in whatever order. */
  predicate IsRead(rows: Rows, user: User, listed: seq<RowId>) {
    && (forall i :: 0 <= i < |listed| ==> listed[i] in Unused(rows, user))
    && (forall i, j :: 0 <= i < j < |listed| ==> listed[i] != listed[j])
    && |listed| == Min(|Unused(rows, user)|, 2 * CODE_COUNT)
  }

  class BackupCodesService {
    var rows: Rows

    constructor ()
      ensures rows == map[]
    {
      rows := map[];
    }

    /**
     `issued` are the generated codes under their new row ids.  Run whole, it leaves the user exactly the
     new set, each shown code is read back as its row's code, and nobody else's rows change.
     */
    method Regenerate(user: User, issued: map<RowId, string>) returns (shown: map<RowId, string>)
      requires |issued| == CODE_COUNT && issued.Keys !! rows.Keys
      requires forall id :: id in issued ==> IsCode(issued[id])
      modifies this`rows
      ensures Owned(rows, user) == Unused(rows, user) == issued.Keys == shown.Keys
      ensures forall id :: id in shown ==> Matches(rows, id, NormalizeCode(shown[id]))
      ensures OthersKept(old(rows), rows, user)
    {
      ReissueLeaves(rows, user, issued);
      rows := DeleteUser(rows, user);
      rows := rows + NewRows(user, issued);
      shown := map id | id in issued :: FormatCode(issued[id]);
      forall id | id in shown
        ensures Matches(rows, id, NormalizeCode(shown[id]))
      {
        PrintedCodeIsRead(issued[id]);
      }
    }

    method Remaining(user: User) returns (count: nat)
      ensures count == |Unused(rows, user)|
    {
      count := |Unused(rows, user)|;
    }

    method RevokeAll(user: User)
      modifies this`rows
      ensures Owned(rows, user) == {} && OthersKept(old(rows), rows, user)
    {
      rows := DeleteUser(rows, user);
    }

    /** Verifies every listed code, without stopping at the first match or at a hash that will not parse. */
    method FindMatch(listed: seq<RowId>, candidate: string) returns (matched: Option<RowId>)
      requires forall id :: id in listed ==> id in rows
      ensures matched.None? <==> forall i :: 0 <= i < |listed| ==> !Matches(rows, listed[i], candidate)
      ensures matched.Some? ==> exists i: nat :: FirstMatch(rows, listed, candidate, i) && listed[i] == matched.value
    {
      matched := None;
      for n := 0 to |listed|
        invariant matched.None? <==> forall i :: 0 <= i < n ==> !Matches(rows, listed[i], candidate)
        invariant matched.Some? ==> exists i: nat :: i < n && FirstMatch(rows, listed, candidate, i) && listed[i] == matched.value
      {
        var code := rows[listed[n]].code;
        var ok := code.Some? && code.value == candidate;
        if ok && matched.None? {
          assert FirstMatch(rows, listed, candidate, n);
          matched := Some(listed[n]);
        }
      }
    }

    /**
     `listed` is what the read returned; `meanwhile` are the rows when the conditional update runs, other
     requests having used the table since.
     */
    method Redeem(user: User, input: string, listed: seq<RowId>, meanwhile: Rows) returns (ok: bool)
      requires IsRead(rows, user, listed)
      modifies this`rows
      ensures ok <==> NormalizeCode(input) != "" && exists i: nat ::
                        FirstMatch(old(rows), listed, NormalizeCode(input), i) && listed[i] in meanwhile && !meanwhile[listed[i]].used
      ensures ok ==> exists id :: id in listed && id in meanwhile && !meanwhile[id].used &&
                                  Matches(old(rows), id, NormalizeCode(input)) && rows == meanwhile[id := meanwhile[id].(used := true)]
      ensures !ok ==> rows == old(rows) || rows == meanwhile
    {
      var candidate := NormalizeCode(input);
      if candidate == "" {
        return false;
      }
      var matched := FindMatch(listed, candidate);
      if matched.None? {
        return false;
      }
      ghost var i: nat :| FirstMatch(rows, listed, candidate, i) && listed[i] == matched.value;
      rows := meanwhile;
      if matched.value !in rows || rows[matched.value].used {
        return false; // another request redeemed it, or replaced the set, between the read and here
      }
      rows := rows[matched.value := rows[matched.value].(used := true)];
      return true;
    }
  }

  /** A code that the read lists is found. */
  lemma {:induction false} ListedIsFound(rows: Rows, listed: seq<RowId>, candidate: string, n: nat)
    requires n < |listed| && Matches(rows, listed[n], candidate)
    ensures exists i: nat :: i <= n && FirstMatch(rows, listed, candidate, i)
    decreases n
  {
    if j: nat :| j < n && Matches(rows, listed[j], candidate) {
      ListedIsFound(rows, listed, candidate, j);
    } else {
      assert FirstMatch(rows, listed, candidate, n);
    }
  }

  lemma {:induction false} Enumerate(ids: set<RowId>) returns (list: seq<RowId>)
    ensures |list| == |ids|
    ensures forall i :: 0 <= i < |list| ==> list[i] in ids
    ensures forall i, j :: 0 <= i < j < |list| ==> list[i] != list[j]
    decreases |ids|
  {
    if ids == {} {
      list := [];
    } else {
      var id :| id in ids;
      var rest := Enumerate(ids - {id});
      list := [id] + rest;
    }
  }

  lemma {:induction false} DistinctIn(list: seq<RowId>, ids: set<RowId>) returns (members: set<RowId>)
    requires forall i :: 0 <= i < |list| ==> list[i] in ids
    requires forall i, j :: 0 <= i < j < |list| ==> list[i] != list[j]
    ensures members == (set i | 0 <= i < |list| :: list[i]) && |members| == |list| <= |ids|
    decreases |list|
  {
    if list == [] {
      members := {};
    } else {
      var n := |list| - 1;
      var rest := DistinctIn(list[..n], ids - {list[n]});
      members := rest + {list[n]};
    }
  }

  ghost predicate Lists(listed: seq<RowId>, id: RowId) {
    exists i :: 0 <= i < |listed| && listed[i] == id
  }

  /** Every unused code can be redeemed, whatever rows the bounded read picks, exactly up to twenty of them. */
  lemma {:induction false} EveryCodeListedIff(rows: Rows, user: User)
    ensures (forall listed, id :: IsRead(rows, user, listed) && id in Unused(rows, user) ==> Lists(listed, id))
            <==> |Unused(rows, user)| <= 2 * CODE_COUNT
  {
    var unused := Unused(rows, user);
    if |unused| <= 2 * CODE_COUNT {
      forall listed, id | IsRead(rows, user, listed) && id in unused
        ensures Lists(listed, id)
      {
        if !Lists(listed, id) {
          var members := DistinctIn(listed, unused - {id});
        }
      }
    } else {
      var id :| id in unused;
      var others := Enumerate(unused - {id});
      var listed := others[..2 * CODE_COUNT];
      assert IsRead(rows, user, listed);
      assert !Lists(listed, id);
    }
  }

  /** Up to twenty, then, a redemption finds a match in what it reads exactly when some unused code matches. */
  lemma {:induction false} MatchIsFoundIff(rows: Rows, user: User, listed: seq<RowId>, candidate: string)
    requires IsRead(rows, user, listed) && |Unused(rows, user)| <= 2 * CODE_COUNT
    ensures (exists i: nat :: FirstMatch(rows, listed, candidate, i))
            <==> exists id :: id in Unused(rows, user) && Matches(rows, id, candidate)
  {
    if id :| id in Unused(rows, user) && Matches(rows, id, candidate) {
      EveryCodeListedIff(rows, user);
      assert Lists(listed, id);
      var n :| 0 <= n < |listed| && listed[n] == id;
      ListedIsFound(rows, listed, candidate, n);
    }
    if i: nat :| FirstMatch(rows, listed, candidate, i) {
      assert listed[i] in Unused(rows, user);
    }
  }
}
