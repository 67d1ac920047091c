/** The helper functions of the tool-calling agent: `last_number`, which picks
    the last number out of a tool's text answer; `tool_text`, which normalises a
    tool result to its text; and `format_args`, which prints tool arguments with
    digit strings shown as integers. */
module AgentHelpers {
  import opened Wrappers
  import opened Strings
  import opened PyValue

  // ---------------------------------------------------------------------------
  // last_number: re.findall(r"-?\d+(?:\.\d+)?", text)[-1]
  // ---------------------------------------------------------------------------

  /** Text the pattern without its sign matches: digits, optionally followed by
      a dot and more digits. */
  predicate IsUnsignedNumber(u: string) {
    || IsDigitString(u)
    || exists k :: 0 < k < |u| && u[k] == '.' && IsDigitString(u[..k]) && IsDigitString(u[k + 1..])
  }

  /** Text the whole pattern matches: an optional minus sign, then an unsigned number. */
  predicate IsNumberToken(t: string) {
    if |t| > 0 && t[0] == '-' then IsUnsignedNumber(t[1..]) else IsUnsignedNumber(t)
  }

  predicate HasDigitFrom(s: string, i: nat) {
    exists k :: i <= k < |s| && IsDigit(s[k])
  }

  /** A match of the pattern can begin at `i`: a digit, or a minus sign before one. */
  predicate StartsNumber(s: string, i: nat) {
    i < |s| && (IsDigit(s[i]) || (s[i] == '-' && i + 1 < |s| && IsDigit(s[i + 1])))
  }

  /** The end of the run of digits that begins at `i`. */
  function DigitRunEnd(s: string, i: nat): (e: nat)
    requires i <= |s|
    ensures i <= e <= |s|
    ensures forall k :: i <= k < e ==> IsDigit(s[k])
    ensures e == |s| || !IsDigit(s[e])
    decreases |s| - i
  {
    if i < |s| && IsDigit(s[i]) then DigitRunEnd(s, i + 1) else i
  }

  lemma DigitSlice(s: string, a: nat, b: nat)
    requires a < b <= |s|
    requires forall k :: a <= k < b ==> IsDigit(s[k])
    ensures IsDigitString(s[a..b])
  {
  }

  /** Digits all the way from `j` to `m` put the end of the run at `m` or later. */
  lemma RunCovers(s: string, j: nat, m: nat)
    requires j <= m <= |s|
    requires forall x :: j <= x < m ==> IsDigit(s[x])
    ensures DigitRunEnd(s, j) >= m
  {
  }

  /** A digit string in `s[j..e]` ends inside the digit run from `j`. */
  lemma DigitsEnd(s: string, j: nat, e: nat)
    requires j <= e <= |s| && IsDigitString(s[j..e])
    ensures e <= DigitRunEnd(s, j)
  {
    forall x | j <= x < e
      ensures IsDigit(s[x])
    {
      assert s[x] == s[j..e][x - j];
    }
    RunCovers(s, j, e);
  }

  /** A decimal with its dot at `d` ends inside the digit run after the dot,
      and the run before the dot stops at the dot. */
  lemma DecimalEnd(s: string, j: nat, d: nat, e: nat)
    requires j < d < e <= |s| && s[d] == '.'
    requires IsDigitString(s[j..d]) && IsDigitString(s[d + 1..e])
    ensures DigitRunEnd(s, j) == d
    ensures d + 1 < |s| && IsDigit(s[d + 1])
    ensures e <= DigitRunEnd(s, d + 1)
  {
    DigitsEnd(s, j, d);
    DigitsEnd(s, d + 1, e);
    assert s[d + 1] == s[d + 1..e][0];
  }

  /** `e` lies within the longest unsigned number that starts at `j`: inside
      the digit run from `j`, or, when a dot and a digit follow that run,
      inside the digit run after the dot. */
  predicate EndsWithin(s: string, j: nat, e: nat)
    requires j <= |s|
  {
    var e1 := DigitRunEnd(s, j);
    || e <= e1
    || (e1 + 1 < |s| && s[e1] == '.' && IsDigit(s[e1 + 1]) && e <= DigitRunEnd(s, e1 + 1))
  }

  /** Every unsigned number in `s[j..e]` ends within the longest one. */
  lemma UnsignedEnd(s: string, j: nat, e: nat)
    requires j <= e <= |s| && IsUnsignedNumber(s[j..e])
    ensures EndsWithin(s, j, e)
  {
    var u := s[j..e];
    if IsDigitString(u) {
      DigitsEnd(s, j, e);
    } else {
      var k :| 0 < k < |u| && u[k] == '.' && IsDigitString(u[..k]) && IsDigitString(u[k + 1..]);
      DottedEnd(s, j, e, k);
    }
  }

  /** The dotted case of `UnsignedEnd`, with the dot at offset `k`. */
  lemma DottedEnd(s: string, j: nat, e: nat, k: nat)
    requires j <= e <= |s| && 0 < k < e - j
    requires s[j..e][k] == '.' && IsDigitString(s[j..e][..k]) && IsDigitString(s[j..e][k + 1..])
    ensures EndsWithin(s, j, e)
  {
    assert s[j..e][..k] == s[j..j + k] && s[j..e][k + 1..] == s[j + k + 1..e];
    DecimalEnd(s, j, j + k, e);
  }

  /** The sign, when there is one, comes first; the unsigned part follows. */
  function UnsignedStart(s: string, i: nat): (j: nat)
    requires i < |s|
    ensures j <= |s| && (j == i || j == i + 1)
  {
    if s[i] == '-' then i + 1 else i
  }

  /** Where a number token that starts at `i` can end. */
  lemma TokenEnd(s: string, i: nat, e: nat)
    requires i < e <= |s| && IsNumberToken(s[i..e])
    ensures EndsWithin(s, UnsignedStart(s, i), e)
  {
    var j := UnsignedStart(s, i);
    assert s[j..e] == (if s[i] == '-' then s[i..e][1..] else s[i..e]);
    UnsignedEnd(s, j, e);
  }

  /** `TokenEnd` for every end at once. */
  lemma TokenEnds(s: string, i: nat)
    requires i < |s|
    ensures forall e :: i < e <= |s| && IsNumberToken(s[i..e]) ==> EndsWithin(s, UnsignedStart(s, i), e)
  {
    forall e | i < e <= |s| && IsNumberToken(s[i..e])
      ensures EndsWithin(s, UnsignedStart(s, i), e)
    {
      TokenEnd(s, i, e);
    }
  }

  /** The end of the match the regular expression engine finds when it tries
      position `i`: the sign if present, all the digits (greedy), and a fraction
      only when a digit follows the dot. For this pattern greedy matching finds
      the longest token that starts at `i`. */
  function MatchAt(s: string, i: nat): (r: Option<nat>)
    requires i <= |s|
    ensures r.Some? <==> StartsNumber(s, i)
    ensures r.Some? ==> i < r.value <= |s| && IsNumberToken(s[i..r.value])
    ensures r.Some? ==> forall e :: r.value < e <= |s| ==> !IsNumberToken(s[i..e])
    ensures r.Some? ==> r.value == |s| || !IsDigit(s[r.value])
  {
    if !StartsNumber(s, i) then None
    else
      var j := UnsignedStart(s, i);
      var e1 := DigitRunEnd(s, j);
      TokenEnds(s, i);
      if e1 + 1 < |s| && s[e1] == '.' && IsDigit(s[e1 + 1]) then
        var e := DigitRunEnd(s, e1 + 1);
        DecimalToken(s, j, e1, e);
        SignedToken(s, i, e);
        Some(e)
      else
        DigitSlice(s, j, e1);
        SignedToken(s, i, e1);
        Some(e1)
  }

  /** Digits, a dot, and digits again make an unsigned number. */
  lemma DecimalToken(s: string, j: nat, d: nat, e: nat)
    requires j < d < e <= |s| && s[d] == '.'
    requires forall k :: j <= k < d ==> IsDigit(s[k])
    requires forall k :: d + 1 <= k < e ==> IsDigit(s[k])
    requires d + 1 < e
    ensures IsUnsignedNumber(s[j..e])
  {
    var u := s[j..e];
    assert u[..d - j] == s[j..d] && u[d - j + 1..] == s[d + 1..e] && u[d - j] == '.';
    DigitSlice(s, j, d);
    DigitSlice(s, d + 1, e);
  }

  /** An unsigned number after the optional sign makes a number token. */
  lemma SignedToken(s: string, i: nat, e: nat)
    requires i < |s| && UnsignedStart(s, i) <= e <= |s|
    requires IsUnsignedNumber(s[UnsignedStart(s, i)..e])
    ensures IsNumberToken(s[i..e])
  {
    if s[i] == '-' {
      assert s[i..e][1..] == s[i + 1..e];
    }
  }

  /** No match of the pattern can begin anywhere in `[a, b)`. */
  predicate NoStartIn(s: string, a: nat, b: nat) {
    forall p :: a <= p < b ==> !StartsNumber(s, p)
  }

  /** Spans of the successive non-overlapping matches `re.findall` reports when
      it scans from `i`: try a match at the current position; after a match go
      on from its end, otherwise from the next character. Each span is the
      longest match at its start, and no match could have begun in the gaps
      before, between or after the spans (`NoStartBeforeFirst`, `NoStartBetween`,
      `NoStartAfterLast`). */
  function Matches(s: string, i: nat): (r: seq<(nat, nat)>)
    requires i <= |s|
    ensures forall k :: 0 <= k < |r| ==> i <= r[k].0 < r[k].1 <= |s| && IsNumberToken(s[r[k].0..r[k].1])
    ensures forall k :: 0 <= k < |r| - 1 ==> r[k].1 <= r[k + 1].0
    ensures forall k :: 0 <= k < |r| ==> MatchAt(s, r[k].0) == Some(r[k].1)
    decreases |s| - i
  {
    if i == |s| then []
    else
      match MatchAt(s, i)
      case Some(e) => [(i, e)] + Matches(s, e)
      case None => Matches(s, i + 1)
  }

  /** No match could have begun before the first span (or anywhere, when
      the scan finds none). */
  lemma {:induction false} NoStartBeforeFirst(s: string, i: nat)
    requires i <= |s|
    ensures |Matches(s, i)| == 0 ==> NoStartIn(s, i, |s|)
    ensures |Matches(s, i)| > 0 ==> NoStartIn(s, i, Matches(s, i)[0].0)
    decreases |s| - i
  {
    if i < |s| && MatchAt(s, i).None? {
      NoStartBeforeFirst(s, i + 1);
      assert !StartsNumber(s, i);
    }
  }

  /** No match could have begun after the last span. */
  lemma {:induction false} NoStartAfterLast(s: string, i: nat)
    requires i <= |s|
    requires |Matches(s, i)| > 0
    ensures NoStartIn(s, Matches(s, i)[|Matches(s, i)| - 1].1, |s|)
    decreases |s| - i
  {
    match MatchAt(s, i)
    case Some(e) =>
      if |Matches(s, e)| == 0 {
        NoStartBeforeFirst(s, e);
      } else {
        NoStartAfterLast(s, e);
      }
    case None =>
      NoStartAfterLast(s, i + 1);
  }

  /** No match could have begun between two successive spans of `r`. */
  predicate GapsClear(s: string, r: seq<(nat, nat)>) {
    forall k :: 0 <= k < |r| - 1 ==> NoStartIn(s, r[k].1, r[k + 1].0)
  }

  /** Putting a span in front keeps the gaps clear when none could begin
      between it and the old first span. */
  lemma GapsClearCons(s: string, x: (nat, nat), rest: seq<(nat, nat)>)
    requires GapsClear(s, rest)
    requires |rest| > 0 ==> NoStartIn(s, x.1, rest[0].0)
    ensures GapsClear(s, [x] + rest)
  {
    var r := [x] + rest;
    forall k | 0 <= k < |r| - 1
      ensures NoStartIn(s, r[k].1, r[k + 1].0)
    {
      if k > 0 {
        assert r[k] == rest[k - 1] && r[k + 1] == rest[k];
      }
    }
  }

  /** No match could have begun between two successive spans. */
  lemma {:induction false} NoStartBetween(s: string, i: nat)
    requires i <= |s|
    ensures GapsClear(s, Matches(s, i))
    decreases |s| - i
  {
    if i < |s| {
      match MatchAt(s, i)
      case Some(e) =>
        NoStartBetween(s, e);
        NoStartBeforeFirst(s, e);
        GapsClearCons(s, (i, e), Matches(s, e));
      case None =>
        assert Matches(s, i) == Matches(s, i + 1);
        NoStartBetween(s, i + 1);
    }
  }

  /** `re.findall(r"-?\d+(?:\.\d+)?", s)`: the text of every span of the scan, in order. */
  function FindNumbers(s: string): (r: seq<string>)
    ensures |r| == |Matches(s, 0)|
    ensures forall k :: 0 <= k < |r| ==> r[k] == s[Matches(s, 0)[k].0..Matches(s, 0)[k].1]
    ensures forall k :: 0 <= k < |r| ==> IsNumberToken(r[k])
  {
    var m := Matches(s, 0);
    seq(|m|, k requires 0 <= k < |m| => s[m[k].0..m[k].1])
  }

  /** The scan finds a match exactly when a digit lies ahead. */
  lemma {:induction false} MatchesIffDigit(s: string, i: nat)
    requires i <= |s|
    ensures |Matches(s, i)| > 0 <==> HasDigitFrom(s, i)
    decreases |s| - i
  {
    if i < |s| {
      match MatchAt(s, i)
      case Some(e) =>
        assert IsDigit(s[i]) || IsDigit(s[i + 1]);
      case None =>
        MatchesIffDigit(s, i + 1);
        if HasDigitFrom(s, i) {
          assert !IsDigit(s[i]);
          var k :| i <= k < |s| && IsDigit(s[k]);
          assert k != i;
        }
    }
  }

  /** No digit follows the last match. */
  lemma NoDigitAfterLastMatch(s: string, i: nat)
    requires i <= |s|
    requires |Matches(s, i)| > 0
    ensures !HasDigitFrom(s, Matches(s, i)[|Matches(s, i)| - 1].1)
  {
    NoStartAfterLast(s, i);
    var e := Matches(s, i)[|Matches(s, i)| - 1].1;
    if HasDigitFrom(s, e) {
      var k :| e <= k < |s| && IsDigit(s[k]);
      assert StartsNumber(s, k);
    }
  }

  /** A match that begins with a digit is not preceded by a digit or a minus sign:
      the scan never starts a match in the middle of a longer one. */
  predicate LeftMaximal(s: string, a: nat) {
    a == 0 || a >= |s| || !(IsDigit(s[a]) && (IsDigit(s[a - 1]) || s[a - 1] == '-'))
  }

  lemma {:induction false} MatchesLeftMaximal(s: string, i: nat)
    requires i <= |s|
    requires LeftMaximal(s, i)
    ensures forall k :: 0 <= k < |Matches(s, i)| ==> LeftMaximal(s, Matches(s, i)[k].0)
    decreases |s| - i
  {
    if i < |s| {
      match MatchAt(s, i)
      case Some(e) =>
        MatchesLeftMaximal(s, e);
      case None =>
        MatchesLeftMaximal(s, i + 1);
    }
  }

  /** The span of the last match of the scan, when there is one. */
  function LastSpan(s: string): (r: Option<(nat, nat)>)
    ensures r.Some? <==> HasDigitFrom(s, 0)
    ensures r.Some? ==> |Matches(s, 0)| > 0 && r.value == Matches(s, 0)[|Matches(s, 0)| - 1]
    ensures r.Some? ==> var (a, e) := r.value;
                        && a < e <= |s|
                        && MatchAt(s, a) == Some(e)
                        && IsNumberToken(s[a..e])
                        && NoStartIn(s, e, |s|)
                        && !HasDigitFrom(s, e)
                        && LeftMaximal(s, a)
  {
    var m := Matches(s, 0);
    MatchesIffDigit(s, 0);
    if |m| == 0 then None
    else
      NoDigitAfterLastMatch(s, 0);
      MatchesLeftMaximal(s, 0);
      NoStartAfterLast(s, 0);
      Some(m[|m| - 1])
  }

  /** `last_number(text)`: the text of the last match of the scan, or the text
      itself when it holds no digit at all. */
  function LastNumber(text: string): (r: string)
    ensures !HasDigit(text) ==> r == text
    ensures HasDigit(text) ==> LastSpan(text).Some? && r == text[LastSpan(text).value.0..LastSpan(text).value.1]
    ensures HasDigit(text) ==> IsNumberToken(r)
  {
    var ns := FindNumbers(text);
    assert HasDigit(text) <==> HasDigitFrom(text, 0);
    MatchesIffDigit(text, 0);
    if |ns| > 0 then
      ns[|ns| - 1]
    else
      text
  }

  /** A fraction is part of the match: "1.5" gives "1.5", not "5". */
  lemma FractionIsPartOfTheMatch()
    ensures LastNumber("1.5") == "1.5"
  {
    var s := "1.5";
    assert DigitRunEnd(s, 2) == 3;
    assert DigitRunEnd(s, 0) == 1;
    assert MatchAt(s, 0) == Some(3);
    assert Matches(s, 0) == [(0, 3)];
  }

  /** The scan resumes after a match, so a second dot begins afresh: "1.2.3"
      gives "3", not "2.3". */
  lemma SecondDotStartsAfresh()
    ensures LastNumber("1.2.3") == "3"
  {
    var s := "1.2.3";
    assert DigitRunEnd(s, 2) == 3;
    assert DigitRunEnd(s, 0) == 1;
    assert MatchAt(s, 0) == Some(3);
    assert DigitRunEnd(s, 4) == 5;
    assert MatchAt(s, 3) == None;
    assert MatchAt(s, 4) == Some(5);
    assert Matches(s, 5) == [];
    assert Matches(s, 4) == [(4, 5)];
    assert Matches(s, 3) == [(4, 5)];
    assert Matches(s, 0) == [(0, 3), (4, 5)];
  }

  /** The sign belongs to the match and a dot with no digit after it does not:
      "=-4." gives "-4". */
  lemma SignedWithoutFraction()
    ensures LastNumber("=-4.") == "-4"
  {
    var s := "=-4.";
    assert MatchAt(s, 0) == None;
    assert DigitRunEnd(s, 2) == 3;
    assert MatchAt(s, 1) == Some(3);
    assert MatchAt(s, 3) == None;
    assert Matches(s, 4) == [];
    assert Matches(s, 3) == [];
    assert Matches(s, 1) == [(1, 3)];
    assert Matches(s, 0) == [(1, 3)];
  }

  // ---------------------------------------------------------------------------
  // tool_text
  // ---------------------------------------------------------------------------

  /** `tool_text(result)`: the `text` of the first item of a non-empty list whose
      first item is a dict with a `text` key; otherwise `str(result)`. */
  function ToolText(result: Json): (r: Json)
    ensures result.JArr? && |result.items| > 0 && HasKey(result.items[0], "text")
            ==> r == Field(result.items[0], "text")
    ensures !(result.JArr? && |result.items| > 0 && HasKey(result.items[0], "text"))
            ==> r == JStr(Str(result))
  {
    if result.JArr? && |result.items| > 0 && HasKey(result.items[0], "text") then
      Field(result.items[0], "text")
    else
      JStr(Str(result))
  }

  /** A plain string passes through `tool_text` unchanged, and the usual MCP
      content list yields the text of its first block. */
  lemma ToolTextOfContent(t: string, more: seq<(string, Json)>, rest: seq<Json>)
    ensures ToolText(JStr(t)) == JStr(t)
    ensures ToolText(JArr([JObj([("text", JStr(t))] + more)] + rest)) == JStr(t)
  {
    FindKeyFirst([("text", JStr(t))] + more, "text", 0, 0);
  }

  // ---------------------------------------------------------------------------
  // format_args
  // ---------------------------------------------------------------------------

  /** One value of `format_args`: a string of ASCII digits becomes its integer. */
  function ConvertValue(v: Json): Json {
    if v.JStr? && IsDigitString(v.s) then JInt(DigitsValue(v.s)) else v
  }

  /** The dict `format_args` builds: the same keys in the same order, each value converted. */
  function ConvertFields(fields: seq<(string, Json)>): (r: seq<(string, Json)>)
    ensures |r| == |fields|
    ensures forall i :: 0 <= i < |r| ==> r[i].0 == fields[i].0
    ensures forall i :: 0 <= i < |r| && fields[i].1.JStr? && IsDigitString(fields[i].1.s)
                        ==> r[i].1 == JInt(DigitsValue(fields[i].1.s))
    ensures forall i :: 0 <= i < |r| && !(fields[i].1.JStr? && IsDigitString(fields[i].1.s))
                        ==> r[i].1 == fields[i].1
  {
    seq(|fields|, i requires 0 <= i < |fields| => (fields[i].0, ConvertValue(fields[i].1)))
  }

  /** `format_args(args)`: `None` (or any falsy value) reads as `{}`; a dict is
      printed with its digit strings as integers; anything else has no `items`. */
  function FormatArgs(args: Json): (r: Result<string, PyError>)
    ensures !Truthy(args) ==> r == Success("{}")
    ensures Truthy(args) && args.JObj? ==> r == Success(Repr(JObj(ConvertFields(args.fields))))
    ensures Truthy(args) && !args.JObj? ==> r == Failure(NoAttribute(args, "items"))
  {
    if !Truthy(args) then
      ReprEmptyDict();
      Success(Repr(JObj([])))
    else if args.JObj? then Success(Repr(JObj(ConvertFields(args.fields))))
    else Failure(NoAttribute(args, "items"))
  }

  /** A converted digit string prints as the same digits (when it has no
      leading zero); a negative or empty string is left a string. */
  lemma ConvertedDigitsPrintTheSame(s: string)
    ensures IsCanonicalDecimal(s) ==> Repr(ConvertValue(JStr(s))) == s
    ensures |s| == 0 || s[0] == '-' ==> ConvertValue(JStr(s)) == JStr(s)
  {
    if IsCanonicalDecimal(s) {
      CanonicalRoundTrip(s);
    }
  }
}
