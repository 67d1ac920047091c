/** The two summarizer tool servers. Both ask a local Ollama model for a
    one-sentence summary, pick the content out of whichever reply shape came
    back (`results[0].message.content`, else `message.content`), and normalise
    it with `extract_text`; the latency server adds the round-trip time. The
    Ollama call is left out: its decoded reply and the measured milliseconds are
    parameters. */
module Summarizer {
  import opened Wrappers
  import opened Strings
  import opened PyValue

  /** The `ping` health-check tool of the latency server. */
  function Ping(): (r: string)
    ensures r == "pong"
  {
    "pong"
  }

  // ---------------------------------------------------------------------------
  // extract_text
  // ---------------------------------------------------------------------------

  /** The value collected for one list item: a dict's `text`, else `str(item)`
      (decoded JSON values have no `text` attribute). */
  function ItemText(item: Json): Json {
    if HasKey(item, "text") then Field(item, "text") else JStr(Str(item))
  }

  /** `t.strip()`: only strings can be stripped. */
  function StripText(t: Json): Result<string, PyError> {
    if t.JStr? then Success(Strip(t.s)) else Failure(NoAttribute(t, "strip"))
  }

  /** Strip each collected value in order; the first that is not a string raises. */
  function StripAll(ts: seq<Json>): (r: Result<seq<string>, PyError>)
    ensures r.Success? <==> forall i :: 0 <= i < |ts| ==> ts[i].JStr?
    ensures r.Success? ==> |r.value| == |ts| && forall i :: 0 <= i < |ts| ==> r.value[i] == Strip(ts[i].s)
    ensures r.Failure? ==> exists i :: && 0 <= i < |ts| && !ts[i].JStr?
                                      && r.error == NoAttribute(ts[i], "strip")
                                      && forall j :: 0 <= j < i ==> ts[j].JStr?
  {
    if |ts| == 0 then Success([])
    else
      var head :- StripText(ts[0]);
      var tail := StripAll(ts[1..]);
      if tail.Failure? then
        assert forall j :: 1 <= j < |ts| ==> ts[j] == ts[1..][j - 1];
        Failure(tail.error)
      else
        Success([head] + tail.value)
  }

  /** `extract_text(content)`: a string stripped; a dict's `text` stripped; the
      stripped texts of a non-empty list's items joined by newlines; anything
      else as `str(content)`. */
  function ExtractText(content: Json): (r: Result<string, PyError>)
    ensures content.JStr? ==> r == Success(Strip(content.s))
    ensures HasKey(content, "text") ==> r == StripText(Field(content, "text"))
    ensures content.JArr? && |content.items| > 0
            ==> r == (match StripAll(seq(|content.items|, i requires 0 <= i < |content.items| => ItemText(content.items[i])))
                      case Success(lines) => Success(Join(lines, "\n"))
                      case Failure(e) => Failure(e))
    ensures (content.JArr? && |content.items| == 0) || content.JNull? || content.JBool? || content.JInt?
            || (content.JObj? && !HasKey(content, "text"))
            ==> r == Success(Str(content))
  {
    if content.JStr? then Success(Strip(content.s))
    else if HasKey(content, "text") then StripText(Field(content, "text"))
    else if content.JArr? && |content.items| > 0 then
      var texts := seq(|content.items|, i requires 0 <= i < |content.items| => ItemText(content.items[i]));
      var lines :- StripAll(texts);
      Success(Join(lines, "\n"))
    else Success(Str(content))
  }

  /** A list of text blocks whose texts hold no line break normalises to one
      line per block, each stripped, in order. */
  lemma ExtractTextLines(blocks: seq<Json>)
    requires |blocks| > 0
    requires forall i :: 0 <= i < |blocks| ==> HasKey(blocks[i], "text") && Field(blocks[i], "text").JStr?
    requires forall i :: 0 <= i < |blocks| ==> '\n' !in Field(blocks[i], "text").s
    ensures ExtractText(JArr(blocks)).Success?
    ensures var lines := Split(ExtractText(JArr(blocks)).value, '\n');
            |lines| == |blocks| && forall i :: 0 <= i < |blocks| ==> lines[i] == Strip(Field(blocks[i], "text").s)
  {
    var texts := seq(|blocks|, i requires 0 <= i < |blocks| => ItemText(blocks[i]));
    var stripped := StripAll(texts).value;
    forall i | 0 <= i < |stripped|
      ensures '\n' !in stripped[i]
    {
      StripHasNoNewChars(Field(blocks[i], "text").s);
    }
    SplitJoin(stripped, '\n');
  }

  /** Every character of a stripped string comes from the original. */
  lemma StripHasNoNewChars(s: string)
    ensures forall c :: c in Strip(s) ==> c in s
  {
    var r := Strip(s);
    var a, b :| 0 <= a <= b <= |s| && r == s[a..b];
    forall c | c in r
      ensures c in s
    {
      var k :| 0 <= k < |r| && r[k] == c;
      assert s[a + k] == c;
    }
  }

  /** `repr` of anything but a string begins and ends with a printing character. */
  lemma ReprHasNoOuterSpace(v: Json)
    requires !v.JStr?
    ensures var t := Repr(v); |t| > 0 && !IsSpace(t[0]) && !IsSpace(t[|t| - 1])
  {
    match v
    case JInt(i) =>
      var digits := if i < 0 then NatToString(-i) else NatToString(i);
      assert IsDigit(digits[|digits| - 1]);
    case _ =>
  }

  /** Normalising is idempotent outside the list case: feeding a normalised
      text back in gives the same text. (A list can join an empty first text to
      the next, leaving a line break at the front.) */
  lemma ExtractTextIdempotent(content: Json)
    requires !content.JArr?
    requires ExtractText(content).Success?
    ensures ExtractText(JStr(ExtractText(content).value)) == ExtractText(content)
  {
    if content.JStr? {
      StripIdempotent(content.s);
    } else if HasKey(content, "text") {
      StripIdempotent(Field(content, "text").s);
    } else {
      ReprHasNoOuterSpace(content);
      StripKeeps(Str(content));
    }
  }

  // ---------------------------------------------------------------------------
  // Choosing the reply shape
  // ---------------------------------------------------------------------------

  /** Where `summarize` found the content it normalises. */
  datatype Source = FromResults(content: Json) | FromMessage(content: Json) | Unexpected

  /** The second test of `summarize`: a dict under `message`. */
  function SelectMessage(data: Json): Result<Source, PyError> {
    var hasMessage :- Contains(data, "message");
    if hasMessage then
      var message :- Subscript(data, "message");
      if message.JObj? then
        var content :- Get(message, "content", JStr(""));
        Success(FromMessage(content))
      else
        Success(Unexpected)
    else
      Success(Unexpected)
  }

  /** A truthy `results` that `summarize` can read: a list whose first item is
      a dict whose `message` (default `{}`) is a dict as well. */
  predicate ReadableResults(results: Json) {
    && results.JArr? && |results.items| > 0
    && results.items[0].JObj?
    && FieldOr(results.items[0], "message", JObj([])).JObj?
  }

  /** The `message.content` of the first item of a readable `results`. */
  function ResultsContent(results: Json): Json
    requires ReadableResults(results)
  {
    FieldOr(FieldOr(results.items[0], "message", JObj([])), "content", JStr(""))
  }

  /** The branch `summarize` takes on the decoded reply `data`: a truthy
      `results` wins, then a dict `message`, else the fallback. */
  function SelectContent(data: Json): (r: Result<Source, PyError>)
    ensures data.JObj? && HasKey(data, "results") && Truthy(Field(data, "results"))
            ==> (r.Success? <==> ReadableResults(Field(data, "results")))
    ensures data.JObj? && HasKey(data, "results") && Truthy(Field(data, "results")) && r.Success?
            ==> r == Success(FromResults(ResultsContent(Field(data, "results"))))
    ensures data.JObj? && HasKey(data, "results") ==>
              var results := Field(data, "results");
              && (results.JObj? && Truthy(results) ==> r == Failure(KeyError(JInt(0))))
              && ((results.JBool? || results.JInt?) && Truthy(results)
                  ==> r == Failure(TypeError(Quote(TypeName(results)) + " object is not subscriptable")))
              && (results.JStr? && |results.s| > 0 ==> r == Failure(NoAttribute(JStr([results.s[0]]), "get")))
              && (results.JArr? && |results.items| > 0 && !results.items[0].JObj?
                  ==> r == Failure(NoAttribute(results.items[0], "get")))
              && (results.JArr? && |results.items| > 0 && results.items[0].JObj?
                  && !FieldOr(results.items[0], "message", JObj([])).JObj?
                  ==> r == Failure(NoAttribute(FieldOr(results.items[0], "message", JObj([])), "get")))
    ensures data.JObj? && !(HasKey(data, "results") && Truthy(Field(data, "results")))
            ==> r == Success(if HasKey(data, "message") && Field(data, "message").JObj?
                             then FromMessage(FieldOr(Field(data, "message"), "content", JStr("")))
                             else Unexpected)
    ensures !data.JObj? ==> r.Failure? || r == Success(Unexpected)
    ensures data.JNull? || data.JBool? || data.JInt?
            ==> r == Failure(TypeError("argument of type " + Quote(TypeName(data)) + " is not iterable"))
    ensures data.JArr?
            ==> r == if JStr("results") in data.items || JStr("message") in data.items
                     then Failure(TypeError("list indices must be integers or slices, not str"))
                     else Success(Unexpected)
    ensures data.JStr?
            ==> r == if IsInfix("results", data.s) || IsInfix("message", data.s)
                     then Failure(TypeError("string indices must be integers, not 'str'"))
                     else Success(Unexpected)
  {
    var hasResults :- Contains(data, "results");
    if hasResults then
      var results :- Subscript(data, "results");
      if Truthy(results) then
        var first :- First(results);
        var message :- Get(first, "message", JObj([]));
        var content :- Get(message, "content", JStr(""));
        Success(FromResults(content))
      else
        SelectMessage(data)
    else
      SelectMessage(data)
  }

  /** A non-empty `results` list takes priority over `message`: the summary is
      the normalised `message.content` of its first item, defaulting to the
      empty string. */
  lemma ResultsTakePriority(data: Json)
    requires HasKey(data, "results") && ReadableResults(Field(data, "results"))
    ensures SelectContent(data) == Success(FromResults(ResultsContent(Field(data, "results"))))
    ensures LlamaSummary(data) == ExtractText(ResultsContent(Field(data, "results")))
  {
  }

  /** Without a truthy `results`, a dict `message` supplies the content. */
  lemma MessageWhenNoResults(data: Json)
    requires data.JObj?
    requires !(HasKey(data, "results") && Truthy(Field(data, "results")))
    requires HasKey(data, "message") && Field(data, "message").JObj?
    ensures SelectContent(data) == Success(FromMessage(FieldOr(Field(data, "message"), "content", JStr(""))))
    ensures LlamaSummary(data) == ExtractText(FieldOr(Field(data, "message"), "content", JStr("")))
  {
  }

  /** A dict with neither a truthy `results` nor a dict `message` is answered
      with the fallback text. */
  lemma FallbackOtherwise(data: Json)
    requires data.JObj?
    requires !(HasKey(data, "results") && Truthy(Field(data, "results")))
    requires !(HasKey(data, "message") && Field(data, "message").JObj?)
    ensures SelectContent(data) == Success(Unexpected)
    ensures LlamaSummary(data) == Success(UnexpectedPrefix + Str(data))
  {
  }

  /** Once `results` is truthy nothing else in the reply matters: two replies
      with the same truthy `results` get the same summary (or the same error),
      whatever their `message`. */
  lemma ResultsDecide(d1: Json, d2: Json)
    requires HasKey(d1, "results") && HasKey(d2, "results")
    requires Field(d1, "results") == Field(d2, "results") && Truthy(Field(d1, "results"))
    ensures LlamaSummary(d1) == LlamaSummary(d2)
  {
  }

  // ---------------------------------------------------------------------------
  // The two summarize tools
  // ---------------------------------------------------------------------------

  const UnexpectedPrefix := "(unexpected format) "

  /** `summarize` of the plain summarizer server. */
  function LlamaSummary(data: Json): (r: Result<string, PyError>)
    ensures SelectContent(data).Failure? ==> r == Failure(SelectContent(data).error)
    ensures SelectContent(data) == Success(Unexpected) ==> r == Success(UnexpectedPrefix + Str(data))
    ensures SelectContent(data).Success? && !SelectContent(data).value.Unexpected?
            ==> r == ExtractText(SelectContent(data).value.content)
  {
    var source :- SelectContent(data);
    match source
    case FromResults(content) => ExtractText(content)
    case FromMessage(content) => ExtractText(content)
    case Unexpected => Success(UnexpectedPrefix + Str(data))
  }

  /** The suffix the latency server appends to a summary. */
  function TookSuffix(ms: nat): string {
    "\n\n( took " + NatToString(ms) + "ms)"
  }

  /** The suffix the latency server appends to the fallback text: two spaces
      first, and no space after the parenthesis. */
  function FallbackSuffix(ms: nat): string {
    "  (took " + NatToString(ms) + "ms)"
  }

  /** `summarize` of the latency server, given the measured milliseconds. */
  function LatencySummary(data: Json, ms: nat): (r: Result<string, PyError>)
    ensures SelectContent(data).Failure? ==> r == Failure(SelectContent(data).error)
    ensures SelectContent(data) == Success(Unexpected)
            ==> r == Success(UnexpectedPrefix + Str(data) + FallbackSuffix(ms))
    ensures SelectContent(data).Success? && !SelectContent(data).value.Unexpected?
            ==> r == (match ExtractText(SelectContent(data).value.content)
                      case Success(summary) => Success(summary + TookSuffix(ms))
                      case Failure(e) => Failure(e))
  {
    var source :- SelectContent(data);
    match source
    case FromResults(content) =>
      var summary :- ExtractText(content);
      Success(summary + TookSuffix(ms))
    case FromMessage(content) =>
      var summary :- ExtractText(content);
      Success(summary + TookSuffix(ms))
    case Unexpected => Success(UnexpectedPrefix + Str(data) + FallbackSuffix(ms))
  }

  /** The latency server answers what the plain server answers, followed by the
      timing suffix; both fail on the same replies with the same error. */
  lemma LatencyExtendsLlama(data: Json, ms: nat)
    ensures LatencySummary(data, ms).Success? <==> LlamaSummary(data).Success?
    ensures LatencySummary(data, ms).Failure? ==> LatencySummary(data, ms).error == LlamaSummary(data).error
    ensures LatencySummary(data, ms).Success? ==>
              LatencySummary(data, ms).value
              == LlamaSummary(data).value + (if SelectContent(data).value.Unexpected? then FallbackSuffix(ms) else TookSuffix(ms))
  {
  }
}
