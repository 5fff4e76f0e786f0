/** `extractJSON` of services/geminiService.ts: recover a JSON value from model
    output that may wrap it in prose or a Markdown code fence. `JSON.parse` is
    a parameter: any total function from text to an optional value. */
module Extractor {
  import opened Types

  /** The message of the error thrown when every strategy fails. */
  const ExtractionFailure := "Could not extract valid JSON from model response"

  // ---------------------------------------------------------------------------
  // The fence pattern /```(?:json)?\s*([\s\S]*?)\s*```/, as explicit scanning.
  // ---------------------------------------------------------------------------

  /** JavaScript's `\s` class (ECMAScript WhiteSpace and LineTerminator). */
  predicate IsSpace(c: char) {
    c == ' ' || c == '\t' || c == '\n' || c == '\r' || c == '\U{000B}' || c == '\U{000C}'
    || c == '\U{00A0}' || c == '\U{1680}' || ('\U{2000}' <= c <= '\U{200A}')
    || c == '\U{2028}' || c == '\U{2029}' || c == '\U{202F}' || c == '\U{205F}'
    || c == '\U{3000}' || c == '\U{FEFF}'
  }

  /** Three backticks start at index i. */
  predicate FenceAt(s: string, i: nat) {
    i + 3 <= |s| && s[i] == '`' && s[i + 1] == '`' && s[i + 2] == '`'
  }

  predicate JsonTagAt(s: string, i: nat) {
    i + 4 <= |s| && s[i..i + 4] == "json"
  }

  /** Greedy `\s*` from i: the end of the run of spaces that starts there. */
  function SkipSpaces(s: string, i: nat): (j: nat)
    requires i <= |s|
    ensures i <= j <= |s|
    ensures forall k | i <= k < j :: IsSpace(s[k])
    ensures j < |s| ==> !IsSpace(s[j])
    decreases |s| - i
  {
    if i < |s| && IsSpace(s[i]) then SkipSpaces(s, i + 1) else i
  }

  /** The first fence at or after i. */
  function NextFence(s: string, i: nat): (r: Option<nat>)
    requires i <= |s|
    ensures r.Some? ==> i <= r.value && FenceAt(s, r.value)
    ensures r.Some? ==> forall k | i <= k < r.value :: !FenceAt(s, k)
    ensures r.None? ==> forall k | i <= k :: !FenceAt(s, k)
    decreases |s| - i
  {
    if i + 3 > |s| then None
    else if FenceAt(s, i) then Some(i)
    else NextFence(s, i + 1)
  }

  /** Where the lazy group ends: the start of the run of spaces (not reaching
      below lo) that ends at the closing fence f. */
  function TrimSpacesBefore(s: string, lo: nat, f: nat): (b: nat)
    requires lo <= f <= |s|
    ensures lo <= b <= f
    ensures forall k | b <= k < f :: IsSpace(s[k])
    ensures b > lo ==> !IsSpace(s[b - 1])
    decreases f
  {
    if f > lo && IsSpace(s[f - 1]) then TrimSpacesBefore(s, lo, f - 1) else f
  }

  /** A match of the fence pattern: the opening fence at `open`, the captured
      group s[start..end], the closing fence at `close`. */
  datatype FenceMatch = FenceMatch(open: nat, start: nat, end: nat, close: nat)

  /** What the pattern promises of a match: the group lies between the two
      fences, after the optional `json` tag and the leading spaces, begins and
      ends with a non-space, holds no fence, and only spaces follow it. */
  predicate IsFenceMatch(s: string, m: FenceMatch) {
    var afterTag := if JsonTagAt(s, m.open + 3) then m.open + 7 else m.open + 3;
    && afterTag <= m.start <= m.end <= m.close
    && FenceAt(s, m.open) && FenceAt(s, m.close)
    && (forall k | afterTag <= k < m.start :: IsSpace(s[k]))
    && !IsSpace(s[m.start])
    && (m.start < m.end ==> !IsSpace(s[m.end - 1]))
    && (forall k | m.start <= k < m.close :: !FenceAt(s, k))
    && (forall k | m.end <= k < m.close :: IsSpace(s[k]))
  }

  /** Where the group may start once the fence at i, its optional `json` tag
      and the spaces after them have been consumed. */
  function GroupStart(s: string, i: nat): (q: nat)
    requires FenceAt(s, i)
    ensures i + 3 <= q <= |s|
    ensures forall k | i + 3 <= k < q :: s[k] != '`'
    ensures var afterTag := if JsonTagAt(s, i + 3) then i + 7 else i + 3;
      && afterTag <= q
      && (forall k | afterTag <= k < q :: IsSpace(s[k]))
      && (q < |s| ==> !IsSpace(s[q]))
  {
    var afterTag := if JsonTagAt(s, i + 3) then i + 7 else i + 3;
    assert JsonTagAt(s, i + 3) ==> forall k | i + 3 <= k < i + 7 :: s[k] == s[i + 3..i + 7][k - (i + 3)];
    SkipSpaces(s, afterTag)
  }

  /** The pattern tried at position i, where a fence opens. The `json` tag is
      taken when present: the pattern's alternative without it succeeds exactly
      when the one with it does, and the regex engine tries the tag first. */
  function MatchAt(s: string, i: nat): (r: Option<FenceMatch>)
    requires FenceAt(s, i)
    ensures r.Some? ==> IsFenceMatch(s, r.value) && r.value.open == i
    ensures r.None? ==> forall f | i + 3 <= f :: !FenceAt(s, f)
  {
    var q := GroupStart(s, i);
    match NextFence(s, q)
    case None => None
    case Some(f) => Some(FenceMatch(i, q, TrimSpacesBefore(s, q, f), f))
  }

  /** The regex engine's leftmost search from position i. The match found, if
      any, opens at the first fence of the text; no match means no fence is
      followed by another. */
  function FindFence(s: string, i: nat): (r: Option<FenceMatch>)
    requires i <= |s|
    ensures r.Some? ==> IsFenceMatch(s, r.value) && i <= r.value.open
    ensures r.Some? ==> forall k | i <= k < r.value.open :: !FenceAt(s, k)
    ensures r.None? ==> forall a, b | i <= a && a + 3 <= b :: !(FenceAt(s, a) && FenceAt(s, b))
    decreases |s| - i
  {
    if i + 3 > |s| then None
    else if FenceAt(s, i) && MatchAt(s, i).Some? then MatchAt(s, i)
    else FindFence(s, i + 1)
  }

  /** `match[1]` of `text.match(/```(?:json)?\s*([\s\S]*?)\s*```/)`, when there is a match. */
  function FenceCapture(s: string): (r: Option<string>)
    ensures r.Some? <==> exists a: nat, b: nat | a + 3 <= b :: FenceAt(s, a) && FenceAt(s, b)
    ensures r.Some? ==> exists m :: IsFenceMatch(s, m) && r.value == s[m.start..m.end]
                                    && forall k | 0 <= k < m.open :: !FenceAt(s, k)
  {
    match FindFence(s, 0)
    case Some(m) => Some(s[m.start..m.end])
    case None => None
  }

  // ---------------------------------------------------------------------------
  // The boundary fallback.
  // ---------------------------------------------------------------------------

  predicate IsOpener(c: char) { c == '[' || c == '{' }

  /** `text.search(/[\[\{]/)`, scanning from i. */
  function FirstOpener(s: string, i: nat): (r: Option<nat>)
    requires i <= |s|
    ensures r.Some? ==> i <= r.value < |s| && IsOpener(s[r.value])
    ensures r.Some? ==> forall k | i <= k < r.value :: !IsOpener(s[k])
    ensures r.None? ==> forall k | i <= k < |s| :: !IsOpener(s[k])
    decreases |s| - i
  {
    if i == |s| then None
    else if IsOpener(s[i]) then Some(i)
    else FirstOpener(s, i + 1)
  }

  /** `text.lastIndexOf(c)`, looking only below n. */
  function LastIndexOf(s: string, c: char, n: nat): (r: Option<nat>)
    requires n <= |s|
    ensures r.Some? ==> r.value < n && s[r.value] == c
    ensures r.Some? ==> forall k | r.value < k < n :: s[k] != c
    ensures r.None? ==> forall k | 0 <= k < n :: s[k] != c
    decreases n
  {
    if n == 0 then None
    else if s[n - 1] == c then Some(n - 1)
    else LastIndexOf(s, c, n - 1)
  }

  /** `text.charAt(startIdx) === '[' ? ']' : '}'`; `charAt(-1)` is the empty string. */
  function CloserFor(s: string, start: Option<nat>): char
    requires start.Some? ==> start.value < |s|
  {
    if start.Some? && s[start.value] == '[' then ']' else '}'
  }

  /** The inclusive span from the first opener to the last closer of its kind. */
  datatype Span = Span(start: nat, end: nat)

  function BoundarySpan(s: string): (r: Option<Span>)
    ensures r.Some? ==> 0 <= r.value.start < r.value.end < |s|
    ensures r.Some? ==> IsOpener(s[r.value.start]) && s[r.value.end] == (if s[r.value.start] == '[' then ']' else '}')
    ensures r.Some? ==> forall k | 0 <= k < r.value.start :: !IsOpener(s[k])
    ensures r.Some? ==> forall k | r.value.end < k < |s| :: s[k] != s[r.value.end]
    ensures r.None? ==> forall a, b | 0 <= a < b < |s| ::
              !(IsOpener(s[a]) && s[b] == (if s[a] == '[' then ']' else '}') && forall k | 0 <= k < a :: !IsOpener(s[k]))
  {
    var startIdx := FirstOpener(s, 0);
    var endIdx := LastIndexOf(s, CloserFor(s, startIdx), |s|);
    if startIdx.Some? && endIdx.Some? && endIdx.value > startIdx.value
    then Some(Span(startIdx.value, endIdx.value))
    else None
  }

  // ---------------------------------------------------------------------------
  // The three strategies, in order.
  // ---------------------------------------------------------------------------

  /** The fenced block, when it was found and its group is non-empty (`match && match[1]`). */
  function FenceCandidate(s: string): (r: Option<string>)
    ensures r.Some? ==> r == FenceCapture(s) && r.value != []
    ensures r.None? ==> FenceCapture(s).None? || FenceCapture(s).value == []
  {
    var capture := FenceCapture(s);
    if capture.Some? && capture.value != [] then capture else None
  }

  /** `text.substring(startIdx, endIdx + 1)`, when the bounds qualify. */
  function BoundaryCandidate(s: string): (r: Option<string>)
    ensures r.Some? <==> BoundarySpan(s).Some?
    ensures r.Some? ==> r.value == s[BoundarySpan(s).value.start..BoundarySpan(s).value.end + 1]
    ensures r.Some? ==> |r.value| >= 2 && IsOpener(r.value[0])
    ensures r.Some? ==> r.value[|r.value| - 1] == (if r.value[0] == '[' then ']' else '}')
  {
    match BoundarySpan(s)
    case Some(sp) => Some(s[sp.start..sp.end + 1])
    case None => None
  }

  /** `extractJSON(text)`: parse the whole text; failing that, the fenced block;
      failing that, the boundary span; failing all three, throw. */
  function ExtractJSON<J>(text: string, parse: string -> Option<J>): (r: Result<J>)
    ensures parse(text).Some? ==> r == Ok(parse(text).value)
    ensures r.Err? ==> r.message == ExtractionFailure && parse(text).None?
  {
    match parse(text)
    case Some(v) => Ok(v)
    case None =>
      var fenced := if FenceCandidate(text).Some? then parse(FenceCandidate(text).value) else None;
      if fenced.Some? then Ok(fenced.value)
      else
        var bounded := if BoundaryCandidate(text).Some? then parse(BoundaryCandidate(text).value) else None;
        if bounded.Some? then Ok(bounded.value) else Err(ExtractionFailure)
  }

  // ---------------------------------------------------------------------------
  // Reference definition: the first candidate that parses wins.
  // ---------------------------------------------------------------------------

  function OptionToSeq<T>(o: Option<T>): seq<T> {
    if o.Some? then [o.value] else []
  }

  /** The texts the strategies offer to the parser, in the order they are tried. */
  function Candidates(text: string): (cs: seq<string>)
    ensures 1 <= |cs| <= 3 && cs[0] == text
  {
    [text] + OptionToSeq(FenceCandidate(text)) + OptionToSeq(BoundaryCandidate(text))
  }

  /** The value of the first candidate that parses; an error when none does. */
  function FirstParsed<J>(cs: seq<string>, parse: string -> Option<J>): (r: Result<J>)
    ensures r.Ok? ==> exists k | 0 <= k < |cs| :: parse(cs[k]) == Some(r.value) && forall j | 0 <= j < k :: parse(cs[j]).None?
    ensures r.Err? ==> r.message == ExtractionFailure && forall k | 0 <= k < |cs| :: parse(cs[k]).None?
    decreases |cs|
  {
    if cs == [] then Err(ExtractionFailure)
    else if parse(cs[0]).Some? then Ok(parse(cs[0]).value)
    else FirstParsed(cs[1..], parse)
  }

  lemma FirstParsedCons<J>(c: string, rest: seq<string>, parse: string -> Option<J>)
    ensures FirstParsed([c] + rest, parse) == if parse(c).Some? then Ok(parse(c).value) else FirstParsed(rest, parse)
  {
    assert ([c] + rest)[1..] == rest;
  }

  /** `extractJSON` returns the value of the first strategy whose text parses,
      in the order whole text, fenced block, boundary span, and throws exactly
      when none parses. */
  lemma ExtractJSONTakesFirstSuccess<J>(text: string, parse: string -> Option<J>)
    ensures ExtractJSON(text, parse) == FirstParsed(Candidates(text), parse)
  {
    var fenced := OptionToSeq(FenceCandidate(text));
    var bounded := OptionToSeq(BoundaryCandidate(text));
    assert Candidates(text) == [text] + (fenced + bounded);
    FirstParsedCons(text, fenced + bounded, parse);
    if fenced != [] {
      assert fenced + bounded == [fenced[0]] + bounded;
      FirstParsedCons(fenced[0], bounded, parse);
    }
    if bounded != [] {
      assert bounded == [bounded[0]] + [];
      FirstParsedCons(bounded[0], [], parse);
    }
  }

  /** A contiguous piece of s. */
  ghost predicate IsSliceOf(c: string, s: string) {
    exists i, j | 0 <= i <= j <= |s| :: c == s[i..j]
  }

  lemma FenceCandidateIsSlice(text: string)
    ensures FenceCandidate(text).Some? ==> IsSliceOf(FenceCandidate(text).value, text)
  {
    if FenceCandidate(text).Some? {
      var m :| IsFenceMatch(text, m) && FenceCandidate(text).value == text[m.start..m.end];
    }
  }

  lemma BoundaryCandidateIsSlice(text: string)
    ensures BoundaryCandidate(text).Some? ==> IsSliceOf(BoundaryCandidate(text).value, text)
  {
    if BoundaryCandidate(text).Some? {
      var sp := BoundarySpan(text).value;
      assert BoundaryCandidate(text).value == text[sp.start..sp.end + 1];
    }
  }

  /** Every text offered to the parser is a piece of the reply. */
  lemma CandidatesAreSlices(text: string)
    ensures forall c | c in Candidates(text) :: IsSliceOf(c, text)
  {
    assert text[0..|text|] == text;
    FenceCandidateIsSlice(text);
    BoundaryCandidateIsSlice(text);
    var fenced := OptionToSeq(FenceCandidate(text));
    var bounded := OptionToSeq(BoundaryCandidate(text));
    forall c | c in Candidates(text) ensures IsSliceOf(c, text) {
      assert c == text || c in fenced || c in bounded;
    }
  }

  /** What `extractJSON` returns is what the parser made of the whole reply
      or of a piece of it; when it throws, the whole reply did not parse. */
  lemma ExtractedFromSlice<J>(text: string, parse: string -> Option<J>)
    ensures ExtractJSON(text, parse).Ok? ==>
              exists c | IsSliceOf(c, text) :: parse(c) == Some(ExtractJSON(text, parse).value)
    ensures parse(text).Some? ==> ExtractJSON(text, parse) == Ok(parse(text).value)
    ensures ExtractJSON(text, parse).Err? ==> parse(text).None?
  {
    ExtractJSONTakesFirstSuccess(text, parse);
    CandidatesAreSlices(text);
    var cs := Candidates(text);
    var r := ExtractJSON(text, parse);
    if r.Ok? {
      var k :| 0 <= k < |cs| && parse(cs[k]) == Some(r.value);
      assert cs[k] in cs;
    }
  }

  /** A block fenced as "```json", one space, a body that starts and ends
      with a non-space and holds no backtick, one space, "```" yields the body. */
  lemma TaggedFenceYieldsBody(body: string, before: char, after: char)
    requires body != [] && !IsSpace(body[0]) && !IsSpace(body[|body| - 1]) && '`' !in body
    requires IsSpace(before) && IsSpace(after)
    ensures FenceCandidate("```json" + [before] + body + [after] + "```") == Some(body)
  {
    var s := "```json" + [before] + body + [after] + "```";
    var n := |body|;
    assert |s| == n + 12;
    assert s[8..n + 8] == body;
    assert forall k | 8 <= k < n + 8 :: s[k] == body[k - 8];
    assert FenceAt(s, 0) && FenceAt(s, n + 9);
    assert s[3..7] == "json";
    var m := FindFence(s, 0).value;
    assert m.open == 0;
    assert s[7] == before && s[8] == body[0];
    assert m.start == 8;
    assert m.close == n + 9;
    assert s[n + 8] == after && s[n + 7] == body[n - 1];
    assert m.end == n + 8;
  }

  /** A fenced JSON reply yields the array inside the fence. */
  lemma FencedExample()
    ensures FenceCandidate("```json\n" + "[{\"title\":\"a\",\"url\":\"b\"}]" + "\n```") == Some("[{\"title\":\"a\",\"url\":\"b\"}]")
  {
    var body := "[{\"title\":\"a\",\"url\":\"b\"}]";
    assert "```json\n" + body + "\n```" == "```json" + ['\n'] + body + ['\n'] + "```";
    TaggedFenceYieldsBody(body, '\n', '\n');
  }

  /** Prose around an object yields the object through the boundary span. */
  lemma BoundaryExample()
    ensures FenceCandidate("noise {\"x\":1} trailing") == None
    ensures BoundaryCandidate("noise {\"x\":1} trailing") == Some("{\"x\":1}")
  {
    var s := "noise {\"x\":1} trailing";
    assert |s| == 22;
    assert forall k | 0 <= k < 22 :: s[k] != '`';
    assert forall k | 0 <= k < 6 :: !IsOpener(s[k]);
    assert IsOpener(s[6]) && s[6] == '{' && s[12] == '}';
    assert forall k | 12 < k < 22 :: s[k] != '}';
    assert s[6..13] == "{\"x\":1}";
  }

  /** Text with neither a fence nor a bracket offers only itself to the parser. */
  lemma PlainTextExample()
    ensures Candidates("not json at all") == ["not json at all"]
  {
    var s := "not json at all";
    assert |s| == 15;
    assert forall k | 0 <= k < 15 :: s[k] != '`' && !IsOpener(s[k]);
  }
}
