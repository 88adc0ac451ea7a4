/**
  Turning a stage's raw output into something the results view can display
  (`parseAgentOutput` and the reviews unwrapping in ResultsStep.jsx).

  `JSON.parse` is a parameter: `parse(s)` is `Some(v)` when parsing `s`
  succeeds with `v` and `None` when it throws. Every property below holds for
  any such parser.
 */
module Extraction {
  import opened Wrappers
  import opened Strings
  import opened Json

  /** What `parseAgentOutput` returns: `null`, a parsed value, or the raw text. */
  datatype Extracted = NoOutput | Parsed(value: Json) | Text(text: string)

  const TaggedFence := "```json"
  const Fence := "```"

  lemma FenceIsRun()
    ensures Fence == Run('`', 3)
  {
  }

  /**
    Drops every "```json" (any letter case), then every "```", then trims.
    The result has no fence left and no surrounding whitespace.
   */
  function CleanFences(raw: string): (r: string)
    ensures IsTrimmed(JsSpace, r)
    ensures !Contains(r, Fence)
  {
    var untagged := RemoveAll(raw, TaggedFence, true);
    var unfenced := RemoveAll(untagged, Fence, false);
    FenceIsRun();
    RemoveRunComplete(untagged, '`', 3);
    TrimKeepsAbsence(JsSpace, unfenced, Fence);
    Trim(JsSpace, unfenced)
  }

  /**
    The text from the first `open` to the last `close`, inclusive, when both
    exist and the close comes after the open.
   */
  function Enclosed(text: string, open: char, close: char): (r: Option<string>)
    ensures r.Some? ==> |r.value| >= 2 && r.value[0] == open && r.value[|r.value| - 1] == close
    ensures r.Some? <==> IndexOf(text, open) != -1 && LastIndexOf(text, close) > IndexOf(text, open)
  {
    var first := IndexOf(text, open);
    var last := LastIndexOf(text, close);
    if first != -1 && last > first then Some(text[first..last + 1]) else None
  }

  /** Parses `candidate` when there is one, otherwise falls back to the raw text. */
  function ParseOr(parse: string -> Option<Json>, candidate: string, raw: string): Extracted {
    match parse(candidate)
    case Some(v) => Parsed(v)
    case None => Text(raw)
  }

  /**
    `parseAgentOutput`: null for a missing or empty input; otherwise the
    parse of the fence-stripped text, else the parse of the bracketed slice of
    the raw text, else (only when there is no bracketed slice) the parse of the
    braced slice, else the raw text itself.
   */
  function ParseAgentOutput(parse: string -> Option<Json>, raw: Option<string>): (r: Extracted)
    ensures r.NoOutput? <==> raw.None? || raw.value == ""
    ensures r.Text? ==> raw.Some? && r.text == raw.value
    ensures raw.Some? && raw.value != "" && parse(CleanFences(raw.value)).Some? ==>
              r == Parsed(parse(CleanFences(raw.value)).value)
    ensures r.Parsed? ==>
              raw.Some?
              && var brackets := Enclosed(raw.value, '[', ']');
                 var braces := Enclosed(raw.value, '{', '}');
                 || parse(CleanFences(raw.value)) == Some(r.value)
                 || (brackets.Some? && parse(brackets.value) == Some(r.value))
                 || (brackets.None? && braces.Some? && parse(braces.value) == Some(r.value))
    ensures r.Text? ==>
              var brackets := Enclosed(raw.value, '[', ']');
              var braces := Enclosed(raw.value, '{', '}');
              && parse(CleanFences(raw.value)).None?
              && (brackets.Some? ==> parse(brackets.value).None?)
              && (brackets.None? && braces.Some? ==> parse(braces.value).None?)
  {
    if raw.None? || raw.value == "" then NoOutput
    else
      var text := raw.value;
      match parse(CleanFences(text))
      case Some(v) => Parsed(v)
      case None =>
        match Enclosed(text, '[', ']')
        case Some(slice) => ParseOr(parse, slice, text)
        case None =>
          match Enclosed(text, '{', '}')
          case Some(slice) => ParseOr(parse, slice, text)
          case None => Text(text)
  }

  /** A string whose `k`-th character differs from the tagged fence's does not start with it. */
  lemma NotTaggedAt(s: string, k: nat)
    requires k < |TaggedFence| && k < |s| && LowerChar(s[k]) != TaggedFence[k]
    ensures !MatchesAt(s, TaggedFence, true)
  {
    if |TaggedFence| <= |s| {
      assert ToLower(s[..|TaggedFence|])[k] != ToLower(TaggedFence)[k];
    }
  }

  lemma NoBacktickLower(t: string)
    requires '`' !in t
    ensures forall i :: 0 <= i < |t| ==> LowerChar(t[i]) != '`'
  {
  }

  /** A backtick-free body followed by a closing fence loses exactly the fence. */
  lemma ClosingFence(body: string)
    requires '`' !in body
    ensures RemoveAll(body + Fence, TaggedFence, true) == body + Fence
    ensures RemoveAll(body + Fence, Fence, false) == body
  {
    NoBacktickLower(body);
    RemoveAllShort(Fence, TaggedFence, true);
    RemoveAllSkipsPlainPrefix(body, Fence, TaggedFence, true);
    RemoveAllSkipsPlainPrefix(body, Fence, Fence, false);
    assert MatchesAt(Fence, Fence, false);
    assert RemoveAll(Fence, Fence, false) == "";
    assert body + "" == body;
  }

  lemma CleanTaggedFence(t: string)
    requires '`' !in t && IsTrimmed(JsSpace, t)
    ensures CleanFences(TaggedFence + "\n" + t + "\n" + Fence) == t
  {
    var body := "\n" + t + "\n";
    var raw := TaggedFence + "\n" + t + "\n" + Fence;
    assert raw == TaggedFence + (body + Fence);
    assert MatchesAt(raw, TaggedFence, true) by {
      assert raw[..|TaggedFence|] == TaggedFence;
    }
    assert raw[|TaggedFence|..] == body + Fence;
    ClosingFence(body);
    assert AllSpace(JsSpace, "\n");
    TrimAround(JsSpace, "\n", t, "\n");
  }

  /** A character that does not start a tagged fence is kept in front of what follows. */
  lemma UnmatchedHeadKept(c: char, rest: string)
    requires !MatchesAt([c] + rest, TaggedFence, true)
    requires RemoveAll(rest, TaggedFence, true) == rest
    ensures RemoveAll([c] + rest, TaggedFence, true) == [c] + rest
  {
    assert ([c] + rest)[1..] == rest;
  }

  /** The opening bare fence of a fenced block is not mistaken for a tagged one. */
  lemma BareFenceUntouched(tail: string)
    requires |tail| > 0 && tail[0] == '\n'
    requires RemoveAll(tail, TaggedFence, true) == tail
    ensures RemoveAll(Fence + tail, TaggedFence, true) == Fence + tail
  {
    var s2 := ['`'] + tail;
    var s1 := ['`'] + s2;
    var s0 := ['`'] + s1;
    assert s2[1] == '\n' && s1[2] == '\n' && s0[3] == '\n';
    assert TaggedFence[1] == '`' && TaggedFence[2] == '`' && TaggedFence[3] == 'j';
    NotTaggedAt(s2, 1);
    UnmatchedHeadKept('`', tail);
    NotTaggedAt(s1, 2);
    UnmatchedHeadKept('`', s2);
    NotTaggedAt(s0, 3);
    UnmatchedHeadKept('`', s1);
    assert s0 == Fence + tail;
  }

  lemma CleanBareFence(t: string)
    requires '`' !in t && IsTrimmed(JsSpace, t)
    ensures CleanFences(Fence + "\n" + t + "\n" + Fence) == t
  {
    var body := "\n" + t + "\n";
    var tail := body + Fence;
    var raw := Fence + "\n" + t + "\n" + Fence;
    assert raw == Fence + tail;
    ClosingFence(body);
    BareFenceUntouched(tail);
    assert MatchesAt(raw, Fence, false) by {
      assert raw[..|Fence|] == Fence;
    }
    assert raw[|Fence|..] == tail;
    assert RemoveAll(raw, Fence, false) == body;
    assert AllSpace(JsSpace, "\n");
    TrimAround(JsSpace, "\n", t, "\n");
  }

  /**
    Fenced JSON is recovered exactly: "```json" (or a bare "```") on its own
    line, the JSON text, and a closing "```" give back what the JSON text
    parses to, for any JSON text free of backticks and surrounding whitespace.
   */
  lemma FencedRoundTrip(parse: string -> Option<Json>, t: string, tagged: bool, v: Json)
    requires '`' !in t && IsTrimmed(JsSpace, t) && parse(t) == Some(v)
    ensures ParseAgentOutput(parse, Some((if tagged then TaggedFence else Fence) + "\n" + t + "\n" + Fence)) == Parsed(v)
  {
    if tagged {
      CleanTaggedFence(t);
    } else {
      CleanBareFence(t);
    }
  }
  /**
    When the fence-stripped text does not parse and the raw text is prose
    around one bracketed block, the block is what gets parsed; if it does not
    parse, the raw text comes back and no braced slice is tried.
   */
  lemma BracketFallback(parse: string -> Option<Json>, pre: string, t: string, post: string)
    requires parse(CleanFences(pre + t + post)).None?
    requires '[' !in pre && ']' !in post
    requires |t| >= 2 && t[0] == '[' && t[|t| - 1] == ']'
    ensures ParseAgentOutput(parse, Some(pre + t + post)) == ParseOr(parse, t, pre + t + post)
    ensures parse(t).None? ==> ParseAgentOutput(parse, Some(pre + t + post)) == Text(pre + t + post)
  {
    var raw := pre + t + post;
    assert raw == pre + (t + post);
    IndexOfAfterPrefix(pre, t + post, '[');
    LastIndexOfBeforeSuffix(pre + t, post, ']');
    assert raw[|pre|..|pre| + |t|] == t;
  }

  /** With no bracketed slice in the raw text, a single braced block is what gets parsed. */
  lemma BraceFallback(parse: string -> Option<Json>, pre: string, t: string, post: string)
    requires parse(CleanFences(pre + t + post)).None?
    requires Enclosed(pre + t + post, '[', ']').None?
    requires '{' !in pre && '}' !in post
    requires |t| >= 2 && t[0] == '{' && t[|t| - 1] == '}'
    ensures ParseAgentOutput(parse, Some(pre + t + post)) == ParseOr(parse, t, pre + t + post)
  {
    var raw := pre + t + post;
    assert raw == pre + (t + post);
    IndexOfAfterPrefix(pre, t + post, '{');
    LastIndexOfBeforeSuffix(pre + t, post, '}');
    assert raw[|pre|..|pre| + |t|] == t;
  }

  /** Prose with neither brackets nor braces that does not parse is returned as it is. */
  lemma ProseFallback(parse: string -> Option<Json>, raw: string)
    requires raw != "" && parse(CleanFences(raw)).None?
    requires '[' !in raw && '{' !in raw
    ensures ParseAgentOutput(parse, Some(raw)) == Text(raw)
  {
    assert forall j :: 0 <= j < |raw| ==> raw[j] != '[' && raw[j] != '{';
  }

  /** Index of the first array-valued member, or -1. */
  function FirstArrayIndex(fields: seq<(string, Json)>): (k: int)
    ensures -1 <= k < |fields|
    ensures k >= 0 ==> fields[k].1.JArr? && forall j :: 0 <= j < k ==> !fields[j].1.JArr?
    ensures k < 0 ==> forall j :: 0 <= j < |fields| ==> !fields[j].1.JArr?
    decreases |fields|
  {
    if |fields| == 0 then -1
    else if fields[0].1.JArr? then 0
    else
      var k := FirstArrayIndex(fields[1..]);
      if k < 0 then -1 else k + 1
  }

  /** The `reviews` member when it holds an array. */
  function ReviewsMember(fields: seq<(string, Json)>): (r: Option<Json>)
    ensures r.Some? ==> r.value.JArr? && Get(fields, "reviews") == r
    ensures r.None? ==> Get(fields, "reviews").None? || !Get(fields, "reviews").value.JArr?
  {
    match Get(fields, "reviews")
    case Some(v) => if v.JArr? then Some(v) else None
    case None => None
  }

  /**
    The reviews view's unwrapping: an object result becomes its array-valued
    `reviews` member if it has one, else its first array-valued member, else
    stays as it is; anything that is not an object passes through.
   */
  function UnwrapReviews(x: Extracted): (r: Extracted)
    ensures !(x.Parsed? && x.value.JObj?) ==> r == x
    ensures r != x ==> r.Parsed? && r.value.JArr? && x.Parsed? && x.value.JObj?
    ensures r != x ==> exists i :: 0 <= i < |x.value.fields| && x.value.fields[i].1 == r.value
    ensures x.Parsed? && x.value.JObj? && ReviewsMember(x.value.fields).Some? ==>
              r == Parsed(ReviewsMember(x.value.fields).value)
    ensures x.Parsed? && x.value.JObj? && r == x ==>
              forall j :: 0 <= j < |x.value.fields| ==> !x.value.fields[j].1.JArr?
  {
    if x.Parsed? && x.value.JObj? then
      var fields := x.value.fields;
      if ReviewsMember(fields).Some? then Parsed(ReviewsMember(fields).value)
      else
        var k := FirstArrayIndex(fields);
        if k >= 0 then Parsed(fields[k].1) else x
    else x
  }

  /** Unwrapping is idempotent: its output is never an object it would unwrap again. */
  lemma UnwrapReviewsIdempotent(x: Extracted)
    ensures UnwrapReviews(UnwrapReviews(x)) == UnwrapReviews(x)
  {
  }

  /** Without a `reviews` array, the first array-valued member in enumeration order is taken. */
  lemma UnwrapTakesFirstArray(fields: seq<(string, Json)>, k: nat)
    requires k < |fields| && fields[k].1.JArr?
    requires forall j :: 0 <= j < k ==> !fields[j].1.JArr?
    requires ReviewsMember(fields).None?
    ensures UnwrapReviews(Parsed(JObj(fields))) == Parsed(fields[k].1)
  {
  }
}
