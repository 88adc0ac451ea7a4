/**
  `parseProfileFromString` of ResultsStep.jsx: reads "Key: value" lines into
  a profile object.
 */
module ProfileText {
  import opened Wrappers
  import opened Strings
  import opened Assignments

  /** A profile entry: a plain value, or the comma-separated `preferred_locations` list. */
  datatype Entry = Scalar(text: string) | Locations(items: seq<string>)

  const Bold := "**"
  const NotSpecified := "not specified"
  const LocationsKey := "preferred_locations"
  /** Assigning a string to this key of a plain object is ignored: it names the prototype setter. */
  const ProtoKey := "__proto__"

  /**
    A line's key: "**" markers dropped, trimmed, lower-cased, spaces turned
    into underscores. The key holds no space, no "**" and no upper-case
    letter, and neither starts nor ends with whitespace.
   */
  function NormalizeKey(rawKey: string): (key: string)
    ensures ' ' !in key && !Contains(key, Bold)
    ensures IsTrimmed(JsSpace, key)
    ensures forall i :: 0 <= i < |key| ==> !('A' <= key[i] <= 'Z')
  {
    var trimmed := Trim(JsSpace, RemoveAll(rawKey, Bold, false));
    NoSpaceAfterReplace(LowerKey(rawKey));
    LowerKeyHasNoBold(rawKey);
    RewriteKeepsRunAbsence(LowerKey(rawKey), ReplaceChar(LowerKey(rawKey), ' ', '_'), '*', 2);
    UnderscoredTrimmed(trimmed);
    UnderscoredLowerCase(trimmed);
    ReplaceChar(LowerKey(rawKey), ' ', '_')
  }

  /** The key before spaces become underscores. */
  function LowerKey(rawKey: string): string {
    ToLower(Trim(JsSpace, RemoveAll(rawKey, Bold, false)))
  }

  lemma NoSpaceAfterReplace(t: string)
    ensures ' ' !in ReplaceChar(t, ' ', '_')
  {
    var k := ReplaceChar(t, ' ', '_');
    forall i | 0 <= i < |k| ensures k[i] != ' ' {
    }
  }

  /** Removing every "**", trimming and lower-casing leaves no "**". */
  lemma LowerKeyHasNoBold(rawKey: string)
    ensures Bold == Run('*', 2)
    ensures !Contains(LowerKey(rawKey), Bold)
  {
    assert Bold == Run('*', 2);
    var unbold := RemoveAll(rawKey, Bold, false);
    RemoveRunComplete(rawKey, '*', 2);
    var trimmed := Trim(JsSpace, unbold);
    TrimKeepsAbsence(JsSpace, unbold, Bold);
    RewriteKeepsRunAbsence(trimmed, ToLower(trimmed), '*', 2);
  }

  /** A key already in normal form is its own normal form. */
  lemma NormalizeKeyIdempotent(rawKey: string)
    ensures NormalizeKey(NormalizeKey(rawKey)) == NormalizeKey(rawKey)
  {
    var key := NormalizeKey(rawKey);
    RemoveAllAbsent(key, Bold);
    TrimTrimmed(JsSpace, key);
    LowerCaseFixed(key);
    SpacelessFixed(key);
  }

  lemma LowerCaseFixed(key: string)
    requires forall i :: 0 <= i < |key| ==> !('A' <= key[i] <= 'Z')
    ensures ToLower(key) == key
  {
    forall i | 0 <= i < |key| ensures ToLower(key)[i] == key[i] {
    }
  }

  lemma SpacelessFixed(key: string)
    requires ' ' !in key
    ensures ReplaceChar(key, ' ', '_') == key
  {
  }

  /** Lower-casing and turning spaces into underscores keeps a string trimmed. */
  lemma UnderscoredTrimmed(t: string)
    requires IsTrimmed(JsSpace, t)
    ensures IsTrimmed(JsSpace, ReplaceChar(ToLower(t), ' ', '_'))
  {
    var l := ToLower(t);
    if |t| > 0 {
      assert l[0] == LowerChar(t[0]);
      assert l[|t| - 1] == LowerChar(t[|t| - 1]);
    }
  }

  /** Lower-casing and turning spaces into underscores leaves no upper-case letter. */
  lemma UnderscoredLowerCase(t: string)
    ensures forall i :: 0 <= i < |t| ==> !('A' <= ReplaceChar(ToLower(t), ' ', '_')[i] <= 'Z')
  {
    var l := ToLower(t);
    var k := ReplaceChar(l, ' ', '_');
    forall i | 0 <= i < |t| ensures !('A' <= k[i] <= 'Z') {
      assert l[i] == LowerChar(t[i]);
    }
  }

  /** The text after the first colon, as `valueParts.join(':')` rebuilds it. */
  function ValueText(line: string): string {
    Join(Split(line, ':')[1..], ':')
  }

  /** Rejoining the colon-separated parts keeps every colon after the first. */
  lemma ValueKeepsLaterColons(line: string)
    requires ':' in line
    ensures IndexOf(line, ':') >= 0
    ensures ValueText(line) == line[IndexOf(line, ':') + 1..]
  {
    var k := IndexOf(line, ':');
    JoinSplit(line[k + 1..], ':');
  }

  /** `value.split(',').map(loc => loc.trim())`: empty pieces are kept. */
  function SplitLocations(value: string): (r: seq<string>)
    ensures |r| == |Split(value, ',')|
    ensures forall i :: 0 <= i < |r| ==> r[i] == Trim(JsSpace, Split(value, ',')[i]) && ',' !in r[i]
  {
    var parts := Split(value, ',');
    seq(|parts|, i requires 0 <= i < |parts| =>
      TrimKeepsAbsence(JsSpace, parts[i], [',']);
      Trim(JsSpace, parts[i]))
  }

  /**
    What one line contributes: nothing unless it has a colon; otherwise the
    key is the text before the first colon, normalised, and the value is
    everything after it, trimmed, and the line counts only when both are
    non-empty and the value is not "not specified". A `__proto__` line is
    dropped too: the object ignores a string assigned to that key.
   */
  function ParseLine(line: string): (r: Option<(string, Entry)>)
    ensures ':' !in line ==> r.None?
    ensures ':' in line ==>
              IndexOf(line, ':') >= 0
              && var i := IndexOf(line, ':');
                 var key := NormalizeKey(line[..i]);
                 var value := Trim(JsSpace, line[i + 1..]);
                 (r.Some? <==> key != "" && key != ProtoKey && value != "" && value != NotSpecified)
                 && (r.Some? ==> r.value.0 == key)
                 && (r.Some? && key == LocationsKey ==> r.value.1 == Locations(SplitLocations(value)))
                 && (r.Some? && key != LocationsKey ==> r.value.1 == Scalar(value))
  {
    if ':' !in line then None
    else
      ValueKeepsLaterColons(line);
      SplitAtFirst(line, ':');
      var key := NormalizeKey(Split(line, ':')[0]);
      var value := Trim(JsSpace, ValueText(line));
      if key != "" && key != ProtoKey && value != "" && value != NotSpecified then
        Some((key, if key == LocationsKey then Locations(SplitLocations(value)) else Scalar(value)))
      else None
  }

  /** What one line adds to the entry list: its entry, or nothing. */
  function Contribution(line: string): seq<(string, Entry)> {
    if ParseLine(line).Some? then [ParseLine(line).value] else []
  }

  /** The lists `f` gives for each element, concatenated in order. */
  function FlatMap<A, B>(f: A -> seq<B>, xs: seq<A>): seq<B>
    decreases |xs|
  {
    if |xs| == 0 then [] else f(xs[0]) + FlatMap(f, xs[1..])
  }

  lemma {:induction false} FlatMapSnoc<A, B>(f: A -> seq<B>, xs: seq<A>, x: A)
    ensures FlatMap(f, xs + [x]) == FlatMap(f, xs) + f(x)
    decreases |xs|
  {
    var both := xs + [x];
    if |xs| == 0 {
      assert both == [x] && both[1..] == [];
    } else {
      assert both[0] == xs[0];
      assert both[1..] == xs[1..] + [x];
      FlatMapSnoc(f, xs[1..], x);
    }
  }

  /** The contributions of the lines, in order. */
  function Entries(lines: seq<string>): seq<(string, Entry)> {
    FlatMap(Contribution, lines)
  }

  /** Every entry is what some line parses to. */
  lemma {:induction false} EntriesComeFromLines(lines: seq<string>)
    ensures forall e :: e in Entries(lines) ==> exists l :: l in lines && ParseLine(l) == Some(e)
    decreases |lines|
  {
    if |lines| > 0 {
      EntriesComeFromLines(lines[1..]);
      assert Entries(lines) == Contribution(lines[0]) + Entries(lines[1..]);
      assert forall l :: l in lines[1..] ==> l in lines;
      assert lines[0] in lines;
    }
  }

  lemma EntriesSnoc(lines: seq<string>, line: string)
    ensures Entries(lines + [line]) == Entries(lines) + Contribution(line)
  {
    FlatMapSnoc(Contribution, lines, line);
  }

  /**
    `parseProfileFromString`: the entries of its lines, later lines
    overwriting earlier ones. Every member is what one of the lines says,
    under a non-empty key without spaces.
   */
  function ParseProfileFromString(text: string): (profile: map<string, Entry>)
    ensures forall k :: k in profile ==> k != "" && ' ' !in k
    ensures forall k :: k in profile ==> exists line :: line in Split(text, '\n') && ParseLine(line) == Some((k, profile[k]))
  {
    EntriesFromLines(Split(text, '\n'));
    AssignAll(map[], Entries(Split(text, '\n')))
  }

  /** Each member of the assembled profile is the entry of one of the lines. */
  lemma EntriesFromLines(lines: seq<string>)
    ensures forall k :: k in AssignAll(map[], Entries(lines)) ==>
              k != "" && ' ' !in k
              && exists line :: line in lines && ParseLine(line) == Some((k, AssignAll(map[], Entries(lines))[k]))
  {
    var m := AssignAll(map[], Entries(lines));
    EntriesComeFromLines(lines);
    forall k | k in m
      ensures k != "" && ' ' !in k
      ensures exists line :: line in lines && ParseLine(line) == Some((k, m[k]))
    {
      AssignAllLookup(map[], Entries(lines), k);
      LastForFound(Entries(lines), k);
      var line :| line in lines && ParseLine(line) == Some((k, m[k]));
    }
  }

  /** A key is present iff some line contributes it, and it holds what the last such line says. */
  lemma ProfileKeysFromLines(text: string, k: string)
    ensures k in ParseProfileFromString(text) <==> LastFor(Entries(Split(text, '\n')), k).Some?
    ensures k in ParseProfileFromString(text) ==>
              ParseProfileFromString(text)[k] == LastFor(Entries(Split(text, '\n')), k).value
  {
    AssignAllLookup(map[], Entries(Split(text, '\n')), k);
  }

  /** A contributing line overwrites whatever the lines before it said about its key. */
  lemma {:induction false} LaterLineWins(lines: seq<string>, line: string)
    requires ParseLine(line).Some?
    ensures AssignAll(map[], Entries(lines + [line])) ==
            AssignAll(map[], Entries(lines))[ParseLine(line).value.0 := ParseLine(line).value.1]
  {
    EntriesSnoc(lines, line);
    AssignAllSnoc(map[], Entries(lines), ParseLine(line).value);
  }

  /** A line that contributes nothing leaves the profile as it was. */
  lemma {:induction false} SilentLineIgnored(lines: seq<string>, line: string)
    requires ParseLine(line).None?
    ensures AssignAll(map[], Entries(lines + [line])) == AssignAll(map[], Entries(lines))
  {
    EntriesSnoc(lines, line);
    assert Entries(lines) + Contribution(line) == Entries(lines);
  }
}
