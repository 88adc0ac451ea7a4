/**
  utils.py: the keyword classifiers, the location cleaner, the completeness
  validator and the post-processing `extract_info_from_text` applies to its
  regular-expression matches. The matches themselves are inputs.
 */
module ProfileHeuristics {
  import opened Wrappers
  import opened Strings
  import opened Json

  /** `any(kw in t for kw in keywords)`. */
  predicate AnyIn(t: string, keywords: seq<string>) {
    exists i :: 0 <= i < |keywords| && Contains(t, keywords[i])
  }

  const HighSchoolMarkers := ["12th", "class 12", "class xii", "higher secondary", "plus two", "hsc",
                              "intermediate", "puc", "pre-university"]
  /** A mention of any of these rules out high school. */
  const BachelorMarkers := ["b.tech", "btech", "bachelor"]
  const UndergraduateMarkers := ["b.tech", "btech", "b.e", "b.e.", "bachelor of", "bachelors in",
                                 "bsc", "b.sc", "bca", "bcom", "b.com", "ba ", "b.a "]
  const PostgraduateMarkers := ["m.tech", "mtech", "m.e", "master of", "ms in", "m.s.", "msc", "m.sc",
                                "mba", "pgdm"]
  const WorkingMarkers := ["working", "work experience", "software engineer", "developer at",
                           "currently employed", "full-time job"]

  datatype Level = HighSchool | Undergraduate | Postgraduate | WorkingProfessional {
    function Name(): string {
      match this
      case HighSchool => "high_school"
      case Undergraduate => "undergraduate"
      case Postgraduate => "postgraduate"
      case WorkingProfessional => "working_professional"
    }
  }

  predicate SaysHighSchool(t: string) {
    AnyIn(t, HighSchoolMarkers) && !AnyIn(t, BachelorMarkers)
  }

  /**
    `_infer_academic_level_from_text`: the first keyword group the lower-cased
    text mentions, checked in the order high school (unless a bachelor's degree
    is mentioned), undergraduate, postgraduate, working professional.
   */
  function InferAcademicLevel(text: string): (r: Option<Level>)
    ensures var t := ToLower(text);
            (r == Some(HighSchool) <==> SaysHighSchool(t))
            && (r == Some(Undergraduate) <==> !SaysHighSchool(t) && AnyIn(t, UndergraduateMarkers))
            && (r == Some(Postgraduate) <==>
                  !SaysHighSchool(t) && !AnyIn(t, UndergraduateMarkers) && AnyIn(t, PostgraduateMarkers))
            && (r == Some(WorkingProfessional) <==>
                  !SaysHighSchool(t) && !AnyIn(t, UndergraduateMarkers) && !AnyIn(t, PostgraduateMarkers)
                  && AnyIn(t, WorkingMarkers))
  {
    var t := ToLower(text);
    if SaysHighSchool(t) then Some(HighSchool)
    else if AnyIn(t, UndergraduateMarkers) then Some(Undergraduate)
    else if AnyIn(t, PostgraduateMarkers) then Some(Postgraduate)
    else if AnyIn(t, WorkingMarkers) then Some(WorkingProfessional)
    else None
  }

  /** The classification ignores letter case. */
  lemma InferLevelIgnoresCase(text: string)
    ensures InferAcademicLevel(ToUpper(text)) == InferAcademicLevel(text)
  {
    LowerForgetsCase(text);
  }

  /**
    "mba " contains the undergraduate marker "ba ", so an MBA mentioned
    before a space reads as undergraduate unless high school wins first.
   */
  lemma MbaReadsAsUndergraduate(text: string)
    requires Contains(ToLower(text), "mba ") && !SaysHighSchool(ToLower(text))
    ensures InferAcademicLevel(text) == Some(Undergraduate)
  {
    var t := ToLower(text);
    assert StartsWith("mba "[1..], "ba ");
    ContainsSlice("mba ", 1, 4, "ba ");
    ContainsTransitive(t, "mba ", "ba ");
    assert Contains(t, UndergraduateMarkers[11]);
  }

  /** A B.Tech mentioned anywhere makes the text undergraduate, whatever else it says. */
  lemma BTechIsUndergraduate(text: string)
    requires Contains(ToLower(text), "btech")
    ensures InferAcademicLevel(text) == Some(Undergraduate)
  {
    var t := ToLower(text);
    assert Contains(t, BachelorMarkers[1]);
    assert Contains(t, UndergraduateMarkers[1]);
  }

  const Boards := ["CBSE", "ICSE", "State Board", "HSC", "PUC"]

  /** `_extract_board`: the first board the lower-cased text names, in a fixed order. */
  function ExtractBoard(text: string): (r: Option<string>)
    ensures r.Some? ==> r.value in Boards
    ensures var t := ToLower(text);
              r == Some("CBSE") <==> Contains(t, "cbse")
    ensures var t := ToLower(text);
              r == Some("ICSE") <==> !Contains(t, "cbse") && Contains(t, "icse")
    ensures var t := ToLower(text);
              r == Some("State Board") <==> (!Contains(t, "cbse") && !Contains(t, "icse")
                && (Contains(t, "state board") || Contains(t, "stateboard")))
    ensures var t := ToLower(text);
              r == Some("HSC") <==> (!Contains(t, "cbse") && !Contains(t, "icse")
                && !Contains(t, "state board") && !Contains(t, "stateboard")
                && (Contains(t, "hsc") || Contains(t, "higher secondary")))
    ensures var t := ToLower(text);
              r == Some("PUC") <==> (!Contains(t, "cbse") && !Contains(t, "icse")
                && !Contains(t, "state board") && !Contains(t, "stateboard")
                && !Contains(t, "hsc") && !Contains(t, "higher secondary")
                && (Contains(t, "puc") || Contains(t, "pre-university")))
    ensures r.None? <==> var t := ToLower(text);
              !Contains(t, "cbse") && !Contains(t, "icse") && !Contains(t, "state board") && !Contains(t, "stateboard")
              && !Contains(t, "hsc") && !Contains(t, "higher secondary") && !Contains(t, "puc")
              && !Contains(t, "pre-university")
  {
    var t := ToLower(text);
    if Contains(t, "cbse") then Some("CBSE")
    else if Contains(t, "icse") then Some("ICSE")
    else if Contains(t, "state board") || Contains(t, "stateboard") then Some("State Board")
    else if Contains(t, "hsc") || Contains(t, "higher secondary") then Some("HSC")
    else if Contains(t, "puc") || Contains(t, "pre-university") then Some("PUC")
    else None
  }

  /** The board detection ignores letter case. */
  lemma BoardIgnoresCase(text: string)
    ensures ExtractBoard(ToUpper(text)) == ExtractBoard(text)
  {
    LowerForgetsCase(text);
  }

  /** A text naming the HSC board reads as high school unless a bachelor's degree is mentioned. */
  lemma HigherSecondaryBoardIsHighSchool(text: string)
    requires Contains(ToLower(text), "hsc") && !AnyIn(ToLower(text), BachelorMarkers)
    ensures InferAcademicLevel(text) == Some(HighSchool)
  {
    assert Contains(ToLower(text), HighSchoolMarkers[5]);
  }

  // ---------------------------------------------------------------------
  // clean_user_pref_locations

  /** Position i of s is a word boundary for `\b`. */
  predicate BoundaryAt(s: string, i: nat)
    requires i <= |s|
  {
    (i > 0 && IsWordChar(s[i - 1])) != (i < |s| && IsWordChar(s[i]))
  }

  /** The letters "and" start at position i. */
  predicate AndAt(s: string, i: nat) {
    i + 3 <= |s| && s[i] == 'a' && s[i + 1] == 'n' && s[i + 2] == 'd'
  }

  /** The length of the separator `,|\band\b` that matches at position i, or 0. */
  function SeparatorAt(s: string, i: nat): (d: nat)
    requires i < |s|
    ensures d == 0 || d == 1 || d == 3
    ensures d > 0 ==> i + d <= |s|
    ensures s[i] == ',' ==> d == 1
    ensures d == 3 ==> AndAt(s, i)
  {
    if s[i] == ',' then 1
    else if AndAt(s, i) && BoundaryAt(s, i) && BoundaryAt(s, i + 3) then 3
    else 0
  }

  /** `re.split(r",|\band\b", s)` from position i, with the current piece starting at `start`. */
  function SplitFrom(s: string, start: nat, i: nat): (parts: seq<string>)
    requires start <= i <= |s|
    requires forall j :: start <= j < i ==> s[j] != ','
    ensures |parts| >= 1
    ensures forall k :: 0 <= k < |parts| ==> ',' !in parts[k]
    decreases |s| - i
  {
    if i == |s| then
      assert forall j :: 0 <= j < |s[start..]| ==> s[start..][j] == s[start + j];
      [s[start..]]
    else
      var d := SeparatorAt(s, i);
      if d > 0 then
        var piece := s[start..i];
        assert forall j :: 0 <= j < |piece| ==> piece[j] == s[start + j];
        var rest := SplitFrom(s, i + d, i + d);
        assert forall k :: 1 <= k < |[piece] + rest| ==> ([piece] + rest)[k] == rest[k - 1];
        [piece] + rest
      else
        SplitFrom(s, start, i + 1)
  }

  function SplitSeparators(s: string): (parts: seq<string>)
    ensures |parts| >= 1
    ensures forall k :: 0 <= k < |parts| ==> ',' !in parts[k]
  {
    SplitFrom(s, 0, 0)
  }

  /** Without a separator anywhere from i on, the rest of the string is one piece. */
  lemma {:induction false} NoSeparatorFrom(s: string, start: nat, i: nat)
    requires start <= i <= |s|
    requires forall j :: start <= j < |s| ==> s[j] != ','
    requires forall j :: i <= j < |s| ==> SeparatorAt(s, j) == 0
    ensures SplitFrom(s, start, i) == [s[start..]]
    decreases |s| - i
  {
    if i < |s| {
      NoSeparatorFrom(s, start, i + 1);
    }
  }

  /** A separator the split removes: a comma anywhere, or "and" with no word character on either side. */
  predicate SeparatorFits(a: string, sep: string, b: string) {
    sep == ","
    || (sep == "and" && (|a| == 0 || !IsWordChar(a[|a| - 1])) && (|b| == 0 || !IsWordChar(b[0])))
  }

  /** Position k is an end of s or touches a non-word character, so no "and" can straddle it. */
  predicate Junction(s: string, k: nat)
    requires k <= |s|
  {
    k == 0 || k == |s| || !IsWordChar(s[k - 1]) || !IsWordChar(s[k])
  }

  /** Before a junction at k, cutting s at k does not change which separator matches. */
  lemma SeparatorAtPrefix(s: string, k: nat, i: nat)
    requires i < k <= |s| && Junction(s, k)
    ensures SeparatorAt(s, i) == SeparatorAt(s[..k], i)
  {
    var a := s[..k];
    assert a[i] == s[i];
    if i + 3 < k {
      assert a[i + 1] == s[i + 1] && a[i + 2] == s[i + 2] && a[i + 3] == s[i + 3];
      assert AndAt(s, i) == AndAt(a, i);
      assert BoundaryAt(s, i + 3) == BoundaryAt(a, i + 3);
    } else if i + 3 == k {
      assert a[i + 1] == s[i + 1] && a[i + 2] == s[i + 2];
      assert AndAt(s, i) == AndAt(a, i);
      assert AndAt(s, i) ==> BoundaryAt(s, i + 3) == BoundaryAt(a, i + 3);
    } else {
      // "and" would have to cover a non-word character at the junction.
      assert !AndAt(s, i) && !AndAt(a, i);
    }
    if i > 0 {
      assert a[i - 1] == s[i - 1];
    }
    assert BoundaryAt(s, i) == BoundaryAt(a, i);
  }

  /** Past a junction at off, the separator at each position is the one `s[off..]` has there. */
  lemma SeparatorAtShift(s: string, off: nat, i: nat)
    requires off + i < |s| && Junction(s, off)
    ensures SeparatorAt(s, off + i) == SeparatorAt(s[off..], i)
  {
    var b := s[off..];
    assert b[i] == s[off + i];
    if i + 3 <= |b| {
      assert b[i + 1] == s[off + i + 1] && b[i + 2] == s[off + i + 2];
      assert AndAt(s, off + i) == AndAt(b, i);
      assert i + 3 < |b| ==> b[i + 3] == s[off + i + 3];
      assert BoundaryAt(s, off + i + 3) == BoundaryAt(b, i + 3);
    }
    if i > 0 {
      assert b[i - 1] == s[off + i - 1];
      assert BoundaryAt(s, off + i) == BoundaryAt(b, i);
    }
  }

  /** A separator at i ends the current piece; the split resumes at `next`, just past it. */
  lemma SplitFromCut(s: string, start: nat, i: nat, next: nat)
    requires start <= i < |s|
    requires forall j :: start <= j < i ==> s[j] != ','
    requires SeparatorAt(s, i) > 0 && next == i + SeparatorAt(s, i)
    ensures SplitFrom(s, start, i) == [s[start..i]] + SplitFrom(s, next, next)
  {
  }

  /** Without a separator at i, the current piece goes on. */
  lemma SplitFromSkip(s: string, start: nat, i: nat, next: nat)
    requires start <= i < |s|
    requires forall j :: start <= j < i ==> s[j] != ','
    requires SeparatorAt(s, i) == 0 && next == i + 1
    ensures s[i] != ','
    ensures SplitFrom(s, start, i) == SplitFrom(s, start, next)
  {
  }

  /** Splitting s past a junction at off gives the pieces of `s[off..]`. */
  lemma {:induction false} SplitFromShift(s: string, off: nat, start: nat, i: nat)
    requires off <= |s| && start <= i <= |s| - off && Junction(s, off)
    requires forall j :: off + start <= j < off + i ==> s[j] != ','
    ensures SplitFrom(s, off + start, off + i) == SplitFrom(s[off..], start, i)
    decreases |s| - off - i, 1
  {
    if i == |s| - off {
      assert s[off + start..] == s[off..][start..];
    } else if SeparatorAt(s[off..], i) > 0 {
      ShiftCut(s, off, start, i);
    } else {
      ShiftSkip(s, off, start, i);
    }
  }

  /** A slice of `s[off..]` is the slice of s shifted by off. */
  lemma ShiftedSlice(s: string, off: nat, x: nat, y: nat)
    requires off <= |s| && x <= y <= |s| - off
    ensures s[off + x..off + y] == s[off..][x..y]
  {
  }

  /** `SplitFromShift` where a separator ends the piece at i. */
  lemma {:induction false} ShiftCut(s: string, off: nat, start: nat, i: nat)
    requires off <= |s| && start <= i < |s| - off && Junction(s, off)
    requires forall j :: off + start <= j < off + i ==> s[j] != ','
    requires SeparatorAt(s[off..], i) > 0
    ensures SplitFrom(s, off + start, off + i) == SplitFrom(s[off..], start, i)
    decreases |s| - off - i, 0
  {
    var b := s[off..];
    SeparatorAtShift(s, off, i);
    var e := i + SeparatorAt(b, i);
    SplitFromCut(s, off + start, off + i, off + e);
    SplitFromCut(b, start, i, e);
    ShiftedSlice(s, off, start, i);
    SplitFromShift(s, off, e, e);
  }

  /** `SplitFromShift` where the piece goes on past i. */
  lemma {:induction false} ShiftSkip(s: string, off: nat, start: nat, i: nat)
    requires off <= |s| && start <= i < |s| - off && Junction(s, off)
    requires forall j :: off + start <= j < off + i ==> s[j] != ','
    requires SeparatorAt(s[off..], i) == 0
    ensures SplitFrom(s, off + start, off + i) == SplitFrom(s[off..], start, i)
    decreases |s| - off - i, 0
  {
    var b := s[off..];
    SeparatorAtShift(s, off, i);
    SplitFromSkip(s, off + start, off + i, off + i + 1);
    SplitFromSkip(b, start, i, i + 1);
    SplitFromShift(s, off, start, i + 1);
  }

  /** Splitting s up to a separator at a junction k gives the pieces of `s[..k]`, then the rest. */
  lemma {:induction false} SplitFromPrefix(s: string, k: nat, start: nat, i: nat, next: nat)
    requires start <= i <= k < |s| && Junction(s, k)
    requires forall j :: start <= j < i ==> s[j] != ','
    requires SeparatorAt(s, k) > 0 && next == k + SeparatorAt(s, k)
    ensures SplitFrom(s, start, i) == SplitFrom(s[..k], start, i) + SplitFrom(s, next, next)
    decreases k - i, 1
  {
    if i == k {
      SplitFromCut(s, start, k, next);
      assert s[..k][start..] == s[start..k];
    } else if SeparatorAt(s[..k], i) > 0 {
      PrefixCut(s, k, start, i, next);
    } else {
      PrefixSkip(s, k, start, i, next);
    }
  }

  /** `SplitFromPrefix` where a separator ends the piece at i. */
  lemma {:induction false} PrefixCut(s: string, k: nat, start: nat, i: nat, next: nat)
    requires start <= i < k < |s| && Junction(s, k)
    requires forall j :: start <= j < i ==> s[j] != ','
    requires SeparatorAt(s, k) > 0 && next == k + SeparatorAt(s, k)
    requires SeparatorAt(s[..k], i) > 0
    ensures SplitFrom(s, start, i) == SplitFrom(s[..k], start, i) + SplitFrom(s, next, next)
    decreases k - i, 0
  {
    var a := s[..k];
    SeparatorAtPrefix(s, k, i);
    var e := i + SeparatorAt(a, i);
    SplitFromCut(s, start, i, e);
    SplitFromCut(a, start, i, e);
    assert a[start..i] == s[start..i];
    SplitFromPrefix(s, k, e, e, next);
  }

  /** `SplitFromPrefix` where the piece goes on past i. */
  lemma {:induction false} PrefixSkip(s: string, k: nat, start: nat, i: nat, next: nat)
    requires start <= i < k < |s| && Junction(s, k)
    requires forall j :: start <= j < i ==> s[j] != ','
    requires SeparatorAt(s, k) > 0 && next == k + SeparatorAt(s, k)
    requires SeparatorAt(s[..k], i) == 0
    ensures SplitFrom(s, start, i) == SplitFrom(s[..k], start, i) + SplitFrom(s, next, next)
    decreases k - i, 0
  {
    var a := s[..k];
    SeparatorAtPrefix(s, k, i);
    SplitFromSkip(s, start, i, i + 1);
    SplitFromSkip(a, start, i, i + 1);
    SplitFromPrefix(s, k, start, i + 1, next);
  }

  /** A fitting separator matches where it is placed, with junctions on both sides. */
  lemma SeparatorFitsMatches(a: string, sep: string, b: string)
    requires SeparatorFits(a, sep, b)
    ensures SeparatorAt(a + sep + b, |a|) == |sep|
    ensures Junction(a + sep + b, |a|) && Junction(a + sep + b, |a| + |sep|)
  {
    var s := a + sep + b;
    if sep == "and" {
      assert s[|a|] == 'a' && s[|a| + 1] == 'n' && s[|a| + 2] == 'd';
      assert |a| > 0 ==> s[|a| - 1] == a[|a| - 1];
      assert |b| > 0 ==> s[|a| + 3] == b[0];
      assert BoundaryAt(s, |a|);
      assert BoundaryAt(s, |a| + 3);
    } else {
      assert s[|a|] == ',';
    }
  }

  /** The split at a comma, or at a free-standing "and", joins the splits of the two sides. */
  lemma SplitAtSeparator(a: string, sep: string, b: string)
    requires SeparatorFits(a, sep, b)
    ensures SplitSeparators(a + sep + b) == SplitSeparators(a) + SplitSeparators(b)
  {
    var s := a + sep + b;
    var off := |a| + |sep|;
    assert s[..|a|] == a;
    assert s[off..] == b;
    SeparatorFitsMatches(a, sep, b);
    SplitFromPrefix(s, |a|, 0, 0, off);
    SplitFromShift(s, off, 0, 0);
  }

  /** `[p.strip() for p in parts if p.strip()]`. */
  function StripNonEmpty(parts: seq<string>): (r: seq<string>)
    ensures |r| <= |parts|
    ensures forall x :: x in r ==> x != "" && IsTrimmed(PySpace, x)
    ensures forall p :: p in parts && Trim(PySpace, p) != "" ==> Trim(PySpace, p) in r
    decreases |parts|
  {
    if |parts| == 0 then []
    else
      var rest := StripNonEmpty(parts[1..]);
      var t := Trim(PySpace, parts[0]);
      assert forall p :: p in parts ==> p == parts[0] || p in parts[1..];
      if t != "" then [t] + rest else rest
  }

  /** Every kept piece is the stripped form of one of the parts. */
  lemma {:induction false} StripNonEmptySound(parts: seq<string>)
    ensures forall x :: x in StripNonEmpty(parts) ==> exists p :: p in parts && Trim(PySpace, p) == x
    decreases |parts|
  {
    if |parts| > 0 {
      var rest := StripNonEmpty(parts[1..]);
      var t := Trim(PySpace, parts[0]);
      StripNonEmptySound(parts[1..]);
      assert StripNonEmpty(parts) == if t != "" then [t] + rest else rest;
      forall x | x in StripNonEmpty(parts)
        ensures exists p :: p in parts && Trim(PySpace, p) == x
      {
        if t != "" && x == t {
          assert parts[0] in parts;
        } else {
          assert x in rest;
          var p :| p in parts[1..] && Trim(PySpace, p) == x;
          assert p in parts;
        }
      }
    }
  }

  /** Nothing is kept exactly when every part strips to nothing. */
  lemma StripNonEmptyEmpty(parts: seq<string>)
    ensures StripNonEmpty(parts) == [] <==> forall p :: p in parts ==> Trim(PySpace, p) == ""
  {
    if StripNonEmpty(parts) != [] {
      assert StripNonEmpty(parts)[0] in StripNonEmpty(parts);
      StripNonEmptySound(parts);
    }
  }

  /** Every string of the list is in its JSON array. */
  lemma StrsHolds(items: seq<string>)
    ensures forall x :: x in items ==> JStr(x) in Strs(items).items
  {
    forall x | x in items
      ensures JStr(x) in Strs(items).items
    {
      var k :| 0 <= k < |items| && items[k] == x;
      assert Strs(items).items[k] == JStr(x);
    }
  }

  /** A character absent from every part is absent from every stripped piece. */
  lemma {:induction false} StripKeepsAbsence(parts: seq<string>, c: char)
    requires forall p :: p in parts ==> c !in p
    ensures forall x :: x in StripNonEmpty(parts) ==> c !in x
    decreases |parts|
  {
    if |parts| > 0 {
      assert forall p :: p in parts[1..] ==> p in parts;
      StripKeepsAbsence(parts[1..], c);
      assert parts[0] in parts;
      TrimKeepsCharAbsence(PySpace, parts[0], c);
    }
  }

  /** Strings as a JSON array. */
  function Strs(items: seq<string>): (j: Json)
    ensures j.JArr? && |j.items| == |items|
    ensures forall k :: 0 <= k < |items| ==> j.items[k] == JStr(items[k])
  {
    JArr(seq(|items|, k requires 0 <= k < |items| => JStr(items[k])))
  }

  /** The stripped, non-empty pieces of a location string. */
  function LocationPieces(s: string): seq<string> {
    StripNonEmpty(SplitSeparators(s))
  }

  /** Every piece is non-empty, trimmed and free of commas. */
  lemma LocationPiecesShape(s: string)
    ensures forall k :: 0 <= k < |LocationPieces(s)| ==>
              LocationPieces(s)[k] != "" && IsTrimmed(PySpace, LocationPieces(s)[k]) && ',' !in LocationPieces(s)[k]
  {
    var parts := SplitSeparators(s);
    var cleaned := LocationPieces(s);
    assert forall p :: p in parts ==> ',' !in p by {
      forall p | p in parts
        ensures ',' !in p
      {
        var k :| 0 <= k < |parts| && parts[k] == p;
      }
    }
    StripKeepsAbsence(parts, ',');
    assert forall k :: 0 <= k < |cleaned| ==> cleaned[k] in cleaned;
  }

  /**
    `clean_user_pref_locations`: falsy values give None, a list is returned
    as it is, a string is split at commas and at the whole word "and" with the
    pieces stripped and empty ones dropped (None if none is left), and any
    other value gives None.
   */
  function CleanLocations(value: Json): (r: Option<Json>)
    ensures !PyTruthy(value) ==> r.None?
    ensures value.JArr? && PyTruthy(value) ==> r == Some(value)
    ensures !value.JArr? && !value.JStr? ==> r.None?
    ensures value.JStr? && r.Some? ==>
              r.value.JArr? && |r.value.items| > 0
              && forall k :: 0 <= k < |r.value.items| ==>
                   r.value.items[k].JStr? && r.value.items[k].str != "" && IsTrimmed(PySpace, r.value.items[k].str)
                   && ',' !in r.value.items[k].str
  {
    if !PyTruthy(value) then None
    else match value
      case JArr(_) => Some(value)
      case JStr(s) =>
        var cleaned := LocationPieces(s);
        LocationPiecesShape(s);
        if |cleaned| > 0 then Some(Strs(cleaned)) else None
      case _ => None
  }

  /**
    A location string gives none exactly when every piece strips to nothing;
    otherwise the list holds the stripped non-empty pieces, each piece that
    survives stripping among them.
   */
  lemma LocationStringCleaned(s: string)
    requires s != ""
    ensures CleanLocations(JStr(s)).None? <==> forall p :: p in SplitSeparators(s) ==> Trim(PySpace, p) == ""
    ensures CleanLocations(JStr(s)).Some? ==>
              CleanLocations(JStr(s)).value == Strs(LocationPieces(s))
              && forall p :: p in SplitSeparators(s) && Trim(PySpace, p) != "" ==> JStr(Trim(PySpace, p)) in CleanLocations(JStr(s)).value.items
  {
    var cleaned := LocationPieces(s);
    CleanLocationString(s);
    StripNonEmptyEmpty(SplitSeparators(s));
    StrsHolds(cleaned);
  }

  lemma CleanLocationString(s: string)
    requires s != ""
    ensures CleanLocations(JStr(s)) == if |LocationPieces(s)| > 0 then Some(Strs(LocationPieces(s))) else None
  {
  }

  /** A string with no separator is one piece. */
  lemma SingleSplit(s: string)
    requires forall j :: 0 <= j < |s| ==> SeparatorAt(s, j) == 0
    ensures SplitSeparators(s) == [s]
  {
    forall j | 0 <= j < |s|
      ensures s[j] != ','
    {
      var d := SeparatorAt(s, j);
    }
    NoSeparatorFrom(s, 0, 0);
    assert s[0..] == s;
  }

  /** A string with no separator is kept whole, stripped. */
  lemma SingleLocation(s: string)
    requires s != "" && forall j :: 0 <= j < |s| ==> SeparatorAt(s, j) == 0
    ensures CleanLocations(JStr(s)) == (if Trim(PySpace, s) == "" then None else Some(Strs([Trim(PySpace, s)])))
  {
    SingleSplit(s);
    StripSingle(s);
    CleanLocationString(s);
  }

  lemma StripSingle(s: string)
    ensures StripNonEmpty([s]) == (if Trim(PySpace, s) == "" then [] else [Trim(PySpace, s)])
  {
    assert [s][1..] == [];
  }

  // ---------------------------------------------------------------------
  // validate_profile_completeness

  /** Python's `v in (None, "", [])`. */
  predicate Blank(v: Json) {
    v == JNull || v == JStr("") || v == JArr([])
  }

  /** A required field that is absent or blank. */
  predicate MissingField(profile: map<string, Json>, field: string) {
    field !in profile || Blank(profile[field])
  }

  const BaseRequired: seq<(string, string)> := [
    ("student_name", "What's your full name?"),
    ("current_degree", "What degree are you currently pursuing?"),
    ("graduation_year", "When do you expect to graduate?"),
    ("cgpa", "What's your current CGPA or GPA?"),
    ("career_goal", "What's your main career goal?"),
    ("preferred_locations", "Which countries are you interested in studying?"),
    ("budget", "What is your approximate budget for the program?"),
    ("specialization", "What specialization or field would you like to focus on?")
  ]

  const HighSchoolRequired: seq<(string, string)> := [
    ("student_name", "What's your full name?"),
    ("board", "Which board did you study under (e.g., CBSE, ICSE, State Board)?"),
    ("class12_score", "What was your Class 12 / higher secondary score?"),
    ("competitive_exams",
     "Have you written any competitive exams like JEE, NEET, SAT etc.? If yes, share exam name and score/rank."),
    ("preferred_locations", "Which countries are you interested in studying?"),
    ("budget", "What is your approximate budget for your undergraduate studies?"),
    ("specialization", "What field or branch (e.g., CS, Mechanical, MBBS, BBA) are you interested in?")
  ]

  /** `profile.get("academic_level") == "high_school"`. */
  predicate IsHighSchoolProfile(profile: map<string, Json>) {
    "academic_level" in profile && profile["academic_level"] == JStr("high_school")
  }

  /** The question table: the high-school one exactly for high-school profiles. */
  function RequiredFor(profile: map<string, Json>): (req: seq<(string, string)>)
    ensures req == HighSchoolRequired || req == BaseRequired
    ensures req == HighSchoolRequired <==> IsHighSchoolProfile(profile)
  {
    assert |HighSchoolRequired| != |BaseRequired|;
    if IsHighSchoolProfile(profile) then HighSchoolRequired else BaseRequired
  }

  /** `a` is a subsequence of `b`: it keeps some of b's entries, in b's order. */
  predicate IsSubsequence<T(==)>(a: seq<T>, b: seq<T>)
    decreases |b|
  {
    |a| == 0 || (|b| > 0 && if a[0] == b[0] then IsSubsequence(a[1..], b[1..]) else IsSubsequence(a, b[1..]))
  }

  /** The `(field, question)` pairs of `req` whose field is missing, in the order of `req`. */
  function MissingFrom(profile: map<string, Json>, req: seq<(string, string)>): (r: seq<(string, string)>)
    ensures forall q :: q in r <==> q in req && MissingField(profile, q.0)
    ensures r == [] <==> forall q :: q in req ==> !MissingField(profile, q.0)
    ensures IsSubsequence(r, req)
    decreases |req|
  {
    if |req| == 0 then []
    else
      var rest := MissingFrom(profile, req[1..]);
      assert forall q :: q in req <==> q == req[0] || q in req[1..];
      if MissingField(profile, req[0].0) then
        var r := [req[0]] + rest;
        assert r[1..] == rest;
        r
      else
        assert |rest| > 0 ==> rest[0] != req[0] by {
          if |rest| > 0 {
            assert rest[0] in rest;
          }
        }
        rest
  }

  /**
    `validate_profile_completeness`: the questions for the required fields
    that are absent or blank, in the table's order.
   */
  function ValidateCompleteness(profile: map<string, Json>): (r: seq<(string, string)>)
    ensures IsSubsequence(r, RequiredFor(profile))
    ensures forall q :: q in r <==> q in RequiredFor(profile) && MissingField(profile, q.0)
    ensures r == [] <==> forall q :: q in RequiredFor(profile) ==> !MissingField(profile, q.0)
  {
    MissingFrom(profile, RequiredFor(profile))
  }

  /** A high-school profile without a board is asked for it. */
  lemma HighSchoolAskedForBoard(profile: map<string, Json>)
    requires IsHighSchoolProfile(profile) && "board" !in profile
    ensures HighSchoolRequired[1] in ValidateCompleteness(profile)
  {
    var q := HighSchoolRequired[1];
    assert RequiredFor(profile) == HighSchoolRequired;
    assert q in HighSchoolRequired && MissingField(profile, q.0);
  }

  /** A high-school profile is never asked for a CGPA, whatever it holds. */
  lemma HighSchoolNotAskedForCgpa(profile: map<string, Json>)
    requires IsHighSchoolProfile(profile)
    ensures forall q :: q in ValidateCompleteness(profile) ==> q.0 != "cgpa"
  {
    assert RequiredFor(profile) == HighSchoolRequired;
    forall i | 0 <= i < |HighSchoolRequired|
      ensures HighSchoolRequired[i].0 != "cgpa"
    {
      assert |HighSchoolRequired[i].0| != 4;
    }
  }

  // ---------------------------------------------------------------------
  // Post-processing in extract_info_from_text

  /** One country match: "US" and "UK" in any case are expanded, anything else is title-cased. */
  function NormalizeCountry(c: string): (r: string)
    ensures ToUpper(c) == "US" ==> r == "USA"
    ensures ToUpper(c) == "UK" ==> r == "United Kingdom"
    ensures ToUpper(c) != "US" && ToUpper(c) != "UK" ==> r == Title(c)
    ensures |r| > 0 <==> |c| > 0
    ensures ToUpper(c) != "US" && ToUpper(c) != "UK" ==> ToLower(r) == ToLower(c)
  {
    var up := ToUpper(c);
    if up == "US" then "USA"
    else if up == "UK" then "United Kingdom"
    else Title(c)
  }

  lemma UpperKeepsLetters(c: char)
    ensures IsLetter(UpperChar(c)) == IsLetter(c)
    ensures LowerChar(UpperChar(c)) == LowerChar(c) && UpperChar(UpperChar(c)) == UpperChar(c)
  {
  }

  /** Title-casing ignores the case of its input. */
  lemma TitleIgnoresCase(s: string)
    ensures Title(ToUpper(s)) == Title(s)
  {
    var u := ToUpper(s);
    var tu := Title(u);
    var ts := Title(s);
    forall i | 0 <= i < |s|
      ensures tu[i] == ts[i]
    {
      assert u[i] == UpperChar(s[i]);
      UpperKeepsLetters(s[i]);
      if i > 0 {
        assert u[i - 1] == UpperChar(s[i - 1]);
        UpperKeepsLetters(s[i - 1]);
      }
    }
    assert tu == ts;
  }

  /** The country a match denotes does not depend on how it was capitalised. */
  lemma CountryIgnoresCase(c: string)
    ensures NormalizeCountry(ToUpper(c)) == NormalizeCountry(c)
  {
    var u := ToUpper(c);
    assert ToUpper(u) == u;
    TitleIgnoresCase(c);
  }

  predicate NoDup<T(==)>(s: seq<T>) {
    forall i, j :: 0 <= i < j < |s| ==> s[i] != s[j]
  }

  /** The name one match contributes: none when it strips to nothing. */
  function Contribution(raw: string): Option<string> {
    var c := Trim(PySpace, raw);
    if c == "" then None else Some(NormalizeCountry(c))
  }

  predicate IsPrefix<T(==)>(a: seq<T>, b: seq<T>) {
    |a| <= |b| && b[..|a|] == a
  }

  /** The present values of xs, each kept at its first occurrence. */
  function FirstOccurrences<T(==,!new)>(xs: seq<Option<T>>): (r: seq<T>)
    ensures NoDup(r)
    ensures forall x :: x in r <==> Some(x) in xs
    decreases |xs|
  {
    if |xs| == 0 then []
    else
      var n := |xs| - 1;
      var prev := FirstOccurrences(xs[..n]);
      assert forall o :: o in xs <==> o in xs[..n] || o == xs[n];
      match xs[n]
      case None => prev
      case Some(v) => if v in prev then prev else prev + [v]
  }

  /** Values are only ever appended: a prefix of the input yields a prefix of the output. */
  lemma {:induction false} FirstOccurrencesGrow<T(!new)>(xs: seq<Option<T>>, j: nat)
    requires j <= |xs|
    ensures IsPrefix(FirstOccurrences(xs[..j]), FirstOccurrences(xs))
    decreases |xs|
  {
    if j < |xs| {
      var n := |xs| - 1;
      var m := xs[..n];
      assert m[..j] == xs[..j];
      FirstOccurrencesGrow(m, j);
    } else {
      assert xs[..j] == xs;
    }
  }

  /** What each match contributes, in order. */
  function Contributions(matches: seq<string>): (cs: seq<Option<string>>)
    ensures |cs| == |matches|
  {
    seq(|matches|, i requires 0 <= i < |matches| => Contribution(matches[i]))
  }

  /**
    The preferred-locations loop: each match is stripped, skipped when empty,
    normalised, and appended unless already present.
   */
  function CleanCountries(matches: seq<string>): (cleaned: seq<string>)
    ensures NoDup(cleaned)
    ensures forall x :: x in cleaned <==> exists i :: 0 <= i < |matches| && Contribution(matches[i]) == Some(x)
  {
    var cs := Contributions(matches);
    assert forall i :: 0 <= i < |matches| ==> cs[i] == Contribution(matches[i]);
    FirstOccurrences(cs)
  }

  /** The list built from the first j matches is a prefix of the final list. */
  lemma CleanCountriesGrows(matches: seq<string>, j: nat)
    requires j <= |matches|
    ensures IsPrefix(CleanCountries(matches[..j]), CleanCountries(matches))
  {
    assert Contributions(matches[..j]) == Contributions(matches)[..j];
    FirstOccurrencesGrow(Contributions(matches), j);
  }

  lemma ContributionOfTrimmed(c: string)
    requires |c| > 0 && 'A' <= c[0] <= 'Z' && 'A' <= c[|c| - 1] <= 'Z'
    ensures Contribution(c) == Some(NormalizeCountry(c))
  {
    TrimTrimmed(PySpace, c);
  }

  lemma UsContribution()
    ensures Contribution("US") == Some("USA")
  {
    ContributionOfTrimmed("US");
    UsCountry();
  }

  lemma UsCountry()
    ensures NormalizeCountry("US") == "USA"
  {
    assert ToUpper("US") == "US";
  }

  lemma UsaContribution()
    ensures Contribution("USA") == Some("Usa")
  {
    ContributionOfTrimmed("USA");
    UsaCountry();
  }

  lemma UsaCountry()
    ensures NormalizeCountry("USA") == "Usa"
  {
    assert ToUpper("USA")[2] == 'A';
    assert Title("USA") == "Usa";
  }

  /** Two different values are both kept, in order. */
  lemma TwoDistinctKept<T(!new)>(xs: seq<Option<T>>, a: T, b: T)
    requires |xs| == 2 && xs[0] == Some(a) && xs[1] == Some(b) && a != b
    ensures FirstOccurrences(xs) == [a, b]
  {
    assert xs[..1][..0] == [];
    assert FirstOccurrences(xs[..1][..0]) == [];
    assert FirstOccurrences(xs[..1]) == [a];
  }

  /** "US" and "USA" both survive: the first becomes "USA", the second "Usa". */
  lemma UsAndUsaBothKept()
    ensures CleanCountries(["US", "USA"]) == ["USA", "Usa"]
  {
    UsContribution();
    UsaContribution();
    var m := ["US", "USA"];
    var cs := Contributions(m);
    assert cs[0] == Contribution("US");
    assert cs[1] == Contribution("USA");
    TwoDistinctKept(cs, "USA", "Usa");
  }

  /**
    The specialisation match, stripped, with its common spellings replaced
    by canonical names (compared lower-cased); anything else is kept as matched.
   */
  function CanonicalSpecialization(raw: string): (spec: string)
    ensures IsTrimmed(PySpace, spec)
    ensures spec in CanonicalNames || spec == Trim(PySpace, raw)
  {
    Canonical(Trim(PySpace, raw))
  }

  /** The names the common spellings are replaced by. */
  const CanonicalNames := {"Machine Learning", "Artificial Intelligence", "Computer Science", "Electronics and Communication"}

  lemma NamesTrimmed()
    ensures forall n :: n in CanonicalNames ==> IsTrimmed(PySpace, n)
  {
    assert IsTrimmed(PySpace, "Machine Learning");
    assert IsTrimmed(PySpace, "Artificial Intelligence");
    assert IsTrimmed(PySpace, "Computer Science");
    assert IsTrimmed(PySpace, "Electronics and Communication");
  }

  /** The canonical name of an already stripped specialisation. */
  function Canonical(spec: string): (r: string)
    ensures r in CanonicalNames || r == spec
    ensures IsTrimmed(PySpace, spec) ==> IsTrimmed(PySpace, r)
  {
    NamesTrimmed();
    var l := ToLower(spec);
    if l == "ml" || l == "machine learning" then "Machine Learning"
    else if l == "ai" then "Artificial Intelligence"
    else if l == "cs" || l == "computer science" then "Computer Science"
    else if l == "ece" || l == "electronics" then "Electronics and Communication"
    else spec
  }

  /** Either spelling of machine learning, in any case and with surrounding whitespace, gets the canonical name. */
  lemma MachineLearningSpelling(raw: string)
    requires ToLower(Trim(PySpace, raw)) == "ml" || ToLower(Trim(PySpace, raw)) == "machine learning"
    ensures CanonicalSpecialization(raw) == "Machine Learning"
  {
  }

  lemma CanonicalAi(spec: string)
    requires ToLower(spec) == "ai"
    ensures Canonical(spec) == "Artificial Intelligence"
  {
    assert ToLower(spec)[0] == 'a';
  }

  /** "ai", in any case and with surrounding whitespace, gets the canonical name. */
  lemma ArtificialIntelligenceSpelling(raw: string)
    ensures ToLower(Trim(PySpace, raw)) == "ai" ==> CanonicalSpecialization(raw) == "Artificial Intelligence"
  {
    if ToLower(Trim(PySpace, raw)) == "ai" {
      CanonicalAi(Trim(PySpace, raw));
    }
  }

  lemma CanonicalCs(spec: string)
    requires ToLower(spec) == "cs" || ToLower(spec) == "computer science"
    ensures Canonical(spec) == "Computer Science"
  {
    assert ToLower(spec)[0] == 'c';
  }

  /** Either spelling of computer science gets the canonical name. */
  lemma ComputerScienceSpelling(raw: string)
    requires ToLower(Trim(PySpace, raw)) == "cs" || ToLower(Trim(PySpace, raw)) == "computer science"
    ensures CanonicalSpecialization(raw) == "Computer Science"
  {
    CanonicalCs(Trim(PySpace, raw));
  }

  lemma CanonicalEce(spec: string)
    requires ToLower(spec) == "ece" || ToLower(spec) == "electronics"
    ensures Canonical(spec) == "Electronics and Communication"
  {
    assert ToLower(spec)[0] == 'e';
  }

  /** Either spelling of electronics gets the canonical name. */
  lemma ElectronicsSpelling(raw: string)
    requires ToLower(Trim(PySpace, raw)) == "ece" || ToLower(Trim(PySpace, raw)) == "electronics"
    ensures CanonicalSpecialization(raw) == "Electronics and Communication"
  {
    CanonicalEce(Trim(PySpace, raw));
  }

  lemma CanonicalOnlyMachineLearning(spec: string)
    requires Canonical(spec) == "Machine Learning"
    ensures ToLower(spec) == "ml" || ToLower(spec) == "machine learning" || spec == "Machine Learning"
  {
    assert "Computer Science"[0] != "Machine Learning"[0];
  }

  /** "Machine Learning" comes out only for its two spellings or a match that already reads so. */
  lemma OnlySpellingsGiveMachineLearning(raw: string)
    ensures CanonicalSpecialization(raw) == "Machine Learning" ==>
              ToLower(Trim(PySpace, raw)) == "ml" || ToLower(Trim(PySpace, raw)) == "machine learning" || Trim(PySpace, raw) == "Machine Learning"
  {
    if CanonicalSpecialization(raw) == "Machine Learning" {
      CanonicalOnlyMachineLearning(Trim(PySpace, raw));
    }
  }

  lemma CanonicalOfTrimmed(spec: string)
    requires |spec| > 0 && 'A' <= spec[0] <= 'Z' && 'a' <= spec[|spec| - 1] <= 'z'
    ensures CanonicalSpecialization(spec) == Canonical(spec)
  {
    TrimTrimmed(PySpace, spec);
  }

  lemma MachineLearningFixed()
    ensures CanonicalSpecialization("Machine Learning") == "Machine Learning"
  {
    CanonicalOfTrimmed("Machine Learning");
    assert ToLower("Machine Learning")[0] == 'm';
  }

  lemma ArtificialIntelligenceFixed()
    ensures CanonicalSpecialization("Artificial Intelligence") == "Artificial Intelligence"
  {
    CanonicalOfTrimmed("Artificial Intelligence");
    CanonicalOfOtherLength("Artificial Intelligence");
  }

  lemma ComputerScienceFixed()
    ensures CanonicalSpecialization("Computer Science") == "Computer Science"
  {
    CanonicalOfTrimmed("Computer Science");
    LowerComputerScience();
    CanonicalCs("Computer Science");
  }

  lemma LowerComputerScience()
    ensures ToLower("Computer Science") == "computer science"
  {
  }

  lemma ElectronicsFixed()
    ensures CanonicalSpecialization("Electronics and Communication") == "Electronics and Communication"
  {
    CanonicalOfTrimmed("Electronics and Communication");
    CanonicalOfOtherLength("Electronics and Communication");
  }

  /** No spelling has this length, so the name is kept. */
  lemma CanonicalOfOtherLength(spec: string)
    requires |spec| != 2 && |spec| != 3 && |spec| != 11 && |spec| != 16
    ensures Canonical(spec) == spec
  {
  }

  /** Canonicalising a canonical name changes nothing. */
  lemma CanonicalSpecializationIdempotent(raw: string)
    ensures CanonicalSpecialization(CanonicalSpecialization(raw)) == CanonicalSpecialization(raw)
  {
    var spec := Trim(PySpace, raw);
    var l := ToLower(spec);
    if l == "ml" || l == "machine learning" {
      MachineLearningFixed();
    } else if l == "ai" {
      ArtificialIntelligenceFixed();
    } else if l == "cs" || l == "computer science" {
      ComputerScienceFixed();
    } else if l == "ece" || l == "electronics" {
      ElectronicsFixed();
    } else {
      TrimTrimmed(PySpace, spec);
    }
  }

  /** The year match, stripped, with a two-character year read as 20yy. */
  function NormalizeYear(raw: string): (r: string)
    ensures |Trim(PySpace, raw)| == 2 ==> |r| == 4 && StartsWith(r, "20") && EndsWith(r, Trim(PySpace, raw))
    ensures |Trim(PySpace, raw)| != 2 ==> r == Trim(PySpace, raw)
  {
    var year := Trim(PySpace, raw);
    if |year| == 2 then "20" + year else year
  }

  /** Python strips the information separators U+001C to U+001F, so a two-character year behind one is still read as 20yy. */
  lemma SeparatorPaddedYear(y: string)
    requires |y| == 2 && IsTrimmed(PySpace, y)
    ensures NormalizeYear("\U{001C}" + y) == "20" + y
  {
    TrimAround(PySpace, "\U{001C}", y, "");
    assert "\U{001C}" + y + "" == "\U{001C}" + y;
  }

  /** A normalised year is normalised again to itself. */
  lemma NormalizeYearIdempotent(raw: string)
    ensures NormalizeYear(NormalizeYear(raw)) == NormalizeYear(raw)
  {
    var r := NormalizeYear(raw);
    var t := Trim(PySpace, raw);
    if |t| == 2 {
      assert r[0] == '2' && r[|r| - 1] == t[1];
      assert IsTrimmed(PySpace, r);
    }
    TrimTrimmed(PySpace, r);
  }

  // ---------------------------------------------------------------------
  // extract_info_from_text, given its regular-expression matches

  /** The first capture group of each search, or every match of the country search, already taken from the text. */
  datatype Matches = Matches(
    name: Option<string>,
    degree: Option<string>,
    year: Option<string>,
    yearFallback: Option<string>,
    cgpa: Option<string>,
    goal: Option<string>,
    budget: Option<string>,
    countries: seq<string>,
    specialization: Option<string>,
    class12Score: Option<string>,
    exams: seq<Json>)

  /** Sets `key` when there is a value. */
  function Put(info: map<string, Json>, key: string, v: Option<Json>): (r: map<string, Json>)
    ensures r.Keys == if v.Some? then info.Keys + {key} else info.Keys
    ensures v.Some? ==> r[key] == v.value
    ensures forall k :: k in info && k != key ==> r[k] == info[k]
  {
    if v.Some? then info[key := v.value] else info
  }

  /** A matched group, stripped. */
  function Stripped(g: Option<string>): Option<Json> {
    if g.Some? then Some(JStr(Trim(PySpace, g.value))) else None
  }

  /** The year group: the keyword search first, then any four-digit number. */
  function YearGroup(m: Matches): Option<string> {
    if m.year.Some? then m.year else m.yearFallback
  }

  const StudyFields := {"student_name", "current_degree", "graduation_year", "cgpa"}
  const PlanFields := {"career_goal", "budget", "preferred_locations", "specialization"}
  const MatchedFields := StudyFields + PlanFields
  const ClassifiedFields := {"academic_level", "board", "class12_score", "competitive_exams"}
  /** The fields `extract_info_from_text` may fill in. */
  const InfoFields := MatchedFields + ClassifiedFields

  /** Name, degree, year and CGPA, each only when it matched. */
  function StudyInfo(m: Matches): (info: map<string, Json>)
    ensures info.Keys <= StudyFields
  {
    var year := YearGroup(m);
    Put(Put(Put(Put(map[], "student_name", Stripped(m.name)), "current_degree", Stripped(m.degree)),
            "graduation_year", if year.Some? then Some(JStr(NormalizeYear(year.value))) else None),
        "cgpa", Stripped(m.cgpa))
  }

  /** The name is recorded exactly when it matched. */
  lemma StudyName(m: Matches)
    ensures "student_name" in StudyInfo(m) <==> m.name.Some?
  {
  }

  /** The year is recorded exactly when one of the two year searches matched, normalised. */
  lemma StudyYear(m: Matches)
    ensures "graduation_year" in StudyInfo(m) <==> YearGroup(m).Some?
    ensures "graduation_year" in StudyInfo(m) ==>
              StudyInfo(m)["graduation_year"] == JStr(NormalizeYear(YearGroup(m).value))
  {
  }

  /** The cleaned country list, when the country search found any. */
  function LocationsValue(countries: seq<string>): Option<Json> {
    if |countries| > 0 then Some(Strs(CleanCountries(countries))) else None
  }

  /** The canonical specialisation, when it matched. */
  function SpecializationValue(spec: Option<string>): Option<Json> {
    if spec.Some? then Some(JStr(CanonicalSpecialization(spec.value))) else None
  }

  /** Goal, budget, countries and specialisation, each only when it matched. */
  function PlanInfo(m: Matches): (info: map<string, Json>)
    ensures info.Keys <= PlanFields
  {
    Put(Put(Put(Put(map[], "career_goal", Stripped(m.goal)), "budget", Stripped(m.budget)),
            "preferred_locations", LocationsValue(m.countries)),
        "specialization", SpecializationValue(m.specialization))
  }

  /** Setting another key leaves an absent key absent. */
  lemma PutAbsent(info: map<string, Json>, key: string, k: string, v: Option<Json>)
    requires k !in info && k != key
    ensures k !in Put(info, key, v)
  {
  }

  /** Countries are recorded exactly when the country search found any, cleaned and deduplicated. */
  lemma PlanLocations(m: Matches)
    ensures "preferred_locations" in PlanInfo(m) <==> |m.countries| > 0
    ensures "preferred_locations" in PlanInfo(m) ==>
              PlanInfo(m)["preferred_locations"] == Strs(CleanCountries(m.countries))
  {
    var i1 := Put(map[], "career_goal", Stripped(m.goal));
    var i2 := Put(i1, "budget", Stripped(m.budget));
    PutAbsent(i1, "budget", "preferred_locations", Stripped(m.budget));
    var i3 := Put(i2, "preferred_locations", LocationsValue(m.countries));
    assert PlanInfo(m) == Put(i3, "specialization", SpecializationValue(m.specialization));
  }

  /** The specialisation is recorded exactly when it matched, canonicalised. */
  lemma PlanSpecialization(m: Matches)
    ensures "specialization" in PlanInfo(m) <==> m.specialization.Some?
    ensures m.specialization.Some? ==>
              PlanInfo(m)["specialization"] == JStr(CanonicalSpecialization(m.specialization.value))
  {
    var i1 := Put(map[], "career_goal", Stripped(m.goal));
    var i2 := Put(i1, "budget", Stripped(m.budget));
    var i3 := Put(i2, "preferred_locations", LocationsValue(m.countries));
    PutAbsent(i1, "budget", "specialization", Stripped(m.budget));
    PutAbsent(i2, "preferred_locations", "specialization", LocationsValue(m.countries));
    assert PlanInfo(m) == Put(i3, "specialization", SpecializationValue(m.specialization));
  }

  /** The fields filled from the regular-expression matches. */
  function MatchedInfo(m: Matches): (info: map<string, Json>)
    ensures info.Keys <= MatchedFields
    ensures forall k :: k in StudyInfo(m) ==> k in info && info[k] == StudyInfo(m)[k]
    ensures forall k :: k in PlanInfo(m) ==> k in info && info[k] == PlanInfo(m)[k]
  {
    assert StudyFields !! PlanFields;
    StudyInfo(m) + PlanInfo(m)
  }

  /** The fields filled by the keyword classifiers and the score and exam helpers, each only when truthy. */
  function ClassifiedInfo(text: string, m: Matches): (info: map<string, Json>)
    ensures info.Keys <= ClassifiedFields
    ensures "academic_level" in info <==> InferAcademicLevel(text).Some?
    ensures "academic_level" in info ==> info["academic_level"] == JStr(InferAcademicLevel(text).value.Name())
    ensures "board" in info <==> ExtractBoard(text).Some?
    ensures "class12_score" in info <==> m.class12Score.Some? && m.class12Score.value != ""
    ensures "competitive_exams" in info <==> |m.exams| > 0
  {
    var level := InferAcademicLevel(text);
    var board := ExtractBoard(text);
    var info := map[];
    var info := Put(info, "academic_level", if level.Some? then Some(JStr(level.value.Name())) else None);
    var info := Put(info, "board", if board.Some? then Some(JStr(board.value)) else None);
    var info := Put(info, "class12_score",
                    if m.class12Score.Some? && m.class12Score.value != "" then Some(JStr(m.class12Score.value))
                    else None);
    Put(info, "competitive_exams", if |m.exams| > 0 then Some(JArr(m.exams)) else None)
  }

  /**
    `extract_info_from_text`: the matched fields, then the classified ones.
    No field is set twice, so the two groups simply combine.
   */
  function ExtractInfo(text: string, m: Matches): (info: map<string, Json>)
    ensures info.Keys <= InfoFields
    ensures forall k :: k in ClassifiedInfo(text, m) ==> k in info && info[k] == ClassifiedInfo(text, m)[k]
  {
    MatchedInfo(m) + ClassifiedInfo(text, m)
  }

  /** No field is filled by both groups, so every matched field survives the combination. */
  lemma MatchedFieldsKept(text: string, m: Matches)
    ensures forall k :: k in MatchedInfo(m) ==> k in ExtractInfo(text, m) && ExtractInfo(text, m)[k] == MatchedInfo(m)[k]
  {
    assert MatchedFields !! ClassifiedFields;
  }

  /** The level is recorded exactly when the text classifies, under its snake-case name. */
  lemma ExtractedLevel(text: string, m: Matches)
    ensures "academic_level" in ExtractInfo(text, m) <==> InferAcademicLevel(text).Some?
    ensures InferAcademicLevel(text).Some? ==>
              ExtractInfo(text, m)["academic_level"] == JStr(InferAcademicLevel(text).value.Name())
  {
    assert "academic_level" !in MatchedFields;
  }

  /** A two-digit year match is recorded as a four-character year starting with "20". */
  lemma ExtractedShortYear(text: string, m: Matches)
    requires m.year.Some? && |Trim(PySpace, m.year.value)| == 2
    ensures "graduation_year" in ExtractInfo(text, m)
    ensures var y := ExtractInfo(text, m)["graduation_year"];
            y.JStr? && |y.str| == 4 && StartsWith(y.str, "20")
  {
    MatchedFieldsKept(text, m);
    StudyYear(m);
  }
}
