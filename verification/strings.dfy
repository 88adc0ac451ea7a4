/**
  String helpers shared by the frontend and the backend models: the parts of
  JavaScript's `String.prototype` and Python's `str` that the core relies on.

  Case mapping, whitespace and word characters are the ASCII ones.
 */
module Strings {

  /** Whose whitespace a trim removes: JavaScript's `trim()` or Python's `strip()`. */
  datatype Whitespace = JsSpace | PySpace

  /**
    The ASCII whitespace of each language: both remove tab, line feed,
    vertical tab, form feed, carriage return and space; Python also removes
    the four separators U+001C to U+001F.
   */
  predicate IsSpace(ws: Whitespace, c: char) {
    c == ' ' || c == '\t' || c == '\n' || c == '\r' || c == '\U{000B}' || c == '\U{000C}'
    || (ws == PySpace && '\U{001C}' <= c <= '\U{001F}')
  }

  predicate AllSpace(ws: Whitespace, s: string) {
    forall i :: 0 <= i < |s| ==> IsSpace(ws, s[i])
  }

  /** No whitespace at either end. */
  predicate IsTrimmed(ws: Whitespace, s: string) {
    |s| > 0 ==> !IsSpace(ws, s[0]) && !IsSpace(ws, s[|s| - 1])
  }

  predicate StartsWith(s: string, p: string) {
    |p| <= |s| && s[..|p|] == p
  }

  predicate EndsWith(s: string, p: string) {
    |p| <= |s| && s[|s| - |p|..] == p
  }

  /** `s.includes(p)` in JavaScript, `p in s` in Python. */
  predicate Contains(s: string, p: string)
    decreases |s|
  {
    StartsWith(s, p) || (|s| > 0 && Contains(s[1..], p))
  }

  lemma {:induction false} ContainsAfter(a: string, b: string, p: string)
    requires Contains(b, p)
    ensures Contains(a + b, p)
    decreases |a|
  {
    if |a| == 0 {
      assert a + b == b;
    } else {
      assert (a + b)[1..] == a[1..] + b;
      ContainsAfter(a[1..], b, p);
    }
  }

  lemma {:induction false} ContainsBefore(a: string, b: string, p: string)
    requires Contains(a, p)
    ensures Contains(a + b, p)
    decreases |a|
  {
    if StartsWith(a, p) {
      assert (a + b)[..|p|] == a[..|p|];
    } else {
      assert (a + b)[1..] == a[1..] + b;
      ContainsBefore(a[1..], b, p);
    }
  }

  /** An occurrence inside a slice is an occurrence in the whole string. */
  lemma ContainsSlice(s: string, i: nat, j: nat, p: string)
    requires i <= j <= |s| && Contains(s[i..j], p)
    ensures Contains(s, p)
  {
    ContainsBefore(s[i..j], s[j..], p);
    assert s[i..j] + s[j..] == s[i..];
    ContainsAfter(s[..i], s[i..], p);
    assert s[..i] + s[i..] == s;
  }

  /** Containment is transitive: a string containing `p` contains all that `p` contains. */
  lemma {:induction false} ContainsTransitive(s: string, p: string, q: string)
    requires Contains(s, p) && Contains(p, q)
    ensures Contains(s, q)
    decreases |s|
  {
    if StartsWith(s, p) {
      ContainsSlice(s, 0, |p|, q);
    } else {
      ContainsTransitive(s[1..], p, q);
      assert s[1..|s|] == s[1..];
      ContainsSlice(s, 1, |s|, q);
    }
  }

  /** A string that lacks one of `p`'s characters cannot contain `p`. */
  lemma {:induction false} MissingCharExcludes(s: string, p: string, c: char)
    requires c in p && c !in s
    ensures !Contains(s, p)
    decreases |s|
  {
    if |p| <= |s| {
      var k :| 0 <= k < |p| && p[k] == c;
      assert s[..|p|][k] != p[k];
    }
    if |s| > 0 {
      MissingCharExcludes(s[1..], p, c);
    }
  }

  lemma StartsWithContains(s: string, p: string)
    requires StartsWith(s, p)
    ensures Contains(s, p)
  {
  }

  /** Index of the first `c` in `s`, or -1 (`indexOf`). */
  function IndexOf(s: string, c: char): (k: int)
    ensures -1 <= k < |s|
    ensures k >= 0 ==> s[k] == c && forall j :: 0 <= j < k ==> s[j] != c
    ensures k < 0 ==> forall j :: 0 <= j < |s| ==> s[j] != c
    decreases |s|
  {
    if |s| == 0 then -1
    else if s[0] == c then 0
    else
      var k := IndexOf(s[1..], c);
      if k < 0 then -1 else k + 1
  }

  /** Index of the last `c` in `s`, or -1 (`lastIndexOf`). */
  function LastIndexOf(s: string, c: char): (k: int)
    ensures -1 <= k < |s|
    ensures k >= 0 ==> s[k] == c && forall j :: k < j < |s| ==> s[j] != c
    ensures k < 0 ==> forall j :: 0 <= j < |s| ==> s[j] != c
    decreases |s|
  {
    if |s| == 0 then -1
    else if s[|s| - 1] == c then |s| - 1
    else LastIndexOf(s[..|s| - 1], c)
  }

  lemma IndexOfAfterPrefix(pre: string, t: string, c: char)
    requires c !in pre && |t| > 0 && t[0] == c
    ensures IndexOf(pre + t, c) == |pre|
  {
    var s := pre + t;
    assert s[|pre|] == c;
    assert forall j :: 0 <= j < |pre| ==> s[j] != c by {
      forall j | 0 <= j < |pre| ensures s[j] != c {
        assert s[j] == pre[j];
      }
    }
  }

  lemma LastIndexOfBeforeSuffix(t: string, post: string, c: char)
    requires c !in post && |t| > 0 && t[|t| - 1] == c
    ensures LastIndexOf(t + post, c) == |t| - 1
  {
    var s := t + post;
    assert s[|t| - 1] == c;
    assert forall j :: |t| <= j < |s| ==> s[j] != c by {
      forall j | |t| <= j < |s| ensures s[j] != c {
        assert s[j] == post[j - |t|];
      }
    }
  }

  /** Whitespace trimmed from the front. */
  function TrimStart(ws: Whitespace, s: string): (r: string)
    ensures |r| <= |s| && r == s[|s| - |r|..]
    ensures |r| > 0 ==> !IsSpace(ws, r[0])
    ensures AllSpace(ws, s[..|s| - |r|])
    decreases |s|
  {
    if |s| > 0 && IsSpace(ws, s[0]) then
      var r := TrimStart(ws, s[1..]);
      assert s[..|s| - |r|] == [s[0]] + s[1..][..|s[1..]| - |r|];
      r
    else s
  }

  /** Whitespace trimmed from the back. */
  function TrimEnd(ws: Whitespace, s: string): (r: string)
    ensures |r| <= |s| && r == s[..|r|]
    ensures |r| > 0 ==> !IsSpace(ws, r[|r| - 1])
    ensures AllSpace(ws, s[|r|..])
    decreases |s|
  {
    if |s| > 0 && IsSpace(ws, s[|s| - 1]) then
      var r := TrimEnd(ws, s[..|s| - 1]);
      assert s[|r|..] == s[..|s| - 1][|r|..] + [s[|s| - 1]];
      r
    else s
  }

  /** `trim()` in JavaScript, `strip()` in Python. */
  function Trim(ws: Whitespace, s: string): (r: string)
    ensures IsTrimmed(ws, r)
    ensures |r| <= |s|
  {
    TrimEnd(ws, TrimStart(ws, s))
  }

  /** Trimming never introduces a character. */
  lemma TrimKeepsCharAbsence(ws: Whitespace, s: string, c: char)
    requires c !in s
    ensures c !in Trim(ws, s)
  {
    var a := TrimStart(ws, s);
    var r := TrimEnd(ws, a);
    var off := |s| - |a|;
    forall i | 0 <= i < |r|
      ensures r[i] != c
    {
      assert r[i] == a[i];
      assert a[i] == s[off + i];
    }
  }

  /** Trimming never introduces an occurrence of any pattern. */
  lemma TrimKeepsAbsence(ws: Whitespace, s: string, p: string)
    ensures Contains(Trim(ws, s), p) ==> Contains(s, p)
  {
    TrimEndKeepsAbsence(ws, TrimStart(ws, s), p);
    TrimStartKeepsAbsence(ws, s, p);
  }

  lemma TrimStartKeepsAbsence(ws: Whitespace, s: string, p: string)
    ensures Contains(TrimStart(ws, s), p) ==> Contains(s, p)
  {
    var a := TrimStart(ws, s);
    if Contains(a, p) {
      assert s[|s| - |a|..|s|] == a;
      ContainsSlice(s, |s| - |a|, |s|, p);
    }
  }

  lemma TrimEndKeepsAbsence(ws: Whitespace, s: string, p: string)
    ensures Contains(TrimEnd(ws, s), p) ==> Contains(s, p)
  {
    var r := TrimEnd(ws, s);
    if Contains(r, p) {
      assert s[0..|r|] == r;
      ContainsSlice(s, 0, |r|, p);
    }
  }

  lemma {:induction false} TrimStartSkipsSpace(ws: Whitespace, w: string, t: string)
    requires AllSpace(ws, w) && (|t| == 0 || !IsSpace(ws, t[0]))
    ensures TrimStart(ws, w + t) == t
    decreases |w|
  {
    if |w| == 0 {
      assert w + t == t;
    } else {
      assert (w + t)[1..] == w[1..] + t;
      TrimStartSkipsSpace(ws, w[1..], t);
    }
  }

  lemma {:induction false} TrimEndSkipsSpace(ws: Whitespace, t: string, w: string)
    requires AllSpace(ws, w) && (|t| == 0 || !IsSpace(ws, t[|t| - 1]))
    ensures TrimEnd(ws, t + w) == t
    decreases |w|
  {
    if |w| == 0 {
      assert t + w == t;
    } else {
      var w' := w[..|w| - 1];
      assert (t + w)[..|t + w| - 1] == t + w';
      TrimEndSkipsSpace(ws, t, w');
    }
  }

  /** Trimming removes exactly the surrounding whitespace. */
  lemma TrimAround(ws: Whitespace, w1: string, t: string, w2: string)
    requires AllSpace(ws, w1) && AllSpace(ws, w2) && IsTrimmed(ws, t)
    ensures Trim(ws, w1 + t + w2) == t
  {
    if |t| == 0 {
      assert w1 + t + w2 == w1 + w2;
      assert AllSpace(ws, w1 + w2);
      TrimStartSkipsSpace(ws, w1 + w2, "");
      assert w1 + w2 + "" == w1 + w2;
    } else {
      assert w1 + t + w2 == w1 + (t + w2);
      TrimStartSkipsSpace(ws, w1, t + w2);
      TrimEndSkipsSpace(ws, t, w2);
    }
  }

  /** Trimming a trimmed string changes nothing. */
  lemma TrimTrimmed(ws: Whitespace, t: string)
    requires IsTrimmed(ws, t)
    ensures Trim(ws, t) == t
  {
    TrimAround(ws, "", t, "");
    assert "" + t + "" == t;
  }

  /** ASCII `toLowerCase` / `lower()` of one character. */
  function LowerChar(c: char): char {
    if 'A' <= c <= 'Z' then (c as int + 32) as char else c
  }

  /** ASCII `toUpperCase` / `upper()` of one character. */
  function UpperChar(c: char): char {
    if 'a' <= c <= 'z' then (c as int - 32) as char else c
  }

  predicate IsLetter(c: char) {
    'A' <= c <= 'Z' || 'a' <= c <= 'z'
  }

  /** Characters matched by `\w` (ASCII part). */
  predicate IsWordChar(c: char) {
    IsLetter(c) || '0' <= c <= '9' || c == '_'
  }

  function ToLower(s: string): (r: string)
    ensures |r| == |s|
  {
    seq(|s|, i requires 0 <= i < |s| => LowerChar(s[i]))
  }

  function ToUpper(s: string): (r: string)
    ensures |r| == |s|
  {
    seq(|s|, i requires 0 <= i < |s| => UpperChar(s[i]))
  }

  /** Lower-casing forgets any earlier case mapping. */
  lemma LowerForgetsCase(s: string)
    ensures ToLower(ToUpper(s)) == ToLower(s)
    ensures ToLower(ToLower(s)) == ToLower(s)
  {
  }

  /** How the two case mappings act on letters and on everything else. */
  lemma CaseMappings()
    ensures forall c :: LowerChar(UpperChar(c)) == LowerChar(c) && LowerChar(LowerChar(c)) == LowerChar(c)
    ensures forall c :: IsLetter(c) ==> 'A' <= UpperChar(c) <= 'Z' && !('A' <= LowerChar(c) <= 'Z')
    ensures forall c :: !IsLetter(c) ==> UpperChar(c) == c && LowerChar(c) == c
  {
    forall c
      ensures LowerChar(UpperChar(c)) == LowerChar(c) && LowerChar(LowerChar(c)) == LowerChar(c)
      ensures IsLetter(c) ==> 'A' <= UpperChar(c) <= 'Z' && !('A' <= LowerChar(c) <= 'Z')
      ensures !IsLetter(c) ==> UpperChar(c) == c && LowerChar(c) == c
    {
    }
  }

  /** Python `str.title()`: a letter is upper-cased when it starts a run of letters, lower-cased otherwise. */
  function Title(s: string): (r: string)
    ensures |r| == |s|
    ensures forall i :: 0 <= i < |s| ==> LowerChar(r[i]) == LowerChar(s[i])
    ensures forall i :: 0 <= i < |s| && IsLetter(s[i]) ==>
              ('A' <= r[i] <= 'Z' <==> i == 0 || !IsLetter(s[i - 1]))
    ensures forall i :: 0 <= i < |s| && !IsLetter(s[i]) ==> r[i] == s[i]
  {
    CaseMappings();
    seq(|s|, i requires 0 <= i < |s| =>
      if i > 0 && IsLetter(s[i - 1]) then LowerChar(s[i]) else UpperChar(s[i]))
  }

  /** `s.replace(/a/g, b)` for single characters. */
  function ReplaceChar(s: string, a: char, b: char): (r: string)
    ensures |r| == |s|
  {
    seq(|s|, i requires 0 <= i < |s| => if s[i] == a then b else s[i])
  }

  /** `p` occurs at the front of `s`, comparing ASCII case-insensitively when `fold` is set. */
  predicate MatchesAt(s: string, p: string, fold: bool) {
    |p| <= |s| && (if fold then ToLower(s[..|p|]) == ToLower(p) else s[..|p|] == p)
  }

  /**
    `s.replace(/p/g, '')` (with the `i` flag when `fold` is set): occurrences are
    found left to right and the scan resumes after each removed occurrence.
   */
  function RemoveAll(s: string, p: string, fold: bool): string
    requires |p| > 0
    decreases |s|
  {
    if |s| == 0 then s
    else if MatchesAt(s, p, fold) then RemoveAll(s[|p|..], p, fold)
    else [s[0]] + RemoveAll(s[1..], p, fold)
  }

  lemma {:induction false} RemoveAllSkipsPlainPrefix(x: string, y: string, p: string, fold: bool)
    requires |p| > 0 && p[0] !in x && LowerChar(p[0]) == p[0]
    requires forall i :: 0 <= i < |x| ==> LowerChar(x[i]) != p[0]
    ensures RemoveAll(x + y, p, fold) == x + RemoveAll(y, p, fold)
    decreases |x|
  {
    if |x| == 0 {
      assert x + y == y;
    } else {
      var s := x + y;
      assert s[0] == x[0];
      assert !MatchesAt(s, p, fold) by {
        if |p| <= |s| {
          assert ToLower(s[..|p|])[0] != ToLower(p)[0];
          assert s[..|p|][0] != p[0];
        }
      }
      assert s[1..] == x[1..] + y;
      RemoveAllSkipsPlainPrefix(x[1..], y, p, fold);
    }
  }

  /** Removing a pattern the string does not contain changes nothing. */
  lemma {:induction false} RemoveAllAbsent(s: string, p: string)
    requires |p| > 0 && !Contains(s, p)
    ensures RemoveAll(s, p, false) == s
    decreases |s|
  {
    if |s| > 0 {
      assert !StartsWith(s, p);
      RemoveAllAbsent(s[1..], p);
      assert [s[0]] + s[1..] == s;
    }
  }

  lemma RemoveAllShort(s: string, p: string, fold: bool)
    requires 0 < |p| && |s| <= |p| && !(|s| == |p| && MatchesAt(s, p, fold))
    ensures RemoveAll(s, p, fold) == s
    decreases |s|
  {
    if |s| > 0 {
      assert !MatchesAt(s, p, fold);
      RemoveAllShort(s[1..], p, fold);
      assert [s[0]] + s[1..] == s;
    }
  }

  /** `n` copies of `c`. */
  function Run(c: char, n: nat): (r: string)
    ensures |r| == n && forall i :: 0 <= i < n ==> r[i] == c
  {
    seq(n, _ => c)
  }

  /** Length of the run of `c` at the front of `s`. */
  function Lead(s: string, c: char): nat
    decreases |s|
  {
    if |s| > 0 && s[0] == c then 1 + Lead(s[1..], c) else 0
  }

  lemma {:induction false} LeadCovers(s: string, c: char, n: nat)
    ensures StartsWith(s, Run(c, n)) <==> Lead(s, c) >= n
    decreases n
  {
    if n > 0 && |s| > 0 && s[0] == c {
      LeadCovers(s[1..], c, n - 1);
      if StartsWith(s[1..], Run(c, n - 1)) {
        assert s[..n] == [s[0]] + s[1..][..n - 1];
      }
      if StartsWith(s, Run(c, n)) {
        assert s[1..][..n - 1] == s[..n][1..];
      }
    } else if 0 < n <= |s| {
      assert s[..n][0] != Run(c, n)[0];
    }
  }

  /** Removing a run pattern never leaves a front run as long as the pattern. */
  lemma {:induction false} RemoveRunLead(s: string, c: char, n: nat)
    requires n > 0
    ensures Lead(RemoveAll(s, Run(c, n), false), c) < n
    ensures Lead(s, c) < n ==> Lead(RemoveAll(s, Run(c, n), false), c) == Lead(s, c)
    decreases |s|
  {
    var p := Run(c, n);
    LeadCovers(s, c, n);
    if |s| == 0 {
    } else if MatchesAt(s, p, false) {
      assert |p| == n <= |s|;
      RemoveRunLead(s[n..], c, n);
    } else {
      var rest := RemoveAll(s[1..], p, false);
      var r := [s[0]] + rest;
      assert RemoveAll(s, p, false) == r;
      assert r[1..] == rest;
      if s[0] == c {
        RemoveRunLead(s[1..], c, n);
      }
    }
  }

  /** After removing every occurrence of a run pattern, none is left. */
  lemma {:induction false} RemoveRunComplete(s: string, c: char, n: nat)
    requires n > 0
    ensures !Contains(RemoveAll(s, Run(c, n), false), Run(c, n))
    decreases |s|
  {
    var p := Run(c, n);
    if |s| == 0 {
    } else if MatchesAt(s, p, false) {
      assert |p| == n <= |s|;
      RemoveRunComplete(s[n..], c, n);
    } else {
      var rest := RemoveAll(s[1..], p, false);
      var r := [s[0]] + rest;
      assert RemoveAll(s, p, false) == r;
      assert r[1..] == rest;
      RemoveRunComplete(s[1..], c, n);
      RemoveRunLead(s, c, n);
      LeadCovers(r, c, n);
    }
  }

  /**
    A character-wise rewrite that never produces `c` from another character
    cannot create an occurrence of a run of `c`.
   */
  lemma {:induction false} RewriteKeepsRunAbsence(s: string, t: string, c: char, n: nat)
    requires |s| == |t| && forall i :: 0 <= i < |t| && t[i] == c ==> s[i] == c
    requires !Contains(s, Run(c, n))
    ensures !Contains(t, Run(c, n))
    decreases |s|
  {
    if n <= |t| {
      assert s[..n] != Run(c, n);
      var i :| 0 <= i < n && s[..n][i] != Run(c, n)[i];
      assert t[..n][i] != Run(c, n)[i];
    }
    if |s| > 0 {
      RewriteKeepsRunAbsence(s[1..], t[1..], c, n);
    }
  }

  /** `s.split(c)`: the pieces between occurrences of `c`. */
  function Split(s: string, c: char): (parts: seq<string>)
    ensures |parts| >= 1
    ensures forall i :: 0 <= i < |parts| ==> c !in parts[i]
    decreases |s|
  {
    var k := IndexOf(s, c);
    if k < 0 then [s]
    else
      var head := s[..k];
      var rest := Split(s[k + 1..], c);
      assert forall j :: 0 <= j < |head| ==> head[j] != c;
      var r := [head] + rest;
      assert forall i :: 1 <= i < |r| ==> r[i] == rest[i - 1];
      r
  }

  /** `parts.join(c)`. */
  function Join(parts: seq<string>, c: char): string
    decreases |parts|
  {
    if |parts| == 0 then ""
    else if |parts| == 1 then parts[0]
    else parts[0] + [c] + Join(parts[1..], c)
  }

  /** A split at the first separator: the piece before it, then the split of the rest. */
  lemma SplitAtFirst(s: string, c: char)
    requires IndexOf(s, c) >= 0
    ensures Split(s, c) == [s[..IndexOf(s, c)]] + Split(s[IndexOf(s, c) + 1..], c)
  {
  }

  lemma JoinCons(head: string, rest: seq<string>, c: char)
    requires |rest| >= 1
    ensures Join([head] + rest, c) == head + [c] + Join(rest, c)
  {
    assert ([head] + rest)[1..] == rest;
  }

  /** A string is the part before position k, the character at k, and the part after. */
  lemma Rejoin<T>(s: seq<T>, k: nat)
    requires k < |s|
    ensures s[..k] + [s[k]] + s[k + 1..] == s
  {
  }

  /** Joining the pieces of a split gives back the original string. */
  lemma {:induction false} JoinSplit(s: string, c: char)
    ensures Join(Split(s, c), c) == s
    decreases |s|
  {
    var k := IndexOf(s, c);
    if k >= 0 {
      var tail := s[k + 1..];
      SplitAtFirst(s, c);
      JoinCons(s[..k], Split(tail, c), c);
      JoinSplit(tail, c);
      Rejoin(s, k);
    }
  }

  /** Splitting a join of separator-free pieces gives back the pieces. */
  lemma {:induction false} SplitJoin(parts: seq<string>, c: char)
    requires |parts| >= 1
    requires forall i :: 0 <= i < |parts| ==> c !in parts[i]
    ensures Split(Join(parts, c), c) == parts
    decreases |parts|
  {
    if |parts| > 1 {
      var tail := Join(parts[1..], c);
      assert parts == [parts[0]] + parts[1..];
      JoinCons(parts[0], parts[1..], c);
      var s := parts[0] + [c] + tail;
      assert s == parts[0] + ([c] + tail);
      IndexOfAfterPrefix(parts[0], [c] + tail, c);
      SplitAtFirst(s, c);
      assert s[|parts[0]| + 1..] == tail;
      assert s[..|parts[0]|] == parts[0];
      SplitJoin(parts[1..], c);
    }
  }
}
