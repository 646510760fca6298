/** URL extraction from post text: trailing punctuation and first distinct matches. */
module Extractor {
  import opened Text
  import opened Order

  const TRAILING_TRIM: Str := ".,;:!?\"'\\*>}]"
  const MAX_EXTRACTED: nat := 5

  function Count(s: Str, c: char): nat {
    if s == [] then 0 else (if s[0] == c then 1 else 0) + Count(s[1..], c)
  }

  function Last(s: Str): Byte
    requires s != []
  {
    s[|s| - 1]
  }

  /**
   The loop's four reasons to drop the last byte; the last two never decide anything,
   since ']' and '}' are already in the trim set.
   */
  predicate Strips(s: Str)
    requires s != []
  {
    || Last(s) in TRAILING_TRIM
    || (Last(s) == ')' && Count(s, '(') < Count(s, ')'))
    || (Last(s) == ']' && Count(s, '[') < Count(s, ']'))
    || (Last(s) == '}' && Count(s, '{') < Count(s, '}'))
  }

  function Trimmed(s: Str): Str {
    if s != [] && Strips(s) then Trimmed(s[..|s| - 1]) else s
  }

  method TrimTrailing(url: Str) returns (s: Str)
    ensures s == Trimmed(url)
  {
    s := url;
    while |s| > 0
      invariant Trimmed(s) == Trimmed(url)
      decreases |s|
    {
      if !Strips(s) {
        break;
      }
      s := s[..|s| - 1];
    }
  }

  /** What prose puts behind a URL. */
  predicate Punctuation(c: char) {
    || c == '.' || c == ',' || c == ';' || c == ':' || c == '!' || c == '?'
    || c == '"' || c == '\'' || c == '\\' || c == '*' || c == '>' || c == '}' || c == ']'
  }

  /** May stand at the end of a URL: no punctuation, no unmatched ')'. */
  predicate Clean(s: Str) {
    s != [] ==> !Punctuation(Last(s)) && (Last(s) == ')' ==> multiset(s)['('] >= multiset(s)[')'])
  }

  lemma {:induction false} CountIsMultiplicity(s: Str, c: char)
    ensures Count(s, c) == multiset(s)[c]
  {
    if s != [] {
      CountIsMultiplicity(s[1..], c);
      assert s == [s[0]] + s[1..];
    }
  }

  lemma StripsUnlessClean(s: Str)
    requires s != []
    ensures Strips(s) <==> !Clean(s)
  {
    CountIsMultiplicity(s, '(');
    CountIsMultiplicity(s, ')');
  }

  /** Trimming keeps the longest clean prefix. */
  lemma {:induction false} TrimmedIsLongestCleanPrefix(s: Str)
    ensures Trimmed(s) <= s && Clean(Trimmed(s))
    ensures forall k :: |Trimmed(s)| < k <= |s| ==> !Clean(s[..k])
  {
    if s != [] { StripsUnlessClean(s); }
    if s != [] && Strips(s) {
      var t := s[..|s| - 1];
      TrimmedIsLongestCleanPrefix(t);
      assert s[..|s|] == s;
      forall k | |Trimmed(s)| < k <= |s| ensures !Clean(s[..k]) {
        if k < |s| { assert s[..k] == t[..k]; }
      }
    }
  }

  /** The documented rule: ']' and '}' go only when they have no matching opener. */
  predicate DocStrips(s: Str)
    requires s != []
  {
    || (Last(s) in TRAILING_TRIM && Last(s) != ']' && Last(s) != '}')
    || (Last(s) == ')' && Count(s, '(') < Count(s, ')'))
    || (Last(s) == ']' && Count(s, '[') < Count(s, ']'))
    || (Last(s) == '}' && Count(s, '{') < Count(s, '}'))
  }

  function DocTrimmed(s: Str): Str {
    if s != [] && DocStrips(s) then DocTrimmed(s[..|s| - 1]) else s
  }

  /**
   The code also strips balanced ']' and '}': it agrees with its own comment exactly
   when the documented result does not end in one of them.
   */
  lemma {:induction false} DocumentedTrimAgreement(s: Str)
    ensures Trimmed(s) == DocTrimmed(s) <==> (DocTrimmed(s) != [] ==> Last(DocTrimmed(s)) != ']' && Last(DocTrimmed(s)) != '}')
  {
    if s != [] && DocStrips(s) {
      DocumentedTrimAgreement(s[..|s| - 1]);
    } else if s != [] && Strips(s) {
      TrimmedIsLongestCleanPrefix(s[..|s| - 1]);
      StripsUnlessClean(s);
    }
  }

  /** The comment keeps this closer; the code does not. */
  lemma BalancedBracketIsStripped()
    ensures DocTrimmed("[x]") == "[x]" && Trimmed("[x]") == "[x"
  {
    var s, t: Str := "[x]", "[x";
    assert s[1..] == "x]" && s[1..][1..] == "]" && s[1..][1..][1..] == "";
    assert Count(s, '[') == 1 && Count(s, ']') == 1;
    assert s[..2] == t && !Strips(t);
  }

  // ----- extraction -----

  /** The trimmed, non-empty matches. */
  function Candidates(matches: seq<Str>): seq<Str> {
    if matches == [] then []
    else
      var m := Trimmed(matches[|matches| - 1]);
      Candidates(matches[..|matches| - 1]) + (if m == [] then [] else [m])
  }

  /** Each element once, in order of first appearance. */
  function FirstAppearances<T(==)>(s: seq<T>): seq<T> {
    if s == [] then []
    else
      var before := s[..|s| - 1];
      FirstAppearances(before) + (if s[|s| - 1] in before then [] else [s[|s| - 1]])
  }

  function FirstFive(s: seq<Str>): seq<Str> {
    if |s| <= MAX_EXTRACTED then s else s[..MAX_EXTRACTED]
  }

  function Extracted(matches: seq<Str>): seq<Str> {
    FirstFive(FirstAppearances(Candidates(matches)))
  }

  lemma {:induction false} FirstAppearancesElems<T>(s: seq<T>)
    ensures forall x :: x in FirstAppearances(s) <==> x in s
    ensures Distinct(FirstAppearances(s))
  {
    if s != [] {
      var before := s[..|s| - 1];
      FirstAppearancesElems(before);
      assert s == before + [s[|s| - 1]];
    }
  }

  lemma {:induction false} AppearancesPrefix<T>(a: seq<T>, b: seq<T>)
    requires a <= b
    ensures FirstAppearances(a) <= FirstAppearances(b)
    decreases |b|
  {
    if |a| < |b| { AppearancesPrefix(a, b[..|b| - 1]); } else { assert a == b; }
  }

  lemma {:induction false} CandidatesPrefix(matches: seq<Str>, i: nat)
    requires i <= |matches|
    ensures Candidates(matches[..i]) <= Candidates(matches)
    decreases |matches|
  {
    if i == |matches| {
      assert matches[..i] == matches;
    } else {
      CandidatesPrefix(matches[..|matches| - 1], i);
      assert matches[..|matches| - 1][..i] == matches[..i];
    }
  }

  lemma ExtractedOfPrefix(matches: seq<Str>, i: nat)
    requires i <= |matches|
    ensures FirstAppearances(Candidates(matches[..i])) <= FirstAppearances(Candidates(matches))
  {
    CandidatesPrefix(matches, i);
    AppearancesPrefix(Candidates(matches[..i]), Candidates(matches));
  }

  lemma NextMatch(matches: seq<Str>, i: nat)
    requires i < |matches|
    ensures
      var m, c := Trimmed(matches[i]), Candidates(matches[..i]);
      FirstAppearances(Candidates(matches[..i + 1])) ==
        FirstAppearances(c) + (if m == [] || m in c then [] else [m])
      && Elems(Candidates(matches[..i + 1])) == Elems(c) + (if m == [] then {} else {m})
      && (m in c <==> m in Elems(c))
  {
    assert matches[..i + 1][..i] == matches[..i] && matches[..i + 1][i] == matches[i];
    var m, c := Trimmed(matches[i]), Candidates(matches[..i]);
    assert Candidates(matches[..i + 1]) == c + (if m == [] then [] else [m]);
    if m == [] {
      assert c + [] == c && FirstAppearances(c) + [] == FirstAppearances(c);
    } else {
      assert (c + [m])[..|c|] == c;
    }
  }

  /** Stopping at the fifth, or having read everything, both give the result. */
  lemma EnoughRead(matches: seq<Str>, i: nat, out: seq<Str>)
    requires i <= |matches| && out == FirstAppearances(Candidates(matches[..i])) && |out| <= MAX_EXTRACTED
    requires |out| == MAX_EXTRACTED || i == |matches|
    ensures out == Extracted(matches)
  {
    ExtractedOfPrefix(matches, i);
    if i == |matches| { assert matches[..i] == matches; }
  }

  /** `matches` are the regular expression's matches, left to right. */
  method ExtractURLs(matches: seq<Str>) returns (out: seq<Str>)
    ensures out == Extracted(matches)
  {
    var seen: set<Str> := {};
    out := [];
    ghost var read: seq<Str> := [];
    var i := 0;
    while i < |matches|
      invariant 0 <= i <= |matches| && read == Candidates(matches[..i])
      invariant out == FirstAppearances(read) && |out| < MAX_EXTRACTED
      invariant seen == Elems(read)
    {
      var m := TrimTrailing(matches[i]);
      NextMatch(matches, i);
      i := i + 1;
      read := Candidates(matches[..i]);
      if m == [] || m in seen {
        continue;
      }
      seen := seen + {m};
      out := out + [m];
      if |out| >= MAX_EXTRACTED {
        EnoughRead(matches, i, out);
        return;
      }
    }
    EnoughRead(matches, i, out);
  }

  /** At most five URLs, pairwise distinct, none empty, each a trimmed match. */
  lemma ExtractedAreDistinct(matches: seq<Str>)
    ensures |Extracted(matches)| <= 5 && Distinct(Extracted(matches))
    ensures forall u :: u in Extracted(matches) ==> u in Candidates(matches)
    ensures |Extracted(matches)| < 5 ==> forall u :: u in Candidates(matches) ==> u in Extracted(matches)
  {
    FirstAppearancesElems(Candidates(matches));
    var all := FirstAppearances(Candidates(matches));
    assert forall u :: u in FirstFive(all) ==> u in all;
  }

  /** Where an element appears first. */
  function FirstIndex<T(==)>(s: seq<T>, x: T): (i: nat)
    requires x in s
    ensures i < |s| && s[i] == x && forall k :: 0 <= k < i ==> s[k] != x
  {
    if s[0] == x then 0 else 1 + FirstIndex(s[1..], x)
  }

  lemma FirstIndexOfPrefix<T>(s: seq<T>, y: T, x: T)
    requires x in s
    ensures FirstIndex(s + [y], x) == FirstIndex(s, x)
  {
    var i, j := FirstIndex(s, x), FirstIndex(s + [y], x);
    assert (s + [y])[i] == x;
    assert forall k :: 0 <= k < i ==> (s + [y])[k] == s[k];
  }

  lemma {:induction false} AppearInOrder<T>(s: seq<T>)
    ensures
      var f := FirstAppearances(s);
      && (forall x :: x in f ==> x in s)
      && (forall a, b :: 0 <= a < b < |f| ==> FirstIndex(s, f[a]) < FirstIndex(s, f[b]))
  {
    FirstAppearancesElems(s);
    if s != [] {
      var init, y := s[..|s| - 1], s[|s| - 1];
      AppearInOrder(init);
      FirstAppearancesElems(init);
      assert s == init + [y];
      var f, g := FirstAppearances(s), FirstAppearances(init);
      forall a, b | 0 <= a < b < |f| ensures FirstIndex(s, f[a]) < FirstIndex(s, f[b]) {
        FirstIndexOfPrefix(init, y, g[a]);
        if b < |g| { FirstIndexOfPrefix(init, y, g[b]); }
      }
    }
  }

  /** Each match gives its trimmed text, or nothing when nothing is left of it; texts before come first. */
  lemma {:induction false} CandidatesAreTrimmed(before: seq<Str>, after: seq<Str>, m: Str)
    ensures Candidates([m]) == if Trimmed(m) == "" then [] else [Trimmed(m)]
    ensures Candidates(before + after) == Candidates(before) + Candidates(after)
    decreases |after|
  {
    assert [m][..0] == [];
    if after == [] {
      assert before + after == before;
    } else {
      var init, x := after[..|after| - 1], after[|after| - 1];
      CandidatesAreTrimmed(before, init, m);
      assert (before + after)[..|before + after| - 1] == before + init;
    }
  }

  /** The first `n` in order of appearance: everything else appears later. */
  ghost predicate EarliestOnes<T>(s: seq<T>, out: seq<T>) {
    && (forall x :: x in out ==> x in s)
    && (forall a, b :: 0 <= a < b < |out| ==> FirstIndex(s, out[a]) < FirstIndex(s, out[b]))
    && (forall a, x :: 0 <= a < |out| && x in s && x !in out ==> FirstIndex(s, out[a]) < FirstIndex(s, x))
  }

  lemma TakeEarliest<T>(s: seq<T>, n: nat)
    requires n <= |FirstAppearances(s)|
    ensures EarliestOnes(s, FirstAppearances(s)[..n])
  {
    var f := FirstAppearances(s);
    AppearInOrder(s);
    FirstAppearancesElems(s);
    forall c | 0 <= c < n ensures f[c] in f[..n] { assert f[..n][c] == f[c]; }
    forall a, x | 0 <= a < n && x in s && x !in f[..n] ensures FirstIndex(s, f[..n][a]) < FirstIndex(s, x) {
      var b :| 0 <= b < |f| && f[b] == x;
    }
  }

  /** The result lists the trimmed matches by where each appears first, and every other one appears later. */
  lemma ExtractedInOrder(matches: seq<Str>)
    ensures EarliestOnes(Candidates(matches), Extracted(matches))
  {
    var f := FirstAppearances(Candidates(matches));
    var n := if |f| <= MAX_EXTRACTED then |f| else MAX_EXTRACTED;
    assert Extracted(matches) == f[..n];
    TakeEarliest(Candidates(matches), n);
  }
}
