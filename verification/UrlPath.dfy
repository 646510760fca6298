/** Path normalisation: collapse slash runs, strip the trailing slash. */
module UrlPath {
  import opened Text

  /** Replace every run of slashes by one. */
  function Collapse(p: Str): Str {
    if p == [] then []
    else if p[0] == '/' && |p| > 1 && p[1] == '/' then Collapse(p[1..])
    else [p[0]] + Collapse(p[1..])
  }

  function TrimRight(s: Str): Str {
    if s != [] && s[|s| - 1] == '/' then TrimRight(s[..|s| - 1]) else s
  }

  function NormalizePath(path: Str): Str {
    if path == [] then "/"
    else
      var cleaned := Collapse(path);
      if cleaned == "/" then "/" else TrimRight(cleaned)
  }

  predicate Absolute(p: Str) {
    p != [] && p[0] == '/'
  }

  /** The longest prefix without a slash. */
  function Head(p: Str): (h: Str)
    ensures h <= p && '/' !in h
    ensures |h| < |p| ==> p[|h|] == '/'
  {
    if p == [] || p[0] == '/' then [] else [p[0]] + Head(p[1..])
  }

  /** The non-empty segments between slashes. */
  function Segments(p: Str): seq<Str>
    decreases |p|
  {
    if p == [] then []
    else if p[0] == '/' then Segments(p[1..])
    else [Head(p)] + Segments(p[|Head(p)|..])
  }

  function Slashed(segs: seq<Str>): Str {
    if segs == [] then [] else "/" + segs[0] + Slashed(segs[1..])
  }

  function Joined(segs: seq<Str>): Str {
    if segs == [] then "/" else Slashed(segs)
  }

  lemma {:induction false} CollapseAfterHead(h: Str, r: Str)
    requires '/' !in h
    ensures Collapse(h + r) == h + Collapse(r)
  {
    if h == [] {
      assert h + r == r;
    } else {
      assert (h + r)[1..] == h[1..] + r;
      CollapseAfterHead(h[1..], r);
    }
  }

  lemma {:induction false} TrimAfter(a: Str, b: Str)
    requires a != [] && a[|a| - 1] != '/'
    ensures TrimRight(a + b) == a + TrimRight(b)
  {
    if b == [] {
      assert a + b == a;
    } else if b[|b| - 1] == '/' {
      assert (a + b)[..|a + b| - 1] == a + b[..|b| - 1];
      TrimAfter(a, b[..|b| - 1]);
    }
  }

  /** Collapsing and trimming an absolute path leaves its segments, each after a slash. */
  lemma {:induction false} TrimmedCollapse(p: Str)
    requires Absolute(p)
    ensures TrimRight(Collapse(p)) == Slashed(Segments(p))
    ensures Collapse(p) == "/" <==> Segments(p) == []
    decreases |p|
  {
    var q := p[1..];
    if q == [] {
      assert TrimRight("/") == [];
    } else if q[0] == '/' {
      TrimmedCollapse(q);
    } else {
      var h, r := Head(q), q[|Head(q)|..];
      assert q == h + r && p == "/" + h + r;
      CollapseOneSegment(h, r);
      OneSegment(h, r);
      if r != [] { TrimmedCollapse(r); }
    }
  }

  lemma CollapseOneSegment(h: Str, r: Str)
    requires h != [] && '/' !in h
    ensures TrimRight(Collapse("/" + h + r)) == "/" + h + TrimRight(Collapse(r))
    ensures Collapse("/" + h + r) != "/"
  {
    var front: Str := "/" + h;
    var p: Str := front + r;
    assert p[1..] == h + r;
    CollapseAfterHead(h, r);
    assert Collapse(p) == front + Collapse(r);
    assert front[|front| - 1] == h[|h| - 1];
    TrimAfter(front, Collapse(r));
  }

  lemma NormalizedIsJoined(p: Str)
    requires Absolute(p) || p == []
    ensures NormalizePath(p) == Joined(Segments(p))
  {
    if p != [] { TrimmedCollapse(p); }
  }

  lemma {:induction false} SegmentsAreProper(p: Str)
    ensures forall i :: 0 <= i < |Segments(p)| ==> Segments(p)[i] != [] && '/' !in Segments(p)[i]
    decreases |p|
  {
    if p != [] {
      if p[0] == '/' { SegmentsAreProper(p[1..]); } else { SegmentsAreProper(p[|Head(p)|..]); }
    }
  }

  lemma {:induction false} HeadOfConcat(h: Str, r: Str)
    requires '/' !in h && (r == [] || r[0] == '/')
    ensures Head(h + r) == h
  {
    if h == [] {
      assert h + r == r;
    } else {
      assert (h + r)[1..] == h[1..] + r;
      HeadOfConcat(h[1..], r);
    }
  }

  lemma {:induction false} SegmentsOfSlashed(segs: seq<Str>)
    requires forall i :: 0 <= i < |segs| ==> segs[i] != [] && '/' !in segs[i]
    ensures Segments(Slashed(segs)) == segs
  {
    if segs != [] {
      SegmentsOfSlashed(segs[1..]);
      OneSegment(segs[0], Slashed(segs[1..]));
      assert segs == [segs[0]] + segs[1..];
    }
  }

  lemma OneSegment(h: Str, rest: Str)
    requires h != [] && '/' !in h && (rest == [] || rest[0] == '/')
    ensures Segments("/" + h + rest) == [h] + Segments(rest)
  {
    HeadOfConcat(h, rest);
    var s: Str := "/" + h + rest;
    assert s[1..] == h + rest;
    assert (h + rest)[|h|..] == rest;
  }

  lemma SegmentsOfNormalized(p: Str)
    requires Absolute(p) || p == []
    ensures Segments(NormalizePath(p)) == Segments(p)
  {
    NormalizedIsJoined(p);
    SegmentsAreProper(p);
    SegmentsOfSlashed(Segments(p));
    assert Segments("/") == [] by { assert ("/")[1..] == []; }
  }

  /** Two absolute paths share a cache key exactly when their non-empty segments agree. */
  lemma PathKeyAgreement(p: Str, q: Str)
    requires (Absolute(p) || p == []) && (Absolute(q) || q == [])
    ensures NormalizePath(p) == NormalizePath(q) <==> Segments(p) == Segments(q)
  {
    NormalizedIsJoined(p);
    NormalizedIsJoined(q);
    SegmentsOfNormalized(p);
    SegmentsOfNormalized(q);
  }

  predicate NoDoubleSlash(s: Str) {
    forall i :: 0 <= i < |s| - 1 ==> !(s[i] == '/' && s[i + 1] == '/')
  }

  lemma {:induction false} CollapseHasNoDouble(p: Str)
    ensures NoDoubleSlash(Collapse(p))
    ensures p != [] ==> Collapse(p) != [] && Collapse(p)[0] == p[0]
  {
    if p != [] {
      CollapseHasNoDouble(p[1..]);
    }
  }

  lemma {:induction false} CollapseFixes(s: Str)
    requires NoDoubleSlash(s)
    ensures Collapse(s) == s
  {
    if s != [] {
      forall i | 0 <= i < |s[1..]| - 1 ensures !(s[1..][i] == '/' && s[1..][i + 1] == '/') {
        assert !(s[i + 1] == '/' && s[i + 1 + 1] == '/');
      }
      CollapseFixes(s[1..]);
      assert s == [s[0]] + s[1..];
    }
  }

  lemma {:induction false} TrimRightFacts(s: Str)
    ensures TrimRight(s) <= s
    ensures TrimRight(s) == [] || TrimRight(s)[|TrimRight(s)| - 1] != '/'
  {
    if s != [] && s[|s| - 1] == '/' { TrimRightFacts(s[..|s| - 1]); }
  }

  /** A normalised path is its own normal form. */
  lemma PathIdempotent(p: Str)
    ensures NormalizePath(NormalizePath(p)) == NormalizePath(p)
  {
    if p != [] {
      var c, r := Collapse(p), TrimRight(Collapse(p));
      CollapseHasNoDouble(p);
      TrimRightFacts(c);
      if c != "/" {
        assert r == [] ==> c == "/" by {
          if r == [] { OnlySlashes(c); }
        }
        CollapseFixes(r);
      } else {
        assert Collapse("/") == "/";
      }
    }
  }

  lemma {:induction false} OnlySlashes(c: Str)
    requires TrimRight(c) == []
    ensures forall i :: 0 <= i < |c| ==> c[i] == '/'
  {
    if c != [] { OnlySlashes(c[..|c| - 1]); }
  }
}
