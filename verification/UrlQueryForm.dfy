/**
 The written form of queries and paths: which keys are dropped, in what order the
 rest is written, how pieces are read, and what escapes look like.
 */
module UrlQueryForm {
  import opened Text
  import opened Order
  import opened Wrappers
  import opened UrlQuery
  import UrlPath

  // ----- keys -----

  /** Exactly the ten tracking keys go, each remaining key with its values as parsed. */
  lemma TrackingKeysGo(m: Values, k: Str)
    ensures k in Filtered(m) <==>
      && k in m
      && k != "utm_source" && k != "utm_medium" && k != "utm_campaign" && k != "utm_term" && k != "utm_content"
      && k != "gclid" && k != "fbclid" && k != "ref" && k != "mc_cid" && k != "mc_eid"
    ensures k in Filtered(m) ==> Filtered(m)[k] == m[k]
  {}

  /** Keys never go down. */
  predicate KeysAscend(pairs: seq<(Str, Str)>) {
    forall i, j :: 0 <= i < j < |pairs| ==> pairs[i].0 == pairs[j].0 || Less(pairs[i].0, pairs[j].0)
  }

  lemma {:induction false} WithKeyHasKey(k: Str, vs: seq<Str>)
    ensures |WithKey(k, vs)| == |vs|
    ensures forall i :: 0 <= i < |vs| ==> WithKey(k, vs)[i] == (k, vs[i])
  {
    if vs != [] { WithKeyHasKey(k, vs[..|vs| - 1]); }
  }

  lemma {:induction false} FlatAscends(m: Values, keys: seq<Str>)
    requires forall k :: k in keys ==> k in m
    requires Sorted(Less, keys)
    ensures KeysAscend(Flat(m, keys))
    ensures forall p :: p in Flat(m, keys) ==> p.0 in keys
  {
    if keys != [] {
      var init, k := keys[..|keys| - 1], keys[|keys| - 1];
      FlatAscends(m, init);
      WithKeyHasKey(k, m[k]);
      var head, tail := Flat(m, init), WithKey(k, m[k]);
      assert Flat(m, keys) == head + tail;
      forall i, j | 0 <= i < |head| && 0 <= j < |tail|
        ensures Less(head[i].0, tail[j].0)
      {
        assert head[i] in head;
        LessThanLast(keys, head[i].0);
      }
    }
  }

  lemma LessThanLast(keys: seq<Str>, k: Str)
    requires Sorted(Less, keys) && keys != [] && k in keys[..|keys| - 1]
    ensures Less(k, keys[|keys| - 1])
  {
    var i :| 0 <= i < |keys| - 1 && keys[i] == k;
  }

  /** The keys of a normalised query stand in alphabetical order, by bytes. */
  lemma KeysAreSorted(raw: Str)
    requires Parse(raw).Some?
    ensures ParsePairs(NormalizedQuery(raw)).Some? && KeysAscend(ParsePairs(NormalizedQuery(raw)).value)
  {
    var m := Filtered(Parse(raw).value);
    SortKeysMembers(m);
    LessIsStrictTotal();
    FlatAscends(m, SortKeys(m.Keys));
    RenderParses(Flat(m, SortKeys(m.Keys)));
  }

  // ----- reading -----

  /** A query is read piece by piece: the first '&' ends a piece, empty pieces are skipped. */
  lemma ReadByPieces(piece: Str, rest: Str)
    requires '&' !in piece
    ensures ParsePairs(piece + "&" + rest) ==
      if piece == [] then ParsePairs(rest)
      else if ParsePiece(piece).None? || ParsePairs(rest).None? then None
      else Some([ParsePiece(piece).value] + ParsePairs(rest).value)
  {
    BeforeFirst(piece, '&', rest);
    assert piece + "&" + rest == piece + ['&'] + rest;
  }

  /** The first '=' of a piece ends its key; without one the value is empty; a ';' is an error. */
  lemma ReadPiece(k: Str, v: Str)
    requires '=' !in k
    ensures ParsePiece(k + "=" + v) ==
      if ';' in k || ';' in v || Unescape(k).None? || Unescape(v).None? then None
      else Some((Unescape(k).value, Unescape(v).value))
    ensures ParsePiece(k) == if ';' in k || Unescape(k).None? then None else Some((Unescape(k).value, ""))
  {
    BeforeFirst(k, '=', v);
    assert k + "=" + v == k + ['='] + v;
  }

  lemma UnescapePlain(c: Byte, rest: Str)
    requires c != '%'
    ensures Unescape([c] + rest) == Prepend(if c == '+' then ' ' else c, Unescape(rest))
  {
    assert ([c] + rest)[1..] == rest;
  }

  /** An escape is read whichever case its digits have. */
  lemma HexIsRead(n: nat)
    requires n < 16
    ensures n < 10 ==> HexValue(('0' as int + n) as char) == Some(n)
    ensures n >= 10 ==> HexValue(('a' as int + n - 10) as char) == Some(n)
    ensures n >= 10 ==> HexValue(('A' as int + n - 10) as char) == Some(n)
  {}

  lemma ReadEscape(h: Byte, l: Byte, rest: Str)
    ensures Unescape(['%', h, l] + rest) ==
      if HexValue(h).None? || HexValue(l).None? then None
      else Prepend((16 * HexValue(h).value + HexValue(l).value) as char, Unescape(rest))
    ensures Unescape(['%']).None? && Unescape(['%', h]).None?
  {
    assert (['%', h, l] + rest)[3..] == rest;
  }

  /** A character that is no hex digit fails the escape. */
  lemma NotHex(c: Byte)
    requires !('0' <= c <= '9' || 'a' <= c <= 'f' || 'A' <= c <= 'F')
    ensures HexValue(c).None?
  {}

  /** Letters, digits and "-_.~" stay; a space is '+'; the rest is '%' and the code in two upper-case digits. */
  lemma EscapedForm(c: Byte)
    ensures 'a' <= c <= 'z' || 'A' <= c <= 'Z' || '0' <= c <= '9' ==> EscapeByte(c) == [c]
    ensures EscapeByte('-') == "-" && EscapeByte('_') == "_" && EscapeByte('.') == "." && EscapeByte('~') == "~"
    ensures EscapeByte(' ') == "+" && EscapeByte('/') == "%2F" && EscapeByte('+') == "%2B"
    ensures |EscapeByte(c)| == 3 ==>
      && EscapeByte(c)[0] == '%'
      && HexValue(EscapeByte(c)[1]) == Some(c as int / 16) && HexValue(EscapeByte(c)[2]) == Some(c as int % 16)
      && !('a' <= EscapeByte(c)[1] <= 'f') && !('a' <= EscapeByte(c)[2] <= 'f')
  {}

  // ----- paths -----

  lemma RootPaths()
    ensures UrlPath.NormalizePath("") == "/" && UrlPath.NormalizePath("/") == "/"
    ensures UrlPath.NormalizePath("//") == "/"
  {
    assert "//"[1..] == "/" && "/"[1..] == "";
    assert UrlPath.Collapse("/") == "/";
  }

  lemma CollapsedTail()
    ensures UrlPath.Collapse("//b/") == "/b/"
  {
    assert "//b/"[1..] == "/b/" && "/b/"[1..] == "b/" && "b/"[1..] == "/" && "/"[1..] == "";
    assert UrlPath.Collapse("/") == "/";
    assert UrlPath.Collapse("b/") == "b/";
    assert UrlPath.Collapse("/b/") == "/b/";
  }

  lemma RunsAndTrailingSlash()
    ensures UrlPath.NormalizePath("//a//b/") == "/a/b"
  {
    var p: Str := "//a//b/";
    CollapsedTail();
    assert p[1..] == "/a//b/" && "/a//b/"[1..] == "a//b/" && "a//b/"[1..] == "//b/";
    assert UrlPath.Collapse("a//b/") == "a/b/";
    assert UrlPath.Collapse(p) == "/a/b/";
    assert "/a/b/"[..4] == "/a/b";
  }
}
