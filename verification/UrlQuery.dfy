/** Query strings: form escaping, parsing into key-to-values, canonical rendering. */
module UrlQuery {
  import opened Text
  import opened Order
  import opened Wrappers

  type Values = map<Str, seq<Str>>

  const TRACKING: set<Str> := {
    "utm_source", "utm_medium", "utm_campaign", "utm_term", "utm_content",
    "gclid", "fbclid", "ref", "mc_cid", "mc_eid"}

  // ----- percent-encoding, section 2.1 of RFC 3986, with '+' for a space -----

  predicate Unreserved(c: char) {
    'a' <= c <= 'z' || 'A' <= c <= 'Z' || '0' <= c <= '9' || c == '-' || c == '_' || c == '.' || c == '~'
  }

  function HexDigit(n: nat): Byte
    requires n < 16
  {
    if n < 10 then ('0' as int + n) as char else ('A' as int + n - 10) as char
  }

  function HexValue(c: char): (r: Option<nat>)
    ensures r.Some? ==> r.value < 16
  {
    if '0' <= c <= '9' then Some(c as int - '0' as int)
    else if 'A' <= c <= 'F' then Some(c as int - 'A' as int + 10)
    else if 'a' <= c <= 'f' then Some(c as int - 'a' as int + 10)
    else None
  }

  function EscapeByte(c: Byte): Str {
    if Unreserved(c) then [c]
    else if c == ' ' then "+"
    else ['%', HexDigit(c as int / 16), HexDigit(c as int % 16)]
  }

  function Escape(s: Str): Str {
    if s == [] then [] else EscapeByte(s[0]) + Escape(s[1..])
  }

  function Prepend(c: Byte, rest: Option<Str>): Option<Str> {
    if rest.None? then None else Some([c] + rest.value)
  }

  function Unescape(s: Str): Option<Str> {
    if s == [] then Some([])
    else if s[0] == '%' then
      if |s| < 3 then None
      else
        var h, l := HexValue(s[1]), HexValue(s[2]);
        if h.None? || l.None? then None
        else Prepend((h.value * 16 + l.value) as char, Unescape(s[3..]))
    else Prepend(if s[0] == '+' then ' ' else s[0], Unescape(s[1..]))
  }

  lemma HexRoundTrip(n: nat)
    requires n < 16
    ensures HexValue(HexDigit(n)) == Some(n)
  {}

  lemma UnescapeByte(c: Byte, rest: Str)
    ensures Unescape(EscapeByte(c) + rest) == Prepend(c, Unescape(rest))
  {
    var e := EscapeByte(c);
    if Unreserved(c) || c == ' ' {
      assert (e + rest)[1..] == rest;
    } else {
      HexRoundTrip(c as int / 16);
      HexRoundTrip(c as int % 16);
      assert (e + rest)[3..] == rest;
    }
  }

  lemma {:induction false} EscapeRoundTrip(s: Str)
    ensures Unescape(Escape(s)) == Some(s)
  {
    if s != [] {
      UnescapeByte(s[0], Escape(s[1..]));
      EscapeRoundTrip(s[1..]);
      assert s == [s[0]] + s[1..];
    }
  }

  /** No separator survives escaping. */
  predicate Plain(c: char) {
    c != '&' && c != ';' && c != '='
  }

  lemma {:induction false} EscapedIsPlain(s: Str)
    ensures forall i :: 0 <= i < |Escape(s)| ==> Plain(Escape(s)[i])
  {
    if s != [] {
      EscapedIsPlain(s[1..]);
      assert forall i :: 0 <= i < |EscapeByte(s[0])| ==> Plain(EscapeByte(s[0])[i]);
    }
  }

  // ----- parsing -----

  /** Everything before the first `c`. */
  function Before(s: Str, c: char): (r: Str)
    ensures r <= s && c !in r
    ensures |r| < |s| ==> s[|r|] == c
  {
    if s == [] || s[0] == c then [] else [s[0]] + Before(s[1..], c)
  }

  /** Everything after the first `c`; empty when there is none. */
  function After(s: Str, c: char): Str {
    var n := |Before(s, c)|;
    if n < |s| then s[n + 1..] else []
  }

  /** One `key=value` piece; an error for a ';' or a malformed escape. */
  function ParsePiece(piece: Str): Option<(Str, Str)> {
    if ';' in piece then None
    else
      var k, v := Unescape(Before(piece, '=')), Unescape(After(piece, '='));
      if k.None? || v.None? then None else Some((k.value, v.value))
  }

  /** The pairs in submission order; empty pieces are skipped, any error fails the query. */
  function ParsePairs(query: Str): Option<seq<(Str, Str)>>
    decreases |query|
  {
    if query == [] then Some([])
    else
      var piece, rest := Before(query, '&'), ParsePairs(After(query, '&'));
      if piece == [] then rest
      else
        var p := ParsePiece(piece);
        if p.None? || rest.None? then None else Some([p.value] + rest.value)
  }

  function ValuesOf(m: Values, k: Str): seq<Str> {
    if k in m then m[k] else []
  }

  /** Collect each key's values in order. */
  function Group(pairs: seq<(Str, Str)>): Values {
    if pairs == [] then map[]
    else
      var m := Group(pairs[..|pairs| - 1]);
      var (k, v) := pairs[|pairs| - 1];
      m[k := ValuesOf(m, k) + [v]]
  }

  function Parse(query: Str): Option<Values> {
    var pairs := ParsePairs(query);
    if pairs.None? then None else Some(Group(pairs.value))
  }

  // ----- rendering -----

  function Piece(p: (Str, Str)): Str {
    Escape(p.0) + "=" + Escape(p.1)
  }

  function Render(pairs: seq<(Str, Str)>): Str {
    if pairs == [] then []
    else if |pairs| == 1 then Piece(pairs[0])
    else Piece(pairs[0]) + "&" + Render(pairs[1..])
  }

  function WithKey(k: Str, vs: seq<Str>): seq<(Str, Str)> {
    if vs == [] then [] else WithKey(k, vs[..|vs| - 1]) + [(k, vs[|vs| - 1])]
  }

  /** The pairs key by key, each key's values in order. */
  function Flat(m: Values, keys: seq<Str>): seq<(Str, Str)>
    requires forall k :: k in keys ==> k in m
  {
    if keys == [] then [] else Flat(m, keys[..|keys| - 1]) + WithKey(keys[|keys| - 1], m[keys[|keys| - 1]])
  }

  ghost function SortKeys(keys: set<Str>): (r: seq<Str>)
    ensures Elems(r) == keys && Distinct(r)
  {
    LessIsStrictTotal();
    var r := Sort(Less, keys);
    SortedIsDistinct(r);
    r
  }

  lemma SortedIsDistinct(r: seq<Str>)
    requires Sorted(Less, r)
    ensures Distinct(r)
  {
    forall i, j | 0 <= i < j < |r| ensures r[i] != r[j] { LessIrreflexive(r[i]); }
  }

  function Filtered(m: Values): Values {
    m - TRACKING
  }

  lemma SortKeysMembers(m: Values)
    ensures forall k :: k in SortKeys(m.Keys) ==> k in m
  {
    forall k | k in SortKeys(m.Keys) ensures k in m { ElemsMembership(SortKeys(m.Keys), k); }
  }

  ghost function Canonical(m: Values): Str {
    SortKeysMembers(m);
    Render(Flat(m, SortKeys(m.Keys)))
  }

  /** Unparseable queries are kept as they are. */
  ghost function NormalizedQuery(raw: Str): Str {
    var values := Parse(raw);
    if values.None? then raw else Canonical(Filtered(values.value))
  }

  // ----- parsing undoes rendering -----

  lemma {:induction false} BeforeFirst(a: Str, c: Byte, b: Str)
    requires c !in a
    ensures Before(a + [c] + b, c) == a && After(a + [c] + b, c) == b
    ensures Before(a, c) == a && After(a, c) == []
  {
    if a == [] {
      assert a + [c] + b == [c] + b;
    } else {
      assert (a + [c] + b)[1..] == a[1..] + [c] + b;
      BeforeFirst(a[1..], c, b);
      assert a == [a[0]] + a[1..];
    }
    assert (a + [c] + b)[|a| + 1..] == b;
  }

  lemma EscapedHas(s: Str, c: char)
    requires !Plain(c)
    ensures c !in Escape(s)
  {
    EscapedIsPlain(s);
  }

  lemma PieceHas(p: (Str, Str), c: char)
    requires c == '&' || c == ';'
    ensures c !in Piece(p)
  {
    EscapedHas(p.0, c);
    EscapedHas(p.1, c);
  }

  lemma PieceParses(p: (Str, Str))
    ensures ParsePiece(Piece(p)) == Some(p)
    ensures '&' !in Piece(p) && Piece(p) != []
  {
    PieceHas(p, '&');
    PieceHas(p, ';');
    EscapedHas(p.0, '=');
    BeforeFirst(Escape(p.0), '=', Escape(p.1));
    assert Piece(p) == Escape(p.0) + ['='] + Escape(p.1);
    EscapeRoundTrip(p.0);
    EscapeRoundTrip(p.1);
  }

  lemma RenderSplits(pairs: seq<(Str, Str)>)
    requires pairs != []
    ensures Before(Render(pairs), '&') == Piece(pairs[0]) && After(Render(pairs), '&') == Render(pairs[1..])
    ensures Render(pairs) != []
  {
    var piece, rest := Piece(pairs[0]), Render(pairs[1..]);
    PieceParses(pairs[0]);
    BeforeFirst(piece, '&', rest);
    if |pairs| > 1 { assert Render(pairs) == piece + ['&'] + rest; }
  }

  lemma {:induction false} RenderParses(pairs: seq<(Str, Str)>)
    ensures ParsePairs(Render(pairs)) == Some(pairs)
  {
    if pairs != [] {
      RenderSplits(pairs);
      PieceParses(pairs[0]);
      RenderParses(pairs[1..]);
      assert pairs == [pairs[0]] + pairs[1..];
    }
  }

  lemma GroupOne(pairs: seq<(Str, Str)>, more: seq<(Str, Str)>, k: Str, v: Str)
    ensures
      var m := Group(pairs + more);
      Group(pairs + (more + [(k, v)])) == m[k := ValuesOf(m, k) + [v]]
  {
    SplitLast(pairs, more, (k, v));
  }

  /** `m` with more values behind those of `k`. */
  function Put(m: Values, k: Str, vs: seq<Str>): Values {
    if vs == [] then m else m[k := ValuesOf(m, k) + vs]
  }

  lemma PutMore(m: Values, k: Str, init: seq<Str>, v: Str)
    ensures
      var p := Put(m, k, init);
      p[k := ValuesOf(p, k) + [v]] == Put(m, k, init + [v])
  {
    SplitLast(ValuesOf(m, k), init, v);
    if init == [] { assert [] + [v] == [v]; }
  }

  lemma GroupOneMore(pairs: seq<(Str, Str)>, k: Str, init: seq<Str>, v: Str)
    requires Group(pairs + WithKey(k, init)) == Put(Group(pairs), k, init)
    ensures Group(pairs + (WithKey(k, init) + [(k, v)])) == Put(Group(pairs), k, init + [v])
  {
    GroupOne(pairs, WithKey(k, init), k, v);
    PutMore(Group(pairs), k, init, v);
  }

  lemma {:induction false} GroupWithKey(pairs: seq<(Str, Str)>, k: Str, vs: seq<Str>)
    ensures Group(pairs + WithKey(k, vs)) == Put(Group(pairs), k, vs)
  {
    if vs == [] {
      assert pairs + WithKey(k, vs) == pairs;
    } else {
      var init, v := vs[..|vs| - 1], vs[|vs| - 1];
      GroupWithKey(pairs, k, init);
      GroupOneMore(pairs, k, init, v);
      assert vs == init + [v];
      assert WithKey(k, vs) == WithKey(k, init) + [(k, v)];
    }
  }

  lemma SplitLast<T>(a: seq<T>, b: seq<T>, x: T)
    ensures
      var all := a + (b + [x]);
      all[..|all| - 1] == a + b && all[|all| - 1] == x && all == a + b + [x]
  {}

  /** The restriction of `m` to the listed keys. */
  function Only(m: Values, keys: set<Str>): Values {
    map k | k in m && k in keys :: m[k]
  }

  lemma {:induction false} GroupFlat(m: Values, keys: seq<Str>)
    requires forall k :: k in keys ==> k in m && m[k] != []
    requires Distinct(keys)
    ensures Group(Flat(m, keys)) == Only(m, Elems(keys))
  {
    if keys != [] {
      var init, k := keys[..|keys| - 1], keys[|keys| - 1];
      GroupFlat(m, init);
      assert keys == init + [k];
      GroupWithKey(Flat(m, init), k, m[k]);
      ExtendOnly(m, init, k);
    }
  }

  lemma ExtendOnly(m: Values, init: seq<Str>, k: Str)
    requires k in m && k !in init
    ensures Only(m, Elems(init + [k])) == Only(m, Elems(init))[k := ValuesOf(Only(m, Elems(init)), k) + m[k]]
  {
    ElemsMembership(init, k);
    ElemsAppend(init, k);
    assert [] + m[k] == m[k];
  }

  lemma {:induction false} GroupHasNoEmpty(pairs: seq<(Str, Str)>)
    ensures forall k :: k in Group(pairs) ==> Group(pairs)[k] != []
  {
    if pairs != [] { GroupHasNoEmpty(pairs[..|pairs| - 1]); }
  }

  lemma CanonicalParses(m: Values)
    requires forall k :: k in m ==> m[k] != []
    ensures Parse(Canonical(m)) == Some(m)
  {
    var keys := SortKeys(m.Keys);
    SortKeysMembers(m);
    RenderParses(Flat(m, keys));
    GroupFlat(m, keys);
    assert Only(m, Elems(keys)) == m;
  }

  // ----- main results -----

  /** Parsing the canonical query gives the original map without tracking keys, orders kept. */
  lemma QueryRoundTrip(raw: Str)
    requires Parse(raw).Some?
    ensures Parse(NormalizedQuery(raw)) == Some(Filtered(Parse(raw).value))
  {
    GroupHasNoEmpty(ParsePairs(raw).value);
    CanonicalParses(Filtered(Parse(raw).value));
  }

  /** Two parseable queries get the same key exactly when their filtered maps are equal. */
  lemma QueryKeyAgreement(a: Str, b: Str)
    requires Parse(a).Some? && Parse(b).Some?
    ensures NormalizedQuery(a) == NormalizedQuery(b) <==> Filtered(Parse(a).value) == Filtered(Parse(b).value)
  {
    QueryRoundTrip(a);
    QueryRoundTrip(b);
  }

  /** A normalised query is its own normal form, unparseable queries included. */
  lemma QueryIdempotent(raw: Str)
    ensures NormalizedQuery(NormalizedQuery(raw)) == NormalizedQuery(raw)
  {
    if Parse(raw).Some? {
      QueryRoundTrip(raw);
      var m := Filtered(Parse(raw).value);
      assert Filtered(m) == m;
    }
  }

  // ----- the loops -----

  lemma {:induction false} RenderAppend(pairs: seq<(Str, Str)>, p: (Str, Str))
    ensures Render(pairs + [p]) == if pairs == [] then Piece(p) else Render(pairs) + "&" + Piece(p)
  {
    if pairs != [] {
      assert (pairs + [p])[1..] == pairs[1..] + [p];
      RenderAppend(pairs[1..], p);
    }
  }

  lemma OneMoreDropped(m: Values, drop: set<Str>, todo: set<Str>, k: Str)
    ensures m - (drop - (todo - {k})) == if k in drop then m - (drop - todo) - {k} else m - (drop - todo)
  {}

  lemma AllDropped(m: Values, drop: set<Str>)
    ensures m - (drop - m.Keys) == m && m - (drop - {}) == m - drop
  {}

  /** Delete the tracking keys from the parsed map, visited in whatever order. */
  method DropTracking(parsed: Values) returns (values: Values)
    ensures values == Filtered(parsed)
  {
    var drop := TRACKING;
    values := parsed;
    var todo := parsed.Keys;
    AllDropped(parsed, drop);
    while todo != {}
      invariant todo <= parsed.Keys
      invariant values == parsed - (drop - todo)
      decreases |todo|
    {
      var k :| k in todo;
      OneMoreDropped(parsed, drop, todo, k);
      if k in drop {
        values := values - {k};
      }
      todo := todo - {k};
    }
  }

  lemma OneMoreDone(keys: set<Str>, todo: set<Str>, k: Str)
    requires k in todo && todo <= keys
    ensures k !in keys - todo && keys - todo + {k} == keys - (todo - {k})
  {}

  /** Enumerate the keys in whatever order, then sort them. */
  method SortedKeys(values: Values) returns (keys: seq<Str>)
    ensures keys == SortKeys(values.Keys)
  {
    var all := values.Keys;
    var todo := all;
    var found: seq<Str> := [];
    ElemsEmpty(found);
    while todo != {}
      invariant todo <= all
      invariant Distinct(found) && Elems(found) == all - todo
      decreases |todo|
    {
      var k :| k in todo;
      OneMoreDone(all, todo, k);
      AppendFresh(found, k);
      found := found + [k];
      todo := todo - {k};
    }
    assert all - todo == all;
    assert InsertAll(Less, found) == SortKeys(Elems(found)) by {
      LessIsStrictTotal();
      InsertAllIsSort(Less, found);
    }
    keys := InsertAll(Less, found);
  }

  /** Write one key's values behind what the builder holds. */
  method WriteKey(written: Str, k: Str, vs: seq<Str>, ghost done: seq<(Str, Str)>) returns (b: Str)
    requires written == Render(done)
    requires written == [] <==> done == []
    ensures b == Render(done + WithKey(k, vs))
    ensures b == [] <==> done + WithKey(k, vs) == []
  {
    b := written;
    assert done + WithKey(k, vs[..0]) == done;
    var j := 0;
    while j < |vs|
      invariant 0 <= j <= |vs|
      invariant b == Render(done + WithKey(k, vs[..j]))
      invariant b == [] <==> done + WithKey(k, vs[..j]) == []
    {
      ghost var pairs := done + WithKey(k, vs[..j]);
      assert vs[..j + 1][..j] == vs[..j];
      assert done + WithKey(k, vs[..j + 1]) == pairs + [(k, vs[j])];
      RenderAppend(pairs, (k, vs[j]));
      if b != [] {
        b := b + "&";
      }
      b := b + (Escape(k) + "=" + Escape(vs[j]));
      j := j + 1;
    }
    assert vs[..j] == vs;
  }

  lemma EmptyCanonical(m: Values)
    requires |m| == 0
    ensures Canonical(m) == []
  {
    assert m.Keys == {};
    ElemsEmpty(SortKeys(m.Keys));
  }

  lemma FlatStep(m: Values, keys: seq<Str>, i: nat)
    requires i < |keys| && forall k :: k in keys ==> k in m
    ensures Flat(m, keys[..i + 1]) == Flat(m, keys[..i]) + WithKey(keys[i], m[keys[i]])
  {
    assert keys[..i + 1][..i] == keys[..i];
  }

  /** The nested loops: keys in the given order, each with its values. */
  method WriteAll(values: Values, keys: seq<Str>) returns (b: Str)
    requires forall k :: k in keys ==> k in values
    ensures b == Render(Flat(values, keys))
  {
    b := [];
    ghost var done: seq<(Str, Str)> := [];
    var i := 0;
    while i < |keys|
      invariant 0 <= i <= |keys|
      invariant done == Flat(values, keys[..i])
      invariant b == Render(done) && (b == [] <==> done == [])
    {
      FlatStep(values, keys, i);
      b := WriteKey(b, keys[i], values[keys[i]], done);
      done := done + WithKey(keys[i], values[keys[i]]);
      i := i + 1;
    }
    assert keys[..i] == keys;
  }

  lemma EmptyQuery()
    ensures NormalizedQuery([]) == []
  {
    EmptyCanonical(Filtered(map[]));
  }

  /** The kept keys in order, or nothing when none is kept. */
  method RenderSorted(values: Values) returns (r: Str)
    ensures r == Canonical(values)
  {
    if |values| == 0 {
      EmptyCanonical(values);
      return [];
    }
    var keys := SortedKeys(values);
    SortKeysMembers(values);
    r := WriteAll(values, keys);
  }

  method NormalizeQuery(raw: Str) returns (r: Str)
    ensures r == NormalizedQuery(raw)
  {
    if raw == [] {
      EmptyQuery();
      return [];
    }
    var parsed := Parse(raw);
    if parsed.None? {
      return raw;
    }
    var values := DropTracking(parsed.value);
    r := RenderSorted(values);
  }
}
