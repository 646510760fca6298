/**
 Which URLs get one normal form, said in the URLs' own terms: the scheme in any
 letter case, the host name, the port a client would connect to, the path's
 segments and the query's remaining keys.
 */
module UrlIdentity {
  import opened Text
  import opened Wrappers
  import opened Normalizer
  import UrlPath
  import UrlQuery

  function GivenName(u: Url): Str {
    SplitHostPort(u.host).0
  }

  function GivenPort(u: Url): Str {
    SplitHostPort(u.host).1
  }

  /** The port a client connects to: 80 for http and 443 for https unless one is given. */
  function EffectivePort(u: Url): Str {
    if GivenPort(u) != [] then GivenPort(u)
    else if Lower(u.scheme) == "http" then "80"
    else "443"
  }

  // ----- the host name -----

  /** Each letter loses its case and nothing else changes. */
  lemma LowerCase(s: Str, i: nat)
    requires i < |s|
    ensures |Lower(s)| == |s|
    ensures 'A' <= s[i] <= 'Z' ==> Lower(s)[i] as int - 'a' as int == s[i] as int - 'A' as int
    ensures !('A' <= s[i] <= 'Z') ==> Lower(s)[i] == s[i]
  {
    LowerIdempotent(s);
  }

  lemma LowerAppendDot(s: Str)
    ensures Lower(s + ".") == Lower(s) + "."
  {
    LowerIdempotent(s);
    LowerIdempotent(s + ".");
  }

  /** Letter case and one trailing dot do not matter: every spelling of a name ends up the same. */
  lemma NameSpelling(env: Host, name: Str, base: Str)
    requires base != [] && base[|base| - 1] != '.' && Lower(name) == base
    ensures NormalizeHost(env, name) == NormalizeHost(env, name + ".")
    ensures NormalizeHost(env, name) == if env.isIP(base) then Some(base) else env.toASCII(base)
  {
    LowerAppendDot(name);
    assert (base + ".")[..|base|] == base;
    assert TrimDot(base) == base && TrimDot(base + ".") == base;
  }

  lemma NoName(env: Host)
    ensures NormalizeHost(env, []).None? && NormalizeHost(env, ".").None?
  {
    assert Lower(".") == ".";
    assert TrimDot(".") == [];
  }

  // ----- the port -----

  /** A port is dropped exactly when it is the scheme's own: 80 for http, 443 for https. */
  lemma PortDropped(env: Host, u: Url)
    requires HostLaws(env) && Accepted(env, u)
    ensures
      var after := SplitHostPort(Normalize(env, u).value.host);
      && after.0 == NameAfter(env, u)
      && (after.1 == [] <==>
            || GivenPort(u) == []
            || (Lower(u.scheme) == "http" && GivenPort(u) == "80")
            || (Lower(u.scheme) == "https" && GivenPort(u) == "443"))
      && (after.1 != [] ==> after.1 == GivenPort(u))
  {
    NameNotBracketed(env, GivenName(u));
    NormalizedName(env, u);
    NormalizedHostField(env, u);
  }

  lemma HostIsNameAndPort(env: Host, u: Url)
    requires HostLaws(env) && Accepted(env, u)
    ensures SplitHostPort(NormalizedHost(env, u)) == (NameAfter(env, u), PortAfter(u))
    ensures NormalizedHost(env, u) == JoinHostPort(NameAfter(env, u), PortAfter(u))
  {
    NameNotBracketed(env, GivenName(u));
    NormalizedName(env, u);
  }

  lemma PortsAgree(u: Url, v: Url)
    requires Lower(u.scheme) == Lower(v.scheme) && (Lower(u.scheme) == "http" || Lower(u.scheme) == "https")
    ensures PortAfter(u) == PortAfter(v) <==> EffectivePort(u) == EffectivePort(v)
  {}

  /** One host field for one endpoint: the same name and the same port to connect to. */
  lemma SameHostSameEndpoint(env: Host, u: Url, v: Url)
    requires HostLaws(env) && Accepted(env, u) && Accepted(env, v) && Lower(u.scheme) == Lower(v.scheme)
    ensures NormalizedHost(env, u) == NormalizedHost(env, v) <==>
      NameAfter(env, u) == NameAfter(env, v) && EffectivePort(u) == EffectivePort(v)
  {
    HostIsNameAndPort(env, u);
    HostIsNameAndPort(env, v);
    PortsAgree(u, v);
  }

  // ----- the whole URL -----

  /** Equal up to tracking keys, key order and spelling; as text when one does not parse. */
  predicate SameQuery(a: Str, b: Str) {
    var m, n := UrlQuery.Parse(a), UrlQuery.Parse(b);
    if m.Some? && n.Some? then UrlQuery.Filtered(m.value) == UrlQuery.Filtered(n.value) else a == b
  }

  lemma QueriesAgree(a: Str, b: Str)
    ensures UrlQuery.NormalizedQuery(a) == UrlQuery.NormalizedQuery(b) <==> SameQuery(a, b)
  {
    if UrlQuery.Parse(a).Some? { UrlQuery.QueryRoundTrip(a); }
    if UrlQuery.Parse(b).Some? { UrlQuery.QueryRoundTrip(b); }
    if UrlQuery.Parse(a).Some? && UrlQuery.Parse(b).Some? { UrlQuery.QueryKeyAgreement(a, b); }
  }

  /** The path of a URL with a host: empty or starting with a slash. */
  predicate HostedPath(u: Url) {
    UrlPath.Absolute(u.path) || u.path == []
  }

  predicate SameEndpoint(env: Host, u: Url, v: Url)
    requires Accepted(env, u) && Accepted(env, v)
  {
    && Lower(u.scheme) == Lower(v.scheme)
    && NameAfter(env, u) == NameAfter(env, v)
    && EffectivePort(u) == EffectivePort(v)
  }

  predicate SameTarget(u: Url, v: Url) {
    && u.user == v.user
    && UrlPath.Segments(u.path) == UrlPath.Segments(v.path)
    && u.forceQuery == v.forceQuery
    && SameQuery(u.query, v.query)
  }

  /** The fields of a normal form. */
  lemma NormalFields(env: Host, u: Url)
    requires Accepted(env, u)
    ensures Normalize(env, u) == Some(Url(Lower(u.scheme), u.user, NormalizedHost(env, u),
      UrlPath.NormalizePath(u.path), u.rawPath, u.forceQuery, UrlQuery.NormalizedQuery(u.query), []))
  {}

  /**
   Two URLs have one normal form exactly when they name the same endpoint and the same
   target there; fragments never matter.
   */
  lemma SameFormSameResource(env: Host, u: Url, v: Url)
    requires HostLaws(env) && Accepted(env, u) && Accepted(env, v) && HostedPath(u) && HostedPath(v)
    ensures Normalize(env, u) == Normalize(env, v) <==>
      SameEndpoint(env, u, v) && SameTarget(u, v) && u.rawPath == v.rawPath
  {
    NormalFields(env, u);
    NormalFields(env, v);
    if Lower(u.scheme) == Lower(v.scheme) { SameHostSameEndpoint(env, u, v); }
    UrlPath.PathKeyAgreement(u.path, v.path);
    QueriesAgree(u.query, v.query);
  }

  /** Only http and https in any letter case are accepted, and any such URL whose name converts is. */
  lemma AcceptedExactly(env: Host, u: Url, base: Str)
    requires base != [] && base[|base| - 1] != '.' && Lower(GivenName(u)) == base
    ensures Normalize(env, u).Some? <==>
      && (Lower(u.scheme) == "http" || Lower(u.scheme) == "https")
      && (env.isIP(base) || env.toASCII(base).Some?)
  {
    NameSpelling(env, GivenName(u), base);
  }

  lemma RenderedAlike(env: Host, c: Codec, a: Str, b: Str)
    requires CodecLaws(env, c) && NormalizeText(env, c, a).Some? && NormalizeText(env, c, b).Some?
    requires NormalizeText(env, c, a) == NormalizeText(env, c, b)
    ensures
      var n := Normalize(env, c.parse(c.trim(a)).value).value;
      n.(rawPath := []) == Normalize(env, c.parse(c.trim(b)).value).value.(rawPath := [])
  {
    var n := Normalize(env, c.parse(c.trim(a)).value).value;
    var k := Normalize(env, c.parse(c.trim(b)).value).value;
    assert ReadsBack(c, n) && ReadsBack(c, k);
    var p := c.parse(c.render(n)).value;
    assert p.(rawPath := []) == p.(rawPath := n.rawPath).(rawPath := []);
    assert p.(rawPath := []) == p.(rawPath := k.rawPath).(rawPath := []);
  }

  /** Texts that share a stored key name the same resource: no preview is shown for another page. */
  lemma SameKeySameResource(env: Host, c: Codec, a: Str, b: Str)
    requires HostLaws(env) && CodecLaws(env, c)
    requires NormalizeText(env, c, a).Some? && NormalizeText(env, c, a) == NormalizeText(env, c, b)
    requires HostedPath(c.parse(c.trim(a)).value) && HostedPath(c.parse(c.trim(b)).value)
    ensures
      var u, v := c.parse(c.trim(a)).value, c.parse(c.trim(b)).value;
      SameEndpoint(env, u, v) && SameTarget(u, v)
  {
    var u, v := c.parse(c.trim(a)).value, c.parse(c.trim(b)).value;
    RenderedAlike(env, c, a, b);
    RawPathPasses(env, v, u.rawPath);
    NormalFields(env, u);
    NormalFields(env, v);
    var w := v.(rawPath := u.rawPath);
    SameFormSameResource(env, u, w);
  }

  /** The fetcher's hash depends on the normal form only: two spellings of one URL are cached under one key. */
  lemma OneFormOneHash(env: Host, c: Codec, a: Str, b: Str)
    requires NormalizeText(env, c, a).Some? && NormalizeText(env, c, a) == NormalizeText(env, c, b)
    ensures FetchHash(env, c, a) == FetchHash(env, c, b) == Some(c.hash(NormalizeText(env, c, a).value))
  {}
}
