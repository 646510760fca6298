/** URL normalisation over a parsed record, and the cache key it yields. */
module Normalizer {
  import opened Text
  import opened Wrappers
  import UrlPath
  import UrlQuery

  /**
   `host` is Go's URL.Host: a name or bracketed literal with an optional ":port".
   `path` is decoded; `rawPath` is the encoding hint that only rendering looks at.
   */
  datatype Url = Url(
    scheme: Str, user: Str, host: Str, path: Str, rawPath: Str, forceQuery: bool, query: Str, fragment: Str)

  /**
   Library steps taken as given: the IP literal test, and the IDNA lookup conversion
   together with the lower-casing of letters outside ASCII.
   */
  datatype Host = Host(isIP: Str -> bool, toASCII: Str -> Option<Str>)

  function LowerByte(c: Byte): Byte {
    if 'A' <= c <= 'Z' then (c as int + 32) as char else c
  }

  function Lower(s: Str): Str {
    if s == [] then [] else [LowerByte(s[0])] + Lower(s[1..])
  }

  predicate EndsWithDot(s: Str) {
    s != [] && s[|s| - 1] == '.'
  }

  function TrimDot(s: Str): Str {
    if EndsWithDot(s) then s[..|s| - 1] else s
  }

  predicate Digits(s: Str) {
    forall i :: 0 <= i < |s| ==> '0' <= s[i] <= '9'
  }

  /** Index of the last ':' or -1. */
  function LastColon(s: Str): (r: int)
    ensures -1 <= r < |s|
    ensures r >= 0 ==> s[r] == ':'
    ensures forall i :: r < i < |s| ==> s[i] != ':'
  {
    if s == [] then -1
    else if s[|s| - 1] == ':' then |s| - 1
    else LastColon(s[..|s| - 1])
  }

  predicate Bracketed(s: Str) {
    |s| >= 2 && s[0] == '[' && s[|s| - 1] == ']'
  }

  function Unbracket(s: Str): Str {
    if Bracketed(s) then s[1..|s| - 1] else s
  }

  /** Go's URL.Hostname and URL.Port. */
  function SplitHostPort(hostPort: Str): (Str, Str) {
    var colon := LastColon(hostPort);
    if colon >= 0 && Digits(hostPort[colon + 1..])
    then (Unbracket(hostPort[..colon]), hostPort[colon + 1..])
    else (Unbracket(hostPort), [])
  }

  function JoinHostPort(host: Str, port: Str): Str {
    if port == [] then (if ':' in host then "[" + host + "]" else host)
    else if ':' in host then "[" + host + "]:" + port
    else host + ":" + port
  }

  function DefaultPort(scheme: Str): Str {
    if scheme == "http" then "80" else if scheme == "https" then "443" else []
  }

  /** Lowercase, drop one trailing dot, convert unless it is an IP literal. */
  function NormalizeHost(env: Host, name: Str): Option<Str> {
    var host := TrimDot(Lower(name));
    if host == [] then None
    else if env.isIP(host) then Some(host)
    else env.toASCII(host)
  }

  function NormalizePort(scheme: Str, port: Str): Str {
    if port == DefaultPort(scheme) then [] else port
  }

  /** An http or https URL whose host can be normalised. */
  predicate Accepted(env: Host, u: Url) {
    && (Lower(u.scheme) == "http" || Lower(u.scheme) == "https")
    && NormalizeHost(env, SplitHostPort(u.host).0).Some?
  }

  /** The host field: the normalised name and a port that is not the default. */
  function NormalizedHost(env: Host, u: Url): Str
    requires Accepted(env, u)
  {
    var (name, port) := SplitHostPort(u.host);
    JoinHostPort(NormalizeHost(env, name).value, NormalizePort(Lower(u.scheme), port))
  }

  ghost function Normalize(env: Host, u: Url): Option<Url> {
    if !Accepted(env, u) then None
    else
      Some(u.(
        scheme := Lower(u.scheme),
        host := NormalizedHost(env, u),
        path := UrlPath.NormalizePath(u.path),
        query := UrlQuery.NormalizedQuery(u.query),
        fragment := []))
  }

  /** The fields of a URL, overwritten one after the other. */
  class Parsed {
    var scheme: Str
    var user: Str
    var host: Str
    var path: Str
    var rawPath: Str
    var forceQuery: bool
    var query: Str
    var fragment: Str

    ghost function View(): Url
      reads this
    {
      Url(scheme, user, host, path, rawPath, forceQuery, query, fragment)
    }

    method NormalizeInPlace(env: Host) returns (ok: bool)
      modifies this
      ensures Normalize(env, old(View())) == if ok then Some(View()) else None
    {
      ghost var u := View();
      var s := Lower(scheme);
      if s != "http" && s != "https" {
        return false;
      }
      scheme := s;
      var (name, port) := SplitHostPort(host);
      var h := NormalizeHost(env, name);
      if h.None? {
        return false;
      }
      if port != [] && DefaultPort(s) == port {
        port := [];
      }
      host := JoinHostPort(h.value, port);
      path := UrlPath.NormalizePath(path);
      fragment := [];
      var q := UrlQuery.NormalizeQuery(query);
      query := q;
      ok := true;
      assert port == NormalizePort(s, SplitHostPort(u.host).1);
    }
  }

  /**
   What the two host steps are assumed to do. A converted name is lower case, converts
   to itself and has no brackets; it may be empty, and it may end with a dot its
   source did not have. An IP literal has neither a trailing dot nor brackets.
   */
  ghost predicate HostLaws(env: Host) {
    && (forall h, a :: env.toASCII(h) == Some(a) ==>
        Lower(a) == a && env.toASCII(a) == Some(a) && !Bracketed(a))
    && (forall a :: env.toASCII(a) == Some(a) && EndsWithDot(a) ==>
        env.toASCII(TrimDot(a)) == None || env.toASCII(TrimDot(a)) == Some(TrimDot(a)))
    && (forall h :: env.isIP(h) ==> !EndsWithDot(h) && !Bracketed(h))
  }

  /** The prefix "xn--" of an encoded label. */
  predicate EncodedAt(s: Str, i: nat) {
    i + 4 <= |s| && s[i] == 'x' && s[i + 1] == 'n' && s[i + 2] == '-' && s[i + 3] == '-'
  }

  /** Lower-case letters, digits, hyphens and dots, and no encoded label. */
  predicate Plain(s: Str) {
    && (forall i :: 0 <= i < |s| ==> 'a' <= s[i] <= 'z' || '0' <= s[i] <= '9' || s[i] == '-' || s[i] == '.')
    && (forall i :: 0 <= i < |s| ==> !EncodedAt(s, i))
  }

  /** A plain name that is converted at all is left alone. */
  ghost predicate PlainLaw(env: Host) {
    forall h :: Plain(h) && env.toASCII(h).Some? ==> env.toASCII(h) == Some(h)
  }

  /** Hosts that are already lower-case names, and nothing else. */
  ghost function PlainHosts(): Host {
    Host(_ => false, h => if Lower(h) != h || Bracketed(h) then None else Some(h))
  }

  /** The assumptions can be met. */
  lemma PlainHostsObeyLaws()
    ensures HostLaws(PlainHosts()) && PlainLaw(PlainHosts())
  {
    var env := PlainHosts();
    forall a | env.toASCII(a) == Some(a) && EndsWithDot(a)
      ensures env.toASCII(TrimDot(a)) == None || env.toASCII(TrimDot(a)) == Some(TrimDot(a))
    {}
  }

  lemma {:induction false} LowerIdempotent(s: Str)
    ensures Lower(Lower(s)) == Lower(s) && |Lower(s)| == |s|
    ensures forall i :: 0 <= i < |s| ==> Lower(s)[i] == LowerByte(s[i])
  {
    if s != [] {
      LowerIdempotent(s[1..]);
    }
  }

  lemma LowerOfTrimmed(s: Str)
    ensures Lower(TrimDot(Lower(s))) == TrimDot(Lower(s))
  {
    var l := Lower(s);
    LowerIdempotent(s);
    LowerIdempotent(TrimDot(l));
    forall i | 0 <= i < |TrimDot(l)| ensures LowerByte(TrimDot(l)[i]) == TrimDot(l)[i] {
      assert l[i] == LowerByte(s[i]);
    }
    assert Lower(TrimDot(l)) == TrimDot(l);
  }

  lemma LastColonAt(s: Str, i: nat)
    requires i < |s| && s[i] == ':' && forall k :: i < k < |s| ==> s[k] != ':'
    ensures LastColon(s) == i
  {}

  lemma SplitAtPort(host: Str, port: Str)
    requires Digits(port)
    ensures SplitHostPort(host + ":" + port) == (Unbracket(host), port)
  {
    var j: Str := host + ":" + port;
    assert forall k :: |host| < k < |j| ==> j[k] == port[k - |host| - 1];
    LastColonAt(j, |host|);
    assert j[|host| + 1..] == port && j[..|host|] == host;
  }

  lemma SplitLiteral(host: Str)
    ensures SplitHostPort("[" + host + "]") == (host, [])
  {
    var b: Str := "[" + host + "]";
    assert Bracketed(b) && b[1..|b| - 1] == host;
    var c := LastColon(b);
    if c >= 0 {
      var tail := b[c + 1..];
      assert tail[|tail| - 1] == ']';
    }
  }

  /** Splitting undoes joining: IPv6 literals stay bracketed. */
  lemma SplitJoin(host: Str, port: Str)
    requires !Bracketed(host) && Digits(port)
    ensures SplitHostPort(JoinHostPort(host, port)) == (host, port)
  {
    if port == [] && ':' in host {
      SplitLiteral(host);
    } else if port == [] {
      assert LastColon(host) == -1;
    } else if ':' in host {
      var b: Str := "[" + host + "]";
      SplitAtPort(b, port);
      assert Bracketed(b) && b[1..|b| - 1] == host;
      assert "[" + host + "]:" + port == b + ":" + port;
    } else {
      SplitAtPort(host, port);
    }
  }

  /** A port read by SplitHostPort is all digits. */
  lemma SplitPortDigits(hostPort: Str)
    ensures Digits(SplitHostPort(hostPort).1)
  {}

  /** The first pass ends with a name that is neither empty nor followed by a dot. */
  predicate HostStays(env: Host, name: Str) {
    var h := TrimDot(Lower(name));
    env.isIP(h) || (env.toASCII(h).Some? && env.toASCII(h).value != [] && !EndsWithDot(env.toASCII(h).value))
  }

  /** A second pass over a normalised host leaves it alone exactly when the first one ended well. */
  lemma HostAgain(env: Host, name: Str)
    requires HostLaws(env) && NormalizeHost(env, name).Some?
    ensures
      var a := NormalizeHost(env, name).value;
      && !Bracketed(a)
      && (NormalizeHost(env, a) == Some(a) <==> HostStays(env, name))
  {
    var h := TrimDot(Lower(name));
    var a := NormalizeHost(env, name).value;
    LowerOfTrimmed(name);
    assert Lower(a) == a;
    if EndsWithDot(a) {
      assert env.toASCII(a) == Some(a);
      assert |TrimDot(a)| < |a|;
    }
  }

  lemma PortAgain(scheme: Str, port: Str)
    ensures NormalizePort(scheme, NormalizePort(scheme, port)) == NormalizePort(scheme, port)
  {}

  /** Everything but the host is already what a second pass would make it. */
  ghost predicate Settled(env: Host, n: Url, host: Str, port: Str) {
    HostSettled(n, host, port) && FieldsSettled(n)
  }

  predicate HostSettled(n: Url, host: Str, port: Str) {
    n.host == JoinHostPort(host, port) && SplitHostPort(n.host) == (host, port)
    && NormalizePort(n.scheme, port) == port
  }

  ghost predicate FieldsSettled(n: Url) {
    && (n.scheme == "http" || n.scheme == "https") && Lower(n.scheme) == n.scheme
    && UrlPath.NormalizePath(n.path) == n.path
    && UrlQuery.NormalizedQuery(n.query) == n.query
    && n.fragment == []
  }

  /** The host name and port a successful normalisation joins. */
  function NameAfter(env: Host, u: Url): Str
    requires NormalizeHost(env, SplitHostPort(u.host).0).Some?
  {
    NormalizeHost(env, SplitHostPort(u.host).0).value
  }

  function PortAfter(u: Url): Str {
    NormalizePort(Lower(u.scheme), SplitHostPort(u.host).1)
  }

  lemma PortAfterDigits(u: Url)
    ensures Digits(PortAfter(u))
  {
    SplitPortDigits(u.host);
    PortKeptOrDropped(Lower(u.scheme), SplitHostPort(u.host).1);
  }

  lemma PortKeptOrDropped(scheme: Str, port: Str)
    ensures NormalizePort(scheme, port) == port || |NormalizePort(scheme, port)| == 0
  {}

  lemma FieldsAreSettled(env: Host, u: Url)
    requires Accepted(env, u)
    ensures FieldsSettled(Normalize(env, u).value)
  {
    LowerIdempotent(u.scheme);
    UrlPath.PathIdempotent(u.path);
    UrlQuery.QueryIdempotent(u.query);
  }

  lemma NormalizedIsSettled(env: Host, u: Url)
    requires Accepted(env, u) && !Bracketed(NameAfter(env, u))
    ensures Settled(env, Normalize(env, u).value, NameAfter(env, u), PortAfter(u))
  {
    FieldsAreSettled(env, u);
    PortAfterDigits(u);
    SplitJoin(NameAfter(env, u), PortAfter(u));
    PortAgain(Lower(u.scheme), SplitHostPort(u.host).1);
  }

  lemma SettledIsFixed(env: Host, n: Url, host: Str, port: Str)
    requires Settled(env, n, host, port) && NormalizeHost(env, host) == Some(host)
    ensures Normalize(env, n) == Some(n)
  {}

  /**
   Normalising again changes nothing exactly when the host conversion ended with a name
   that is neither empty nor followed by a dot: one trailing dot is removed per pass,
   before the conversion.
   */
  lemma NormalizeAgain(env: Host, u: Url)
    requires HostLaws(env) && Accepted(env, u)
    ensures
      var n := Normalize(env, u).value;
      Normalize(env, n) == Some(n) <==> HostStays(env, SplitHostPort(u.host).0)
  {
    var n, host := Normalize(env, u).value, NameAfter(env, u);
    HostAgain(env, SplitHostPort(u.host).0);
    NormalizedIsSettled(env, u);
    if NormalizeHost(env, host) == Some(host) {
      SettledIsFixed(env, n, host, PortAfter(u));
    } else {
      NameAfterIsLower(env, u);
      PortAfterDigits(u);
      DotChanges(env, n, host, PortAfter(u));
    }
  }

  predicate TwoTrailingDots(s: Str) {
    |s| >= 2 && s[|s| - 1] == '.' && s[|s| - 2] == '.'
  }

  lemma PlainOfTrimmed(s: Str)
    requires Plain(s)
    ensures Plain(TrimDot(s))
  {
    var t := TrimDot(s);
    forall i | 0 <= i < |t| ensures !EncodedAt(t, i) { assert !EncodedAt(s, i); }
  }

  lemma DotsOfLower(s: Str)
    ensures TwoTrailingDots(s) <==> EndsWithDot(TrimDot(Lower(s)))
  {
    LowerIdempotent(s);
    var l := Lower(s);
    if |s| >= 1 { assert l[|s| - 1] == LowerByte(s[|s| - 1]); }
    if |s| >= 2 { assert l[|s| - 2] == LowerByte(s[|s| - 2]); }
  }

  /** For a plain host name the condition is that it has at most one trailing dot. */
  lemma PlainHostStays(env: Host, name: Str)
    requires HostLaws(env) && PlainLaw(env) && Plain(Lower(name)) && NormalizeHost(env, name).Some?
    ensures HostStays(env, name) <==> !TwoTrailingDots(name)
  {
    PlainOfTrimmed(Lower(name));
    DotsOfLower(name);
  }

  lemma NameAfterIsLower(env: Host, u: Url)
    requires HostLaws(env) && NormalizeHost(env, SplitHostPort(u.host).0).Some?
    ensures Lower(NameAfter(env, u)) == NameAfter(env, u)
  {
    LowerOfTrimmed(SplitHostPort(u.host).0);
  }

  /** The host field a successful normalisation writes. */
  lemma NormalizedHostField(env: Host, n: Url)
    requires Accepted(env, n)
    ensures Normalize(env, n).Some? && Normalize(env, n).value.host == NormalizedHost(env, n)
  {}

  lemma DotChanges(env: Host, n: Url, host: Str, port: Str)
    requires HostLaws(env) && NormalizeHost(env, host) != Some(host)
    requires HostSettled(n, host, port) && Lower(n.scheme) == n.scheme && Digits(port)
    requires Lower(host) == host && !Bracketed(host)
    ensures Normalize(env, n) != Some(n)
  {
    if Normalize(env, n) == Some(n) {
      NormalizedHostField(env, n);
      NameNotBracketed(env, host);
      SplitJoin(NormalizeHost(env, host).value, port);
    }
  }

  lemma NameNotBracketed(env: Host, host: Str)
    requires HostLaws(env) && NormalizeHost(env, host).Some?
    ensures !Bracketed(NormalizeHost(env, host).value)
  {}

  /** Two trailing dots defeat the key: the refetched URL normalises to another host. */
  lemma TwoDotsAreNotStable(env: Host, rest: Url)
    requires HostLaws(env) && !env.isIP("a.") && env.toASCII("a.") == Some("a.")
    requires Lower(rest.scheme) == "http"
    ensures
      var u := rest.(host := "a..");
      Normalize(env, u).Some? && Normalize(env, Normalize(env, u).value) != Normalize(env, u)
  {
    var u := rest.(host := "a..");
    TwoDotsHost(env);
    NormalizeAgain(env, u);
    NormalizedIsSettled(env, u);
  }

  lemma TwoDotsHost(env: Host)
    requires !env.isIP("a.") && env.toASCII("a.") == Some("a.")
    ensures SplitHostPort("a..") == ("a..", []) && NormalizeHost(env, "a..") == Some("a.")
  {
    assert LastColon("a..") == -1;
    LowerIdempotent("a..");
    assert Lower("a..") == "a..";
    assert TrimDot("a..") == "a.";
  }

  /** A host of ignored code points converts to the empty name, and the second pass has no host. */
  lemma EmptiedHostFails(env: Host, u: Url)
    requires HostLaws(env) && Accepted(env, u)
    requires var h := TrimDot(Lower(SplitHostPort(u.host).0)); !env.isIP(h) && env.toASCII(h) == Some([])
    ensures Normalize(env, Normalize(env, u).value) == None
  {
    EmptiedName(env, u);
    NormalizedName(env, u);
    NormalizedHostField(env, u);
    NoNameFails(env, Normalize(env, u).value, PortAfter(u));
  }

  lemma EmptiedName(env: Host, u: Url)
    requires NormalizeHost(env, SplitHostPort(u.host).0).Some?
    requires var h := TrimDot(Lower(SplitHostPort(u.host).0)); !env.isIP(h) && env.toASCII(h) == Some([])
    ensures NameAfter(env, u) == []
  {}

  /** The name and port read back from a normalised host. */
  lemma NormalizedName(env: Host, u: Url)
    requires Accepted(env, u) && !Bracketed(NameAfter(env, u))
    ensures SplitHostPort(NormalizedHost(env, u)) == (NameAfter(env, u), PortAfter(u))
  {
    PortAfterDigits(u);
    SplitJoin(NameAfter(env, u), PortAfter(u));
  }

  lemma NoNameFails(env: Host, n: Url, port: Str)
    requires SplitHostPort(n.host) == ([], port)
    ensures Normalize(env, n) == None
  {
    assert NormalizeHost(env, []) == None;
  }

  /** A host ending in U+3002, which has no ASCII dot, converts to one that has. */
  lemma MappedDotIsNotStable(env: Host, rest: Url)
    requires HostLaws(env) && Lower(rest.scheme) == "http"
    requires !env.isIP("a\U{E3}\U{80}\U{82}") && env.toASCII("a\U{E3}\U{80}\U{82}") == Some("a.")
    ensures
      var u := rest.(host := "a\U{E3}\U{80}\U{82}");
      Normalize(env, u).Some? && Normalize(env, Normalize(env, u).value) != Normalize(env, u)
  {
    var name: Str := "a\U{E3}\U{80}\U{82}";
    var u := rest.(host := name);
    assert LastColon(name) == -1;
    LowerIdempotent(name);
    assert Lower(name) == name;
    NormalizeAgain(env, u);
  }

  // ----- the key stored on a job and the key recomputed by the fetcher -----

  /** Trimming white space, parsing and rendering, which libraries do, and the digest. */
  datatype Codec = Codec(trim: Str -> Str, parse: Str -> Option<Url>, render: Url -> Str, hash: Str -> Str)

  ghost function NormalizeText(env: Host, c: Codec, raw: Str): Option<Str> {
    var u := c.parse(c.trim(raw));
    if u.None? then None
    else
      var n := Normalize(env, u.value);
      if n.None? then None else Some(c.render(n.value))
  }

  /** The hash the enqueuer stores, and the one Fetch computes from the stored URL. */
  ghost function FetchHash(env: Host, c: Codec, jobUrl: Str): Option<Str> {
    var n := NormalizeText(env, c, jobUrl);
    if n.None? then None else Some(c.hash(n.value))
  }

  /** The text of a record reads back as that record, up to the encoding hint, and renders the same. */
  predicate ReadsBack(c: Codec, n: Url) {
    var text := c.render(n);
    && c.parse(text).Some? && c.parse(text).value.(rawPath := n.rawPath) == n
    && c.render(c.parse(text).value) == text && '#' !in text
  }

  /**
   The laws of the libraries, each only for records some text parses to. Trimming is
   idempotent and adds no '#'; only a dropped fragment can leave white space at the end.
   */
  ghost predicate CodecLaws(env: Host, c: Codec) {
    && (forall raw, u :: c.parse(raw) == Some(u) && Normalize(env, u).Some? ==> ReadsBack(c, Normalize(env, u).value))
    && (forall x :: c.trim(c.trim(x)) == c.trim(x) && ('#' !in x ==> '#' !in c.trim(x)))
    && (forall t, u :: c.parse(t) == Some(u) && Normalize(env, u).Some? && c.trim(t) == t && '#' !in t ==>
        c.trim(c.render(Normalize(env, u).value)) == c.render(Normalize(env, u).value))
  }

  /** The encoding hint passes through. */
  lemma RawPathPasses(env: Host, u: Url, r: Str)
    ensures Normalize(env, u.(rawPath := r)).Some? <==> Normalize(env, u).Some?
    ensures Normalize(env, u).Some? ==>
      Normalize(env, u.(rawPath := r)).value == Normalize(env, u).value.(rawPath := r)
  {}

  /** Without a fragment nothing can leave white space at the end. */
  lemma NoFragmentNoSpace(env: Host, c: Codec, raw: Str)
    requires CodecLaws(env, c) && NormalizeText(env, c, raw).Some? && '#' !in raw
    ensures c.trim(NormalizeText(env, c, raw).value) == NormalizeText(env, c, raw).value
  {
    var t := c.trim(raw);
    assert c.trim(t) == t && '#' !in t;
    assert c.parse(t) == Some(c.parse(t).value);
  }

  /** Reading a rendered normal form and normalising it gives the same text as keeping the record. */
  lemma TextAgain(env: Host, c: Codec, n: Url)
    requires CodecLaws(env, c) && ReadsBack(c, n) && c.trim(c.render(n)) == c.render(n)
    ensures NormalizeText(env, c, c.render(n)) == Some(c.render(n)) <==> Normalize(env, n) == Some(n)
  {
    var url := c.render(n);
    var again := c.parse(url).value;
    RawPathPasses(env, n, again.rawPath);
    assert again == n.(rawPath := again.rawPath);
    if NormalizeText(env, c, url) == Some(url) {
      var w := Normalize(env, again).value;
      assert ReadsBack(c, w);
      assert Normalize(env, n).value.rawPath == n.rawPath;
    }
  }

  /**
   Normalising a stored URL gives it back, and Fetch recomputes the stored hash, exactly
   when the host conversion ended well and the URL does not end in white space.
   */
  lemma FetchKeyAgrees(env: Host, c: Codec, raw: Str)
    requires HostLaws(env) && CodecLaws(env, c)
    requires NormalizeText(env, c, raw).Some?
    ensures
      var url := NormalizeText(env, c, raw).value;
      var stays := HostStays(env, SplitHostPort(c.parse(c.trim(raw)).value.host).0) && c.trim(url) == url;
      && (NormalizeText(env, c, url) == Some(url) <==> stays)
      && (stays ==> FetchHash(env, c, url) == Some(c.hash(url)))
  {
    var u := c.parse(c.trim(raw)).value;
    var n := Normalize(env, u).value;
    NormalizeAgain(env, u);
    assert ReadsBack(c, n);
    if c.trim(c.render(n)) == c.render(n) {
      TextAgain(env, c, n);
    } else if NormalizeText(env, c, c.render(n)) == Some(c.render(n)) {
      NoFragmentNoSpace(env, c, c.render(n));
    }
  }

  /** A plain host with at most one trailing dot and no fragment: what a caller can see in the text. */
  lemma PlainKeyAgrees(env: Host, c: Codec, raw: Str)
    requires HostLaws(env) && PlainLaw(env) && CodecLaws(env, c)
    requires NormalizeText(env, c, raw).Some? && '#' !in raw
    requires Plain(Lower(SplitHostPort(c.parse(c.trim(raw)).value.host).0))
    ensures
      var url := NormalizeText(env, c, raw).value;
      NormalizeText(env, c, url) == Some(url) <==> !TwoTrailingDots(SplitHostPort(c.parse(c.trim(raw)).value.host).0)
  {
    FetchKeyAgrees(env, c, raw);
    PlainHostStays(env, SplitHostPort(c.parse(c.trim(raw)).value.host).0);
    NoFragmentNoSpace(env, c, raw);
  }

  // ----- the laws can be met -----

  predicate BareHost(h: Str) {
    Lower(h) == h && forall i :: 0 <= i < |h| ==> h[i] != ':' && h[i] != '#' && h[i] != '['
  }

  function BareUrl(h: Str): Url {
    Url("http", [], h, "/", [], false, [], [])
  }

  /** Texts of the form "http://" and a bare host. */
  function BareCodec(): Codec {
    Codec(
      (raw: Str) => raw,
      (raw: Str) => if |raw| >= 7 && raw[..7] == "http://" && BareHost(raw[7..]) then Some(BareUrl(raw[7..])) else None,
      (u: Url) => "http://" + u.host,
      (s: Str) => s)
  }

  lemma BareHostPort(h: Str)
    requires BareHost(h)
    ensures SplitHostPort(h) == (h, []) && JoinHostPort(TrimDot(h), []) == TrimDot(h)
    ensures BareHost(TrimDot(h)) && !Bracketed(TrimDot(h))
  {
    var t := TrimDot(h);
    LowerOfTrimmed(h);
    assert LastColon(h) == -1 && !Bracketed(h);
    forall i | 0 <= i < |t| ensures t[i] != ':' && t[i] != '#' && t[i] != '[' { assert t[i] == h[i]; }
  }

  lemma BareName(h: Str)
    requires BareHost(h)
    ensures NormalizeHost(PlainHosts(), h) == if TrimDot(h) == [] then None else Some(TrimDot(h))
  {
    BareHostPort(h);
    LowerOfTrimmed(h);
  }

  lemma SchemeIsLower()
    ensures Lower("http") == "http" && NormalizePort("http", []) == []
  {}

  lemma BareAccepted(h: Str)
    requires BareHost(h)
    ensures Accepted(PlainHosts(), BareUrl(h)) <==> TrimDot(h) != []
    ensures TrimDot(h) != [] ==> NormalizedHost(PlainHosts(), BareUrl(h)) == TrimDot(h)
  {
    BareHostPort(h);
    BareName(h);
    SchemeIsLower();
  }

  lemma BareNormalizes(h: Str)
    requires BareHost(h)
    ensures Normalize(PlainHosts(), BareUrl(h)) == if TrimDot(h) == [] then None else Some(BareUrl(TrimDot(h)))
  {
    BareAccepted(h);
    UrlQuery.EmptyQuery();
    SchemeIsLower();
    assert UrlPath.NormalizePath("/") == "/";
  }

  lemma BareReadsBack(h: Str)
    requires BareHost(h)
    ensures ReadsBack(BareCodec(), BareUrl(h)) && BareCodec().parse("http://" + h) == Some(BareUrl(h))
  {
    var text: Str := "http://" + h;
    assert text[..7] == "http://" && text[7..] == h;
    assert BareCodec().render(BareUrl(h)) == text;
    forall i | 0 <= i < |text| ensures text[i] != '#' {
      if i >= 7 { assert text[i] == h[i - 7]; }
    }
  }

  lemma BareCodecObeysLaws()
    ensures CodecLaws(PlainHosts(), BareCodec())
  {
    var env, c := PlainHosts(), BareCodec();
    forall raw, u | c.parse(raw) == Some(u) && Normalize(env, u).Some? ensures ReadsBack(c, Normalize(env, u).value) {
      BareNormalizes(u.host);
      BareHostPort(u.host);
      BareReadsBack(TrimDot(u.host));
    }
  }
}
