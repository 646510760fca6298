/** Unpadded base64url, section 5 of RFC 4648, as Go's RawURLEncoding decodes it. */
module Base64 {
  import opened Text
  import opened Wrappers

  function CharOf(v: nat): Byte
    requires v < 64
  {
    if v < 26 then ('A' as int + v) as char
    else if v < 52 then ('a' as int + v - 26) as char
    else if v < 62 then ('0' as int + v - 52) as char
    else if v == 62 then '-'
    else '_'
  }

  function ValueOf(c: Byte): (r: Option<nat>)
    ensures r.Some? ==> r.value < 64
  {
    if 'A' <= c <= 'Z' then Some(c as int - 'A' as int)
    else if 'a' <= c <= 'z' then Some(c as int - 'a' as int + 26)
    else if '0' <= c <= '9' then Some(c as int - '0' as int + 52)
    else if c == '-' then Some(62)
    else if c == '_' then Some(63)
    else None
  }

  type Sextet = n: nat | n < 64

  /** Three bytes make four sextets; a short tail makes two or three. */
  function Cut(b: Str): seq<Sextet> {
    if |b| == 0 then []
    else
      var x := b[0] as int;
      if |b| == 1 then [x / 4, x % 4 * 16]
      else
        var y := b[1] as int;
        if |b| == 2 then [x / 4, x % 4 * 16 + y / 16, y % 16 * 4]
        else
          var z := b[2] as int;
          [x / 4, x % 4 * 16 + y / 16, y % 16 * 4 + z / 64, z % 64] + Cut(b[3..])
  }

  function First(p: Sextet, q: Sextet): Byte {
    (p * 4 + q / 16) as char
  }

  function Second(q: Sextet, r: Sextet): Byte {
    (q % 16 * 16 + r / 4) as char
  }

  function Third(r: Sextet, t: Sextet): Byte {
    (r % 4 * 64 + t) as char
  }

  /** Leftover bits of a short tail are ignored; a lone sextet is an error. */
  function Join(v: seq<Sextet>): Option<Str> {
    if |v| == 0 then Some([])
    else if |v| == 1 then None
    else if |v| == 2 then Some([First(v[0], v[1])])
    else if |v| == 3 then Some([First(v[0], v[1]), Second(v[1], v[2])])
    else
      var rest := Join(v[4..]);
      if rest.None? then None
      else Some([First(v[0], v[1]), Second(v[1], v[2]), Third(v[2], v[3])] + rest.value)
  }

  function Chars(v: seq<Sextet>): Str {
    if v == [] then [] else [CharOf(v[0])] + Chars(v[1..])
  }

  /** The sextets of a text; carriage returns and line feeds are skipped. */
  function Values(s: Str): Option<seq<Sextet>> {
    if s == [] then Some([])
    else
      var rest := Values(s[1..]);
      if s[0] == '\r' || s[0] == '\n' then rest
      else
        var v := ValueOf(s[0]);
        if v.None? || rest.None? then None else Some([v.value] + rest.value)
  }

  function Encode(b: Str): Str {
    Chars(Cut(b))
  }

  function Decode(s: Str): Option<Str> {
    var v := Values(s);
    if v.None? then None else Join(v.value)
  }

  lemma CharRoundTrip(v: Sextet)
    ensures ValueOf(CharOf(v)) == Some(v)
    ensures CharOf(v) != '\r' && CharOf(v) != '\n'
  {}

  lemma {:induction false} CharsRoundTrip(v: seq<Sextet>)
    ensures Values(Chars(v)) == Some(v)
  {
    if v != [] {
      CharRoundTrip(v[0]);
      CharsRoundTrip(v[1..]);
      assert Chars(v)[1..] == Chars(v[1..]);
      assert v == [v[0]] + v[1..];
    }
  }

  /** Three bytes cut into sextets join back into the same bytes. */
  lemma SextetsJoin(x: nat, y: nat, z: nat)
    requires x < 256 && y < 256 && z < 256
    ensures x / 4 * 4 + (x % 4 * 16 + y / 16) / 16 == x
    ensures (x % 4 * 16 + y / 16) % 16 * 16 + (y % 16 * 4 + z / 64) / 4 == y
    ensures (y % 16 * 4 + z / 64) % 4 * 64 + z % 64 == z
  {}

  lemma {:induction false} CutRoundTrip(b: Str)
    ensures Join(Cut(b)) == Some(b)
  {
    var v := Cut(b);
    if |b| >= 3 {
      SextetsJoin(b[0] as int, b[1] as int, b[2] as int);
      CutRoundTrip(b[3..]);
      assert v[4..] == Cut(b[3..]);
      assert b == [b[0], b[1], b[2]] + b[3..];
    } else if |b| == 2 {
      SextetsJoin(b[0] as int, b[1] as int, 0);
      assert b == [b[0], b[1]];
    } else if |b| == 1 {
      SextetsJoin(b[0] as int, 0, 0);
      assert b == [b[0]];
    }
  }

  /** Decoding undoes encoding, for every byte string. */
  lemma RoundTrip(b: Str)
    ensures Decode(Encode(b)) == Some(b)
  {
    CharsRoundTrip(Cut(b));
    CutRoundTrip(b);
  }
}
