/** The composite follow cursor: base64url of timestamp, '|', peer. */
module FollowCursor {
  import opened Text
  import opened Wrappers
  import Base64
  import Rfc3339

  /** Index of the first `c` in `s`, or -1. */
  function IndexByte(s: Str, c: Byte): (r: int)
    ensures -1 <= r < |s|
    ensures r == -1 ==> c !in s
    ensures r >= 0 ==> s[r] == c && c !in s[..r]
  {
    if s == [] then -1
    else if s[0] == c then 0
    else
      var k := IndexByte(s[1..], c);
      if k < 0 then -1 else k + 1
  }

  function EncodeFollow(t: Rfc3339.Time, peer: Str): Str {
    Base64.Encode(Rfc3339.Format(t) + "|" + peer)
  }

  /** Whatever a client sends, an accepted cursor holds a valid instant and a peer. */
  function DecodeFollow(cursor: Option<Str>): (r: Option<(Rfc3339.Time, Str)>)
    ensures r.Some? ==> Rfc3339.Valid(r.value.0) && r.value.1 != []
  {
    if cursor.None? || cursor.value == [] then None
    else
      var raw := Base64.Decode(cursor.value);
      if raw.None? then None
      else
        var idx := IndexByte(raw.value, '|');
        if idx <= 0 || idx == |raw.value| - 1 then None
        else
          var t := Rfc3339.Parse(raw.value[..idx]);
          if t.None? then None else Some((t.value, raw.value[idx + 1..]))
  }

  lemma {:induction false} IndexAfterPrefix(a: Str, c: Byte, b: Str)
    requires forall i :: 0 <= i < |a| ==> a[i] != c
    ensures IndexByte(a + [c] + b, c) == |a|
  {
    if a == [] {
      assert a + [c] + b == [c] + b;
    } else {
      IndexAfterPrefix(a[1..], c, b);
      assert (a + [c] + b)[1..] == a[1..] + [c] + b;
    }
  }

  /** The cursor survives the round trip exactly for non-empty peers, '|' included. */
  lemma CursorRoundTrip(t: Rfc3339.Time, peer: Str)
    requires Rfc3339.Valid(t)
    ensures DecodeFollow(Some(EncodeFollow(t, peer))) == Some((t, peer)) <==> peer != []
    ensures peer == [] ==> DecodeFollow(Some(EncodeFollow(t, peer))) == None
    ensures EncodeFollow(t, peer) != []
  {
    var f := Rfc3339.Format(t);
    var raw := f + "|" + peer;
    Base64.RoundTrip(raw);
    Rfc3339.FormatHasNoBar(t);
    Rfc3339.RoundTrip(t);
    assert raw == f + ['|'] + peer;
    IndexAfterPrefix(f, '|', peer);
    assert raw[..|f|] == f;
    assert raw[|f| + 1..] == peer;
  }

  /** Distinct positions get distinct cursors. */
  lemma CursorInjective(t: Rfc3339.Time, p: Str, t': Rfc3339.Time, p': Str)
    requires Rfc3339.Valid(t) && Rfc3339.Valid(t') && p != [] && p' != []
    requires EncodeFollow(t, p) == EncodeFollow(t', p')
    ensures t == t' && p == p'
  {
    CursorRoundTrip(t, p);
    CursorRoundTrip(t', p');
  }
}
