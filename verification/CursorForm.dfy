/** The written form of cursors: where each timestamp field stands, and which bits each character carries. */
module CursorForm {
  import opened Text
  import opened Wrappers
  import opened Rfc3339
  import Base64

  // ----- section 5.6 of RFC 3339 -----

  /** Where six fields of the lengths of a date and time stand in the text. */
  lemma FieldsStand(y: Str, mo: Str, d: Str, h: Str, mi: Str, sec: Str)
    requires |y| == 4 && |mo| == 2 && |d| == 2 && |h| == 2 && |mi| == 2 && |sec| == 2
    ensures
      var s := y + "-" + mo + "-" + d + "T" + h + ":" + mi + ":" + sec;
      && s[4] == '-' && s[7] == '-' && s[10] == 'T' && s[13] == ':' && s[16] == ':'
      && s[0..4] == y && s[5..7] == mo && s[8..10] == d && s[11..13] == h && s[14..16] == mi && s[17..19] == sec
  {}

  lemma DateTimeLayout(t: Time)
    requires Valid(t)
    ensures
      var s := DateTime(t);
      && s[4] == '-' && s[7] == '-' && s[10] == 'T' && s[13] == ':' && s[16] == ':'
      && s[0..4] == Rfc3339.Digits(t.year, 4) && s[5..7] == Rfc3339.Digits(t.month, 2)
      && s[8..10] == Rfc3339.Digits(t.day, 2) && s[11..13] == Rfc3339.Digits(t.hour, 2)
      && s[14..16] == Rfc3339.Digits(t.minute, 2) && s[17..19] == Rfc3339.Digits(t.second, 2)
  {
    FieldsStand(Rfc3339.Digits(t.year, 4), Rfc3339.Digits(t.month, 2), Rfc3339.Digits(t.day, 2),
      Rfc3339.Digits(t.hour, 2), Rfc3339.Digits(t.minute, 2), Rfc3339.Digits(t.second, 2));
  }

  /** A two-digit field is written in decimal, most significant digit first. */
  lemma TwoDigits(n: nat)
    requires n < 100
    ensures
      var s := Rfc3339.Digits(n, 2);
      s[0] as int - '0' as int == n / 10 && s[1] as int - '0' as int == n % 10
  {
    LastDigits(n, 2);
    LastDigits(n / 10, 1);
  }

  lemma LastDigits(n: nat, w: nat)
    requires w > 0
    ensures Rfc3339.Digits(n, w)[..w - 1] == Rfc3339.Digits(n / 10, w - 1)
    ensures Rfc3339.Digits(n, w)[w - 1] as int - '0' as int == n % 10
  {}

  /** A year is its century's two digits and the two digits of the year in it. */
  lemma YearDigits(year: nat, century: nat, rest: nat)
    requires century < 100 && rest < 100 && year == 100 * century + rest
    ensures Rfc3339.Digits(year, 4)[..2] == Rfc3339.Digits(century, 2)
    ensures Rfc3339.Digits(year, 4)[2] as int - '0' as int == rest / 10
    ensures Rfc3339.Digits(year, 4)[3] as int - '0' as int == rest % 10
  {
    var decade := year / 10;
    LastDigits(year, 4);
    LastDigits(decade, 3);
    assert decade / 10 == century && decade % 10 == rest / 10;
    assert Rfc3339.Digits(year, 4)[..2] == Rfc3339.Digits(year, 4)[..3][..2];
    assert Rfc3339.Digits(year, 4)[2] == Rfc3339.Digits(year, 4)[..3][2];
  }

  /** "Z" ends the text; a fraction stands only when there is one, and never ends in a zero. */
  lemma FormatLayout(t: Time)
    requires Valid(t)
    ensures Format(t)[..19] == DateTime(t) && Format(t)[|Format(t)| - 1] == 'Z'
    ensures t.nano == 0 ==> |Format(t)| == 20
    ensures t.nano != 0 ==> |Format(t)| >= 22 && Format(t)[19] == '.' && Format(t)[|Format(t)| - 2] != '0'
  {
    if t.nano != 0 {
      var d := Rfc3339.Digits(t.nano, 9);
      assert Pow10(9) == 1_000_000_000;
      NumberOfDigits(t.nano, 9);
      TrimmedDigits(d);
      if TrimZeros(d) == [] { ZerosAreZero(d); }
      NoFinalZero(d);
      assert Format(t) == DateTime(t) + ("." + TrimZeros(d)) + "Z";
    }
  }

  lemma {:induction false} NoFinalZero(s: Str)
    ensures TrimZeros(s) == [] || TrimZeros(s)[|TrimZeros(s)| - 1] != '0'
  {
    if s != [] && s[|s| - 1] == '0' { NoFinalZero(s[..|s| - 1]); }
  }

  lemma TensAndOnes(m: nat, d: nat)
    requires d < 10
    ensures (m * 10 + d) / 10 == m && (m * 10 + d) % 10 == d
  {}

  lemma {:induction false} NumberHasDigits(s: Str, n: nat)
    requires Number(s) == Some(n)
    ensures Rfc3339.Digits(n, |s|) == s
  {
    if s != [] {
      var c, init := s[|s| - 1], s[..|s| - 1];
      var m := Number(init).value;
      NumberHasDigits(init, m);
      TensAndOnes(m, c as int - '0' as int);
      LastDigits(n, |s|);
      assert s == init + [c];
    }
  }

  /** Every accepted date and time is written exactly as formatting writes it. */
  lemma ReadDateTime(s: Str, nano: nat, t: Time)
    requires |s| == 19 && ParseDateTime(s, nano) == Some(t)
    ensures s == DateTime(t) && t.nano == nano
  {
    NumberHasDigits(s[0..4], t.year);
    NumberHasDigits(s[5..7], t.month);
    NumberHasDigits(s[8..10], t.day);
    NumberHasDigits(s[11..13], t.hour);
    NumberHasDigits(s[14..16], t.minute);
    NumberHasDigits(s[17..19], t.second);
    assert s == s[0..4] + [s[4]] + s[5..7] + [s[7]] + s[8..10] + [s[10]]
      + s[11..13] + [s[13]] + s[14..16] + [s[16]] + s[17..19];
  }

  predicate AllDigits(s: Str) {
    forall i :: 0 <= i < |s| ==> IsDigit(s[i])
  }

  lemma TenMore(a: nat, w: nat)
    requires w > 0
    ensures a * Pow10(w - 1) * 10 == a * Pow10(w)
  {}

  lemma NumberThenZero(s: Str)
    requires Number(s).Some?
    ensures Number(s + ['0']) == Some(Number(s).value * 10)
  {
    assert (s + ['0'])[..|s|] == s;
  }

  lemma {:induction false} ZerosScale(s: Str, w: nat)
    requires Number(s).Some?
    ensures Number(s + seq(w, _ => '0')) == Some(Number(s).value * Pow10(w))
  {
    if w == 0 {
      assert s + seq(w, _ => '0') == s;
    } else {
      var shorter := s + seq(w - 1, _ => '0');
      ZerosScale(s, w - 1);
      NumberThenZero(shorter);
      TenMore(Number(s).value, w);
      assert s + seq(w, _ => '0') == shorter + ['0'];
    }
  }

  lemma {:induction false} DigitsAreNumber(s: Str)
    requires AllDigits(s)
    ensures Number(s).Some?
  {
    if s != [] { DigitsAreNumber(s[..|s| - 1]); }
  }

  lemma FirstNine(d: Str, more: Str)
    requires 1 <= |d| <= 9 && (more != "" ==> |d| == 9)
    ensures NineDigits(d + more) == d + seq(9 - |d|, _ => '0')
  {
    if |d| == 9 {
      assert (d + more)[..9] == d && d + seq(0, _ => '0') == d;
    } else {
      assert d + more == d;
    }
  }

  lemma FractionDigits(f: Str)
    requires f != "" && AllDigits(f)
    ensures ParseFraction("." + f) == Number(NineDigits(f))
  {
    var s: Str := "." + f;
    assert s[1..] == f;
    forall i | 1 <= i < |s| ensures IsDigit(s[i]) { assert s[i] == f[i - 1]; }
  }

  /** A fraction counts its first nine digits, each a tenth of the one before, and ignores the rest. */
  lemma ReadFraction(d: Str, more: Str)
    requires 1 <= |d| <= 9 && AllDigits(d) && AllDigits(more) && (more != "" ==> |d| == 9)
    ensures Number(d).Some? && ParseFraction("." + (d + more)) == Some(Number(d).value * Pow10(9 - |d|))
  {
    DigitsAreNumber(d);
    FirstNine(d, more);
    FractionDigits(d + more);
    ZerosScale(d, 9 - |d|);
  }

  /** Only a text that ends in 'Z' with a well-formed date, time and fraction is accepted. */
  lemma ReadTimestamp(s: Str, t: Time)
    requires Parse(s) == Some(t)
    ensures |s| >= 20 && s[..19] == DateTime(t) && s[|s| - 1] == 'Z' && Valid(t)
    ensures |s| == 20 ==> t.nano == 0
    ensures |s| > 20 ==> |s| >= 22 && s[19] == '.' && AllDigits(s[20..|s| - 1])
  {
    var f := s[19..|s| - 1];
    ReadDateTime(s[..19], ParseFraction(f).value, t);
    if |s| > 20 {
      var d := s[20..|s| - 1];
      forall i | 0 <= i < |d| ensures IsDigit(d[i]) { assert d[i] == f[i + 1]; }
    }
  }

  // ----- section 5 of RFC 4648 -----

  /** Three bytes and their four characters carry the same 24 bits, most significant first. */
  lemma FullGroup(b: Str)
    requires |b| >= 3
    ensures
      var v := Base64.Cut(b);
      && |v| >= 4
      && v[0] as int * 0x4_0000 + v[1] as int * 0x1000 + v[2] as int * 0x40 + v[3] as int
         == b[0] as int * 0x1_0000 + b[1] as int * 0x100 + b[2] as int
      && v[4..] == Base64.Cut(b[3..])
  {}

  /** A short tail fills its last character with zero bits. */
  lemma ShortTail(b: Str)
    requires |b| < 3
    ensures
      var v := Base64.Cut(b);
      && |v| == (if |b| == 0 then 0 else |b| + 1)
      && (|b| == 1 ==> v[0] as int * 0x40 + v[1] as int == b[0] as int * 0x10)
      && (|b| == 2 ==> v[0] as int * 0x1000 + v[1] as int * 0x40 + v[2] as int == (b[0] as int * 0x100 + b[1] as int) * 4)
  {}

  lemma {:induction false} CharsAt(v: seq<Base64.Sextet>, i: nat)
    requires i < |v|
    ensures |Base64.Chars(v)| == |v| && Base64.Chars(v)[i] == Base64.CharOf(v[i])
  {
    if i > 0 { CharsAt(v[1..], i - 1); } else if |v| > 1 { CharsAt(v[1..], 0); }
  }

  /** The URL-safe alphabet: upper case, lower case, digits, '-' and '_'. */
  lemma Alphabet(v: Base64.Sextet)
    ensures v < 26 ==> Base64.CharOf(v) as int - 'A' as int == v
    ensures 26 <= v < 52 ==> Base64.CharOf(v) as int - 'a' as int == v - 26
    ensures 52 <= v < 62 ==> Base64.CharOf(v) as int - '0' as int == v - 52
    ensures Base64.CharOf(62) == '-' && Base64.CharOf(63) == '_'
  {}

  /** A character decoding takes for what it stands, or skips. */
  predicate Readable(c: Byte) {
    'A' <= c <= 'Z' || 'a' <= c <= 'z' || '0' <= c <= '9' || c == '-' || c == '_' || c == '\r' || c == '\n'
  }

  /** How many characters of a text are no line breaks. */
  function Significant(s: Str): nat {
    if s == "" then 0 else (if s[0] == '\r' || s[0] == '\n' then 0 else 1) + Significant(s[1..])
  }

  lemma {:induction false} ValuesExactly(s: Str)
    ensures Base64.Values(s).Some? <==> forall i :: 0 <= i < |s| ==> Readable(s[i])
    ensures Base64.Values(s).Some? ==> |Base64.Values(s).value| == Significant(s)
  {
    if s != [] { ValuesExactly(s[1..]); }
  }

  lemma {:induction false} JoinExactly(v: seq<Base64.Sextet>)
    ensures Base64.Join(v).None? <==> |v| % 4 == 1
  {
    if |v| >= 4 { JoinExactly(v[4..]); }
  }

  /** Line breaks anywhere are skipped. */
  lemma {:induction false} LineBreaksSkipped(a: Str, c: Byte, b: Str)
    requires c == '\r' || c == '\n'
    ensures Base64.Values(a + [c] + b) == Base64.Values(a + b)
  {
    if a == [] {
      assert a + [c] + b == [c] + b && ([c] + b)[1..] == b && a + b == b;
    } else {
      assert (a + [c] + b)[1..] == a[1..] + [c] + b && (a + b)[1..] == a[1..] + b;
      LineBreaksSkipped(a[1..], c, b);
    }
  }

  /** A text decodes exactly when all its characters are readable and groups of four leave no lone one over. */
  lemma DecodesExactly(s: Str)
    ensures Base64.Decode(s).Some? <==>
      (forall i :: 0 <= i < |s| ==> Readable(s[i])) && Significant(s) % 4 != 1
  {
    ValuesExactly(s);
    if Base64.Values(s).Some? { JoinExactly(Base64.Values(s).value); }
  }

  /** Test vectors of section 10 of RFC 4648, without padding, and the two characters of its URL-safe alphabet. */
  lemma Vectors()
    ensures Base64.Encode("") == "" && Base64.Encode("f") == "Zg" && Base64.Encode("fo") == "Zm8"
    ensures Base64.Encode("foo") == "Zm9v" && Base64.Encode("\U{FB}\U{F0}") == "-_A"
  {
    assert "foo"[3..] == "";
    assert Base64.Cut("f") == [25, 32];
    assert Base64.Cut("fo") == [25, 38, 60];
    assert Base64.Cut("foo") == [25, 38, 61, 47];
    assert Base64.Cut("\U{FB}\U{F0}") == [62, 63, 0];
    Spelled2(25, 32);
    Spelled3(25, 38, 60);
    Spelled3(62, 63, 0);
    Spelled4(25, 38, 61, 47);
  }

  lemma Spelled2(a: Base64.Sextet, b: Base64.Sextet)
    ensures Base64.Chars([a, b]) == [Base64.CharOf(a), Base64.CharOf(b)]
  {
    assert [a, b][1..] == [b] && [b][1..] == [];
    assert Base64.Chars([b]) == [Base64.CharOf(b)] + Base64.Chars([b][1..]);
  }

  lemma Spelled3(a: Base64.Sextet, b: Base64.Sextet, c: Base64.Sextet)
    ensures Base64.Chars([a, b, c]) == [Base64.CharOf(a), Base64.CharOf(b), Base64.CharOf(c)]
  {
    assert [a, b, c][1..] == [b, c];
    Spelled2(b, c);
  }

  lemma Spelled4(a: Base64.Sextet, b: Base64.Sextet, c: Base64.Sextet, d: Base64.Sextet)
    ensures Base64.Chars([a, b, c, d]) == [Base64.CharOf(a), Base64.CharOf(b), Base64.CharOf(c), Base64.CharOf(d)]
  {
    assert [a, b, c, d][1..] == [b, c, d];
    Spelled3(b, c, d);
  }
}
