/** UTC timestamps of section 5.6 of RFC 3339 with up to nine fraction digits. */
module Rfc3339 {
  import opened Text
  import opened Order
  import opened Wrappers

  datatype Time = Time(year: nat, month: nat, day: nat, hour: nat, minute: nat, second: nat, nano: nat)

  predicate IsLeap(year: nat) {
    year % 4 == 0 && (year % 100 != 0 || year % 400 == 0)
  }

  function DaysIn(year: nat, month: nat): nat {
    if month == 2 then (if IsLeap(year) then 29 else 28)
    else if month in {4, 6, 9, 11} then 30
    else 31
  }

  predicate Valid(t: Time) {
    && t.year <= 9999 && 1 <= t.month <= 12 && 1 <= t.day <= DaysIn(t.year, t.month)
    && t.hour < 24 && t.minute < 60 && t.second < 60 && t.nano < 1_000_000_000
  }

  /** Instants in UTC compare field by field. */
  predicate Before(a: Time, b: Time) {
    if a.year != b.year then a.year < b.year
    else if a.month != b.month then a.month < b.month
    else if a.day != b.day then a.day < b.day
    else if a.hour != b.hour then a.hour < b.hour
    else if a.minute != b.minute then a.minute < b.minute
    else if a.second != b.second then a.second < b.second
    else a.nano < b.nano
  }

  function Pow10(w: nat): nat {
    if w == 0 then 1 else 10 * Pow10(w - 1)
  }

  predicate IsDigit(c: char) {
    '0' <= c <= '9'
  }

  function DigitOf(n: nat): Byte
    requires n < 10
  {
    ('0' as int + n) as char
  }

  /** The last `w` decimal digits of `n`, most significant first. */
  function Digits(n: nat, w: nat): (s: Str)
    ensures |s| == w
    ensures forall i :: 0 <= i < |s| ==> IsDigit(s[i])
  {
    if w == 0 then [] else Digits(n / 10, w - 1) + [DigitOf(n % 10)]
  }

  function Number(s: Str): Option<nat> {
    if s == [] then Some(0)
    else
      var c, rest := s[|s| - 1], Number(s[..|s| - 1]);
      if IsDigit(c) && rest.Some? then Some(rest.value * 10 + (c as int - '0' as int)) else None
  }

  lemma {:induction false} NumberOfDigits(n: nat, w: nat)
    requires n < Pow10(w)
    ensures Number(Digits(n, w)) == Some(n)
  {
    if w > 0 {
      NumberOfDigits(n / 10, w - 1);
      assert Digits(n, w)[..w - 1] == Digits(n / 10, w - 1);
    }
  }

  function TrimZeros(s: Str): Str {
    if s != [] && s[|s| - 1] == '0' then TrimZeros(s[..|s| - 1]) else s
  }

  /** Fraction digits beyond the ninth are discarded; missing ones count as zero. */
  function NineDigits(s: Str): Str {
    if |s| >= 9 then s[..9] else s + seq(9 - |s|, _ => '0')
  }

  lemma {:induction false} PadUndoesTrim(s: Str, n: nat)
    requires n == |s|
    ensures |TrimZeros(s)| <= n
    ensures TrimZeros(s) + seq(n - |TrimZeros(s)|, _ => '0') == s
  {
    if s != [] && s[|s| - 1] == '0' {
      var init := s[..|s| - 1];
      PadUndoesTrim(init, n - 1);
      var t := TrimZeros(s);
      assert s == init + ['0'];
      assert seq(n - |t|, _ => '0') == seq(n - 1 - |t|, _ => '0') + ['0'];
      assert t + seq(n - |t|, _ => '0') == (t + seq(n - 1 - |t|, _ => '0')) + ['0'];
    }
  }

  lemma {:induction false} TrimmedDigits(s: Str)
    requires forall i :: 0 <= i < |s| ==> IsDigit(s[i])
    ensures forall i :: 0 <= i < |TrimZeros(s)| ==> IsDigit(TrimZeros(s)[i])
    ensures TrimZeros(s) == [] ==> forall i :: 0 <= i < |s| ==> s[i] == '0'
  {
    if s != [] && s[|s| - 1] == '0' { TrimmedDigits(s[..|s| - 1]); }
  }

  lemma {:induction false} ZerosAreZero(s: Str)
    requires forall i :: 0 <= i < |s| ==> s[i] == '0'
    ensures Number(s) == Some(0)
  {
    if s != [] { ZerosAreZero(s[..|s| - 1]); }
  }

  function Fraction(nano: nat): Str {
    if nano == 0 then [] else "." + TrimZeros(Digits(nano, 9))
  }

  function ParseFraction(s: Str): Option<nat> {
    if s == [] then Some(0)
    else if |s| >= 2 && s[0] == '.' && (forall i :: 1 <= i < |s| ==> IsDigit(s[i])) then Number(NineDigits(s[1..]))
    else None
  }

  lemma FractionRoundTrip(nano: nat)
    requires nano < 1_000_000_000
    ensures ParseFraction(Fraction(nano)) == Some(nano)
  {
    if nano != 0 {
      var d := Digits(nano, 9);
      var f := Fraction(nano);
      assert Pow10(9) == 1_000_000_000;
      NumberOfDigits(nano, 9);
      PadUndoesTrim(d, 9);
      TrimmedDigits(d);
      if TrimZeros(d) == [] { ZerosAreZero(d); }
      assert f[1..] == TrimZeros(d);
      assert NineDigits(f[1..]) == d;
    }
  }

  function DateTime(t: Time): (s: Str)
    ensures |s| == 19
  {
    Digits(t.year, 4) + "-" + Digits(t.month, 2) + "-" + Digits(t.day, 2) + "T"
    + Digits(t.hour, 2) + ":" + Digits(t.minute, 2) + ":" + Digits(t.second, 2)
  }

  function Format(t: Time): Str {
    DateTime(t) + Fraction(t.nano) + "Z"
  }

  function ParseDateTime(s: Str, nano: nat): Option<Time>
    requires |s| == 19
  {
    var y, mo, d := Number(s[0..4]), Number(s[5..7]), Number(s[8..10]);
    var h, mi, sec := Number(s[11..13]), Number(s[14..16]), Number(s[17..19]);
    if s[4] == '-' && s[7] == '-' && s[10] == 'T' && s[13] == ':' && s[16] == ':'
       && y.Some? && mo.Some? && d.Some? && h.Some? && mi.Some? && sec.Some?
    then Some(Time(y.value, mo.value, d.value, h.value, mi.value, sec.value, nano))
    else None
  }

  function Parse(s: Str): (r: Option<Time>)
    ensures r.Some? ==> Valid(r.value)
  {
    if |s| < 20 || s[|s| - 1] != 'Z' then None
    else
      var nano := ParseFraction(s[19..|s| - 1]);
      if nano.None? then None
      else
        var t := ParseDateTime(s[..19], nano.value);
        if t.Some? && Valid(t.value) then t else None
  }

  lemma DateTimeRoundTrip(t: Time)
    requires Valid(t)
    ensures ParseDateTime(DateTime(t), t.nano) == Some(t)
  {
    var s := DateTime(t);
    assert Pow10(2) == 100 && Pow10(4) == 10000;
    assert s[0..4] == Digits(t.year, 4);
    assert s[5..7] == Digits(t.month, 2);
    assert s[8..10] == Digits(t.day, 2);
    assert s[11..13] == Digits(t.hour, 2);
    assert s[14..16] == Digits(t.minute, 2);
    assert s[17..19] == Digits(t.second, 2);
    NumberOfDigits(t.year, 4);
    NumberOfDigits(t.month, 2);
    NumberOfDigits(t.day, 2);
    NumberOfDigits(t.hour, 2);
    NumberOfDigits(t.minute, 2);
    NumberOfDigits(t.second, 2);
  }

  /** Parsing undoes formatting, to the nanosecond. */
  lemma RoundTrip(t: Time)
    requires Valid(t)
    ensures Parse(Format(t)) == Some(t)
  {
    var s := Format(t);
    DateTimeRoundTrip(t);
    FractionRoundTrip(t.nano);
    assert s[..19] == DateTime(t);
    assert s[19..|s| - 1] == Fraction(t.nano);
  }

  /** No formatted timestamp contains the cursor separator. */
  lemma FormatHasNoBar(t: Time)
    ensures forall i :: 0 <= i < |Format(t)| ==> Format(t)[i] != '|'
  {
    TrimmedDigits(Digits(t.nano, 9));
    assert forall i :: 0 <= i < |Fraction(t.nano)| ==> Fraction(t.nano)[i] != '|';
    var s := DateTime(t);
    assert forall i :: 0 <= i < |s| ==> s[i] != '|';
  }

  lemma BeforeIsStrictTotal()
    ensures StrictTotal(Before)
  {}
}
