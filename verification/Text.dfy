/** Go strings: finite sequences of bytes, compared byte by byte. */
module Text {
  import opened Order

  /** A byte, written as the character with that code. */
  type Byte = c: char | c <= '\U{FF}' witness 'a'
  type Str = seq<Byte>

  /** Go's `<` on strings. */
  predicate Less(a: Str, b: Str) {
    if b == [] then false
    else if a == [] then true
    else if a[0] != b[0] then a[0] < b[0]
    else Less(a[1..], b[1..])
  }

  predicate Greater(a: Str, b: Str) {
    Less(b, a)
  }

  lemma {:induction false} LessIrreflexive(a: Str)
    ensures !Less(a, a)
  {
    if a != [] { LessIrreflexive(a[1..]); }
  }

  lemma {:induction false} LessTransitive(a: Str, b: Str, c: Str)
    requires Less(a, b) && Less(b, c)
    ensures Less(a, c)
  {
    if a != [] && a[0] == b[0] && b[0] == c[0] {
      LessTransitive(a[1..], b[1..], c[1..]);
    }
  }

  lemma {:induction false} LessTotal(a: Str, b: Str)
    ensures a == b || Less(a, b) || Less(b, a)
  {
    if a != [] && b != [] && a[0] == b[0] {
      LessTotal(a[1..], b[1..]);
      assert a == [a[0]] + a[1..] && b == [b[0]] + b[1..];
    }
  }

  lemma LessIsStrictTotal()
    ensures StrictTotal(Less) && StrictTotal(Greater)
  {
    forall a: Str ensures !Less(a, a) { LessIrreflexive(a); }
    forall a: Str, b: Str, c: Str | Less(a, b) && Less(b, c) ensures Less(a, c) { LessTransitive(a, b, c); }
    forall a: Str, b: Str ensures a == b || Less(a, b) || Less(b, a) { LessTotal(a, b); }
    assert forall a: Str :: !Greater(a, a);
    assert forall a: Str, b: Str, c: Str :: Greater(a, b) && Greater(b, c) ==> Greater(a, c);
    assert forall a: Str, b: Str :: a == b || Greater(a, b) || Greater(b, a);
  }

  /** `b` continues past what it shares with `a`, and `a` has ended or has the smaller byte there. */
  ghost predicate Precedes(a: Str, b: Str) {
    exists n :: 0 <= n <= |a| && n < |b| && a[..n] == b[..n] && (n == |a| || a[n] < b[n])
  }

  lemma {:induction false} LessHasWitness(a: Str, b: Str) returns (n: nat)
    requires Less(a, b)
    ensures n <= |a| && n < |b| && a[..n] == b[..n] && (n == |a| || a[n] < b[n])
  {
    n := 0;
    if a != [] && a[0] == b[0] {
      n := LessHasWitness(a[1..], b[1..]);
      n := n + 1;
      assert a[..n] == [a[0]] + a[1..][..n - 1] && b[..n] == [b[0]] + b[1..][..n - 1];
    }
  }

  lemma {:induction false} LessFromWitness(a: Str, b: Str, n: nat)
    requires n <= |a| && n < |b| && a[..n] == b[..n] && (n == |a| || a[n] < b[n])
    ensures Less(a, b)
  {
    if n > 0 {
      assert a[0] == a[..n][0] && b[0] == b[..n][0];
      assert a[1..][..n - 1] == a[..n][1..] && b[1..][..n - 1] == b[..n][1..];
      LessFromWitness(a[1..], b[1..], n - 1);
    }
  }

  /** `Less` is lexicographic: a proper prefix comes first, otherwise the first different byte decides. */
  lemma LessIsLexicographic(a: Str, b: Str)
    ensures Less(a, b) <==> Precedes(a, b)
  {
    if Less(a, b) {
      var n := LessHasWitness(a, b);
      assert a[..n] == b[..n];
    } else if Precedes(a, b) {
      var n: nat :| n <= |a| && n < |b| && a[..n] == b[..n] && (n == |a| || a[n] < b[n]);
      LessFromWitness(a, b, n);
    }
  }
}
