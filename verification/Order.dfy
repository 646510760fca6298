/** Strictly sorted sequences over an arbitrary strict total order. */
module Order {

  ghost predicate StrictTotal<T(!new)>(less: (T, T) -> bool) {
    && (forall x :: !less(x, x))
    && (forall x, y, z :: less(x, y) && less(y, z) ==> less(x, z))
    && (forall x, y :: x == y || less(x, y) || less(y, x))
  }

  predicate Sorted<T>(less: (T, T) -> bool, s: seq<T>) {
    forall i, j :: 0 <= i < j < |s| ==> less(s[i], s[j])
  }

  function Elems<T>(s: seq<T>): set<T> {
    set x | x in s
  }

  lemma ElemsMembership<T>(s: seq<T>, x: T)
    ensures x in s <==> x in Elems(s)
  {}

  lemma ElemsEmpty<T>(s: seq<T>)
    ensures s == [] <==> Elems(s) == {}
  {
    assert s != [] ==> s[0] in Elems(s);
  }

  /** Position-preserving insertion: everything before `x` is less than it. */
  function Insert<T>(less: (T, T) -> bool, x: T, s: seq<T>): seq<T> {
    if s == [] then [x]
    else if less(x, s[0]) then [x] + s
    else [s[0]] + Insert(less, x, s[1..])
  }

  lemma {:induction false} InsertElems<T(!new)>(less: (T, T) -> bool, x: T, s: seq<T>)
    ensures Elems(Insert(less, x, s)) == Elems(s) + {x}
    ensures |Insert(less, x, s)| == |s| + 1
  {
    if s != [] {
      assert s == [s[0]] + s[1..];
      if less(x, s[0]) {
      } else {
        InsertElems(less, x, s[1..]);
        var r := Insert(less, x, s[1..]);
        assert Elems([s[0]] + r) == {s[0]} + Elems(r);
      }
    }
  }

  lemma {:induction false} InsertSorted<T(!new)>(less: (T, T) -> bool, x: T, s: seq<T>)
    requires StrictTotal(less)
    requires Sorted(less, s) && x !in s
    ensures Sorted(less, Insert(less, x, s))
    ensures Elems(Insert(less, x, s)) == Elems(s) + {x}
  {
    InsertElems(less, x, s);
    if s != [] && !less(x, s[0]) {
      InsertSorted(less, x, s[1..]);
      var r := Insert(less, x, s[1..]);
      forall k | 0 <= k < |r| ensures less(s[0], r[k]) {
        assert r[k] in Elems(r);
        if r[k] in s[1..] {
          var j :| 0 <= j < |s[1..]| && s[1..][j] == r[k];
          assert s[j + 1] == r[k];
        } else {
          assert r[k] == x && x != s[0];
        }
      }
    }
  }

  /** The unique strictly sorted sequence of a finite set. */
  ghost function Sort<T(!new)>(less: (T, T) -> bool, xs: set<T>): (r: seq<T>)
    requires StrictTotal(less)
    ensures Sorted(less, r) && Elems(r) == xs && |r| == |xs|
    decreases |xs|
  {
    if xs == {} then []
    else
      var x :| x in xs;
      var rest := Sort(less, xs - {x});
      ElemsMembership(rest, x);
      InsertSorted(less, x, rest);
      InsertElems(less, x, rest);
      Insert(less, x, rest)
  }

  /** Two strictly sorted sequences with the same elements are the same sequence. */
  lemma {:induction false} SortedUnique<T(!new)>(less: (T, T) -> bool, a: seq<T>, b: seq<T>)
    requires StrictTotal(less)
    requires Sorted(less, a) && Sorted(less, b) && Elems(a) == Elems(b)
    ensures a == b
  {
    assert a == [] <==> Elems(a) == {} by { ElemsEmpty(a); }
    assert b == [] <==> Elems(b) == {} by { ElemsEmpty(b); }
    if a != [] {
      ElemsMembership(b, a[0]);
      ElemsMembership(a, b[0]);
      HeadIsLeast(less, a, b[0]);
      HeadIsLeast(less, b, a[0]);
      assert a[0] == b[0];
      TailElems(less, a);
      TailElems(less, b);
      SortedUnique(less, a[1..], b[1..]);
      assert a == [a[0]] + a[1..];
      assert b == [b[0]] + b[1..];
    }
  }

  lemma HeadIsLeast<T(!new)>(less: (T, T) -> bool, s: seq<T>, x: T)
    requires Sorted(less, s) && x in s
    ensures x == s[0] || less(s[0], x)
  {
    var i :| 0 <= i < |s| && s[i] == x;
  }

  lemma TailElems<T(!new)>(less: (T, T) -> bool, s: seq<T>)
    requires StrictTotal(less)
    requires Sorted(less, s) && s != []
    ensures Elems(s[1..]) == Elems(s) - {s[0]}
  {
    assert s == [s[0]] + s[1..];
    assert forall i :: 0 < i < |s| ==> less(s[0], s[i]);
  }

  /** Concatenating two sorted runs whose elements are separated keeps the order. */
  lemma SortedConcat<T(!new)>(less: (T, T) -> bool, a: seq<T>, b: seq<T>)
    requires Sorted(less, a) && Sorted(less, b)
    requires forall x, y :: x in a && y in b ==> less(x, y)
    ensures Sorted(less, a + b)
  {
    forall i, j | 0 <= i < j < |a + b| ensures less((a + b)[i], (a + b)[j]) {
      if i < |a| <= j {
        assert (a + b)[i] in a && (a + b)[j] in b;
      }
    }
  }

  /** Sort a slice of distinct elements by repeated insertion. */
  function InsertAll<T>(less: (T, T) -> bool, s: seq<T>): seq<T> {
    if s == [] then [] else Insert(less, s[0], InsertAll(less, s[1..]))
  }

  ghost predicate Distinct<T>(s: seq<T>) {
    forall i, j :: 0 <= i < j < |s| ==> s[i] != s[j]
  }

  lemma {:induction false} InsertAllSorts<T(!new)>(less: (T, T) -> bool, s: seq<T>)
    requires StrictTotal(less) && Distinct(s)
    ensures Sorted(less, InsertAll(less, s)) && Elems(InsertAll(less, s)) == Elems(s)
  {
    if s != [] {
      InsertAllSorts(less, s[1..]);
      ElemsMembership(InsertAll(less, s[1..]), s[0]);
      ElemsMembership(s[1..], s[0]);
      InsertSorted(less, s[0], InsertAll(less, s[1..]));
      assert s == [s[0]] + s[1..];
    }
  }

  /** Whatever order a set was enumerated in, sorting it gives the same slice. */
  lemma InsertAllIsSort<T(!new)>(less: (T, T) -> bool, s: seq<T>)
    requires StrictTotal(less) && Distinct(s)
    ensures InsertAll(less, s) == Sort(less, Elems(s))
  {
    InsertAllSorts(less, s);
    SortedUnique(less, InsertAll(less, s), Sort(less, Elems(s)));
  }

  lemma ElemsAppend<T>(s: seq<T>, x: T)
    ensures Elems(s + [x]) == Elems(s) + {x}
  {}

  /** A new element behind distinct ones. */
  lemma AppendFresh<T>(found: seq<T>, x: T)
    requires Distinct(found) && x !in Elems(found)
    ensures Distinct(found + [x]) && Elems(found + [x]) == Elems(found) + {x}
  {
    ElemsMembership(found, x);
    ElemsAppend(found, x);
  }
}
