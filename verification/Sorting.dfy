/** `sorted`: stable insertion into a sequence ordered by `leq`. */
module Sorting {

  /** A total order up to ties. */
  ghost predicate TotalOrder<A(!new)>(leq: (A, A) -> bool)
  {
    && (forall a, b :: leq(a, b) || leq(b, a))
    && (forall a, b, c :: leq(a, b) && leq(b, c) ==> leq(a, c))
  }

  ghost predicate Sorted<A>(s: seq<A>, leq: (A, A) -> bool)
  {
    forall i, j :: 0 <= i < j < |s| ==> leq(s[i], s[j])
  }

  function Insert<A>(x: A, s: seq<A>, leq: (A, A) -> bool): (r: seq<A>)
    ensures multiset(r) == multiset(s) + multiset{x}
  {
    if s == [] then [x]
    else if leq(x, s[0]) then [x] + s
    else
      assert s == [s[0]] + s[1..];
      [s[0]] + Insert(x, s[1..], leq)
  }

  /** `sorted(s)`: ties keep their order. */
  function Sort<A>(s: seq<A>, leq: (A, A) -> bool): (r: seq<A>)
    ensures multiset(r) == multiset(s)
  {
    if s == [] then []
    else
      assert s == [s[0]] + s[1..];
      Insert(s[0], Sort(s[1..], leq), leq)
  }

  lemma SortMembers<A>(s: seq<A>, leq: (A, A) -> bool)
    ensures |Sort(s, leq)| == |s|
    ensures forall x :: x in s ==> x in Sort(s, leq)
    ensures forall x :: x in Sort(s, leq) ==> x in s
  {
    var r := Sort(s, leq);
    assert |multiset(r)| == |multiset(s)|;
    forall x | x in s ensures x in r {
      assert x in multiset(r);
    }
    forall x | x in r ensures x in s {
      assert x in multiset(s);
    }
  }

  lemma {:induction false} InsertSorted<A(!new)>(x: A, s: seq<A>, leq: (A, A) -> bool)
    requires TotalOrder(leq) && Sorted(s, leq)
    ensures Sorted(Insert(x, s, leq), leq)
  {
    if s != [] && !leq(x, s[0]) {
      InsertSorted(x, s[1..], leq);
      var r := Insert(x, s[1..], leq);
      forall y | y in r ensures leq(s[0], y) {
        assert y in multiset(r);
        assert y == x || y in s[1..];
      }
    }
  }

  lemma {:induction false} SortSorts<A(!new)>(s: seq<A>, leq: (A, A) -> bool)
    requires TotalOrder(leq)
    ensures Sorted(Sort(s, leq), leq)
  {
    if s != [] {
      SortSorts(s[1..], leq);
      InsertSorted(s[0], Sort(s[1..], leq), leq);
    }
  }

  lemma {:induction false} SortIdle<A>(s: seq<A>, leq: (A, A) -> bool)
    requires Sorted(s, leq)
    ensures Sort(s, leq) == s
  {
    if s != [] {
      SortIdle(s[1..], leq);
      assert s == [s[0]] + s[1..];
    }
  }

  /** Alphabetical order of strings, by code point. */
  predicate StringLeq(a: string, b: string)
  {
    a == "" || (b != "" && (a[0] < b[0] || (a[0] == b[0] && StringLeq(a[1..], b[1..]))))
  }

  lemma StringOrder()
    ensures TotalOrder(StringLeq)
  {
    forall a, b ensures StringLeq(a, b) || StringLeq(b, a) {
      StringTotal(a, b);
    }
    forall a, b, c | StringLeq(a, b) && StringLeq(b, c) ensures StringLeq(a, c) {
      StringTransitive(a, b, c);
    }
  }

  lemma {:induction false} StringTotal(a: string, b: string)
    ensures StringLeq(a, b) || StringLeq(b, a)
  {
    if a != "" && b != "" {
      StringTotal(a[1..], b[1..]);
    }
  }

  lemma {:induction false} StringTransitive(a: string, b: string, c: string)
    requires StringLeq(a, b) && StringLeq(b, c)
    ensures StringLeq(a, c)
  {
    if a != "" && a[0] == b[0] == c[0] {
      StringTransitive(a[1..], b[1..], c[1..]);
    }
  }
}
