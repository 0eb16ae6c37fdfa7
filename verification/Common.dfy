/** Shared vocabulary: optional values, results, and the two list idioms of the source
    (comprehensions with a condition, and distinctness of keys). */
module Common {

  /** A node is known by its address, as in `nodes.get_ips()`. */
  type Ip = string

  datatype Option<+T> = None | Some(value: T) {
    function GetOr(default: T): T {
      match this
      case Some(v) => v
      case None => default
    }
  }

  datatype Result<+T, +E> = Ok(value: T) | Err(error: E)

  /** `m.get(k)` */
  function Get<K, V>(m: map<K, V>, k: K): Option<V> {
    if k in m then Some(m[k]) else None
  }

  /** `[x for x in s if p(x)]` */
  function Filter<T>(s: seq<T>, p: T -> bool): (r: seq<T>)
    ensures forall x :: x in r ==> x in s && p(x)
    ensures forall x :: x in s && p(x) ==> x in r
    ensures |r| <= |s|
  {
    if s == [] then []
    else if p(s[0]) then [s[0]] + Filter(s[1..], p)
    else Filter(s[1..], p)
  }

  lemma {:induction false} FilterAppend<T>(a: seq<T>, b: seq<T>, p: T -> bool)
    ensures Filter(a + b, p) == Filter(a, p) + Filter(b, p)
  {
    if a == [] {
      assert a + b == b;
    } else {
      assert (a + b)[1..] == a[1..] + b;
      FilterAppend(a[1..], b, p);
    }
  }

  /** Filtering one more element, the step of every loop that builds a comprehension. */
  lemma FilterStep<T>(s: seq<T>, i: nat, p: T -> bool)
    requires i < |s|
    ensures Filter(s[..i + 1], p) == Filter(s[..i], p) + (if p(s[i]) then [s[i]] else [])
  {
    assert s[..i + 1] == s[..i] + [s[i]];
    FilterAppend(s[..i], [s[i]], p);
  }

  lemma FilterAll<T>(s: seq<T>, p: T -> bool)
    requires forall x :: x in s ==> p(x)
    ensures Filter(s, p) == s
  {
  }

  lemma FilterNone<T>(s: seq<T>, p: T -> bool)
    requires forall x :: x in s ==> !p(x)
    ensures Filter(s, p) == []
  {
  }

  lemma {:induction false} FilterTwice<T>(s: seq<T>, p: T -> bool, q: T -> bool, both: T -> bool)
    requires forall x :: x in s ==> (both(x) <==> p(x) && q(x))
    ensures Filter(Filter(s, p), q) == Filter(s, both)
  {
    if s != [] {
      FilterTwice(s[1..], p, q, both);
      if p(s[0]) {
        assert Filter(s, p)[1..] == Filter(s[1..], p);
      }
    }
  }

  lemma FilterSame<T>(s: seq<T>, p: T -> bool, q: T -> bool)
    requires forall x :: x in s ==> (p(x) <==> q(x))
    ensures Filter(s, p) == Filter(s, q)
  {
  }

  /** `[y for x in s if (y := f(x))]` */
  function FilterMap<A, B>(s: seq<A>, f: A -> Option<B>): (r: seq<B>)
    ensures forall x :: x in s && f(x).Some? ==> f(x).value in r
    ensures forall y :: y in r ==> exists x :: x in s && f(x) == Some(y)
  {
    if s == [] then []
    else
      match f(s[0])
      case Some(y) => [y] + FilterMap(s[1..], f)
      case None => FilterMap(s[1..], f)
  }

  lemma {:induction false} FilterMapAppend<A, B>(a: seq<A>, b: seq<A>, f: A -> Option<B>)
    ensures FilterMap(a + b, f) == FilterMap(a, f) + FilterMap(b, f)
  {
    if a == [] {
      assert a + b == b;
    } else {
      assert (a + b)[1..] == a[1..] + b;
      FilterMapAppend(a[1..], b, f);
    }
  }

  lemma FilterMapStep<A, B>(s: seq<A>, i: nat, f: A -> Option<B>)
    requires i < |s|
    ensures FilterMap(s[..i + 1], f) == FilterMap(s[..i], f) + (match f(s[i]) case Some(y) => [y] case None => [])
    ensures FilterMap(s[..0], f) == []
  {
    assert s[..i + 1] == s[..i] + [s[i]];
    FilterMapAppend(s[..i], [s[i]], f);
  }

  lemma NothingCollected<A, B>(s: seq<A>, f: A -> Option<B>)
    ensures FilterMap(s[..0], f) == []
  {
  }

  /** `[f(x) for x in s]` */
  function Map<A, B>(s: seq<A>, f: A -> B): (r: seq<B>)
    ensures |r| == |s| && forall i :: 0 <= i < |s| ==> r[i] == f(s[i])
  {
    seq(|s|, i requires 0 <= i < |s| => f(s[i]))
  }

  lemma MapCons<A, B>(s: seq<A>, f: A -> B)
    ensures s != [] ==> Map(s, f) == [f(s[0])] + Map(s[1..], f)
    ensures s == [] ==> Map(s, f) == []
  {
  }

  lemma MapStep<A, B>(s: seq<A>, i: nat, f: A -> B)
    requires i < |s|
    ensures Map(s[..i + 1], f) == Map(s[..i], f) + [f(s[i])]
    ensures Map(s[..0], f) == []
  {
  }

  /** A dictionary from its items, in order: a later item overwrites an earlier one. */
  function Dict<K(==), V>(items: seq<(K, V)>): (m: map<K, V>)
  {
    if items == [] then map[]
    else Dict(items[..|items| - 1])[items[|items| - 1].0 := items[|items| - 1].1]
  }

  lemma {:induction false} DictItem<K, V>(items: seq<(K, V)>, k: K)
    requires k in Dict(items)
    ensures (k, Dict(items)[k]) in items
  {
    var init, last := items[..|items| - 1], items[|items| - 1];
    if k != last.0 {
      DictItem(init, k);
    } else {
      assert items[|items| - 1] == (k, Dict(items)[k]);
    }
  }

  predicate DistinctKeys<K(==), V>(items: seq<(K, V)>)
  {
    forall i, j :: 0 <= i < j < |items| ==> items[i].0 != items[j].0
  }

  lemma {:induction false} DictOfDistinct<K, V>(items: seq<(K, V)>)
    requires DistinctKeys(items)
    ensures forall i :: 0 <= i < |items| ==> items[i].0 in Dict(items) && Dict(items)[items[i].0] == items[i].1
  {
    if items != [] {
      var init := items[..|items| - 1];
      DictOfDistinct(init);
      forall i | 0 <= i < |items| ensures items[i].0 in Dict(items) && Dict(items)[items[i].0] == items[i].1 {
        if i < |init| {
          assert init[i] == items[i];
        }
      }
    }
  }

  /** A dictionary does not depend on the order of its items. */
  lemma DictOfPermutation<K, V>(a: seq<(K, V)>, b: seq<(K, V)>)
    requires DistinctKeys(a) && multiset(a) == multiset(b)
    ensures DistinctKeys(b) && Dict(a) == Dict(b)
  {
    DistinctKeysPermute(a, b);
    DictOfDistinct(a);
    DictOfDistinct(b);
    forall k | k in Dict(a) ensures k in Dict(b) && Dict(b)[k] == Dict(a)[k] {
      DictItem(a, k);
      assert (k, Dict(a)[k]) in multiset(a);
    }
    forall k | k in Dict(b) ensures k in Dict(a) {
      DictItem(b, k);
      assert (k, Dict(b)[k]) in multiset(b);
    }
  }

  lemma DistinctKeysPermute<K, V>(a: seq<(K, V)>, b: seq<(K, V)>)
    requires DistinctKeys(a) && multiset(a) == multiset(b)
    ensures DistinctKeys(b)
  {
    forall i, j | 0 <= i < j < |b| ensures b[i].0 != b[j].0 {
      if b[i].0 == b[j].0 {
        assert b[i] in multiset(b) && b[j] in multiset(b);
        assert b[i] in a && b[j] in a;
        if b[i] == b[j] {
          TwiceInMultiset(b, i, j);
          OnceInMultiset(a, b[i]);
        }
      }
    }
  }

  lemma TwiceInMultiset<T>(s: seq<T>, i: nat, j: nat)
    requires i < j < |s| && s[i] == s[j]
    ensures multiset(s)[s[i]] >= 2
  {
    assert s == s[..j] + [s[j]] + s[j + 1..];
    assert s[..j][i] == s[i] && s[i] in s[..j];
    assert multiset(s) == multiset(s[..j]) + multiset{s[j]} + multiset(s[j + 1..]);
  }

  lemma OnceInMultiset<K, V>(a: seq<(K, V)>, x: (K, V))
    requires DistinctKeys(a) && x in a
    ensures multiset(a)[x] == 1
  {
    var i :| 0 <= i < |a| && a[i] == x;
    assert a == a[..i] + [a[i]] + a[i + 1..];
    assert multiset(a) == multiset(a[..i]) + multiset{x} + multiset(a[i + 1..]);
    assert x !in a[..i] && x !in a[i + 1..];
  }

  /** Every element once: what a Python dict or set gives its keys. */
  predicate Distinct<T(==)>(s: seq<T>)
  {
    forall i, j :: 0 <= i < j < |s| ==> s[i] != s[j]
  }
}
