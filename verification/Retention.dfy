/** Which snapshots are kept: names are timestamps, so alphabetical order is age. */
module Retention {
  import opened Common
  import opened Sorting

  /** `names[:-keep]` of the sorted names, or all of them. */
  function Doomed(names: seq<string>, keep: int): seq<string>
  {
    var sorted := Sort(names, StringLeq);
    SortMembers(names, StringLeq);
    if keep <= 0 then sorted else if keep >= |names| then [] else sorted[..|names| - keep]
  }

  function Left(names: seq<string>, keep: int, stuck: set<string>): seq<string>
  {
    Filter(names, n => n !in Doomed(names, keep) || n in stuck)
  }

  /** Removing file by file; a file that cannot be removed stays. */
  method ApplyRetention(names: seq<string>, keep: int, stuck: set<string>) returns (left: seq<string>)
    ensures left == Left(names, keep, stuck)
  {
    hide Doomed;
    left := names;
    var doomed := Doomed(names, keep);
    FilterAll(names, n => n !in doomed[..0] || n in stuck);
    for i := 0 to |doomed|
      invariant left == Filter(names, n => n !in doomed[..i] || n in stuck)
    {
      var gone := doomed[i];
      if gone !in stuck {
        left := Filter(left, n => n != gone);
        FilterTwice(names, n => n !in doomed[..i] || n in stuck, n => n != gone, n => n !in doomed[..i + 1] || n in stuck);
      } else {
        FilterSame(names, n => n !in doomed[..i] || n in stuck, n => n !in doomed[..i + 1] || n in stuck);
      }
    }
    FilterSame(names, n => n !in doomed[..|doomed|] || n in stuck, n => n !in Doomed(names, keep) || n in stuck);
  }

  lemma {:induction false} FilterCount(s: seq<string>, p: string -> bool, x: string)
    ensures multiset(Filter(s, p))[x] == if p(x) then multiset(s)[x] else 0
  {
    if s != [] {
      FilterCount(s[1..], p, x);
      assert s == [s[0]] + s[1..];
    }
  }

  lemma FilterPermutes(a: seq<string>, b: seq<string>, p: string -> bool)
    requires multiset(a) == multiset(b)
    ensures multiset(Filter(a, p)) == multiset(Filter(b, p)) && |Filter(a, p)| == |Filter(b, p)|
  {
    forall x ensures multiset(Filter(a, p))[x] == multiset(Filter(b, p))[x] {
      FilterCount(a, p, x);
      FilterCount(b, p, x);
    }
    assert multiset(Filter(a, p)) == multiset(Filter(b, p));
    assert |multiset(Filter(a, p))| == |multiset(Filter(b, p))|;
  }

  lemma OnceIfDistinct(s: seq<string>, x: string)
    requires Distinct(s)
    ensures multiset(s)[x] <= 1
  {
    if x in s {
      var i :| 0 <= i < |s| && s[i] == x;
      assert s == s[..i] + [x] + s[i + 1..];
      assert multiset(s) == multiset(s[..i]) + multiset{x} + multiset(s[i + 1..]);
      assert x !in s[..i] && x !in s[i + 1..];
    }
  }

  lemma SortDistinct(s: seq<string>)
    requires Distinct(s)
    ensures Distinct(Sort(s, StringLeq))
  {
    var r := Sort(s, StringLeq);
    forall i, j | 0 <= i < j < |r| ensures r[i] != r[j] {
      if r[i] == r[j] {
        TwiceInMultiset(r, i, j);
        OnceIfDistinct(s, r[i]);
      }
    }
  }

  /** How many names go. */
  function Surplus(n: nat, keep: int): (c: nat)
    ensures c <= n
  {
    if keep <= 0 then n else if keep >= n then 0 else n - keep
  }

  lemma DoomedIsPrefix(names: seq<string>, keep: int)
    ensures |Sort(names, StringLeq)| == |names|
    ensures Doomed(names, keep) == Sort(names, StringLeq)[..Surplus(|names|, keep)]
  {
    hide Sort, StringLeq;
    SortMembers(names, StringLeq);
  }

  /** What stays of a sequence without repetition when a prefix is dropped. */
  lemma SuffixStays(sorted: seq<string>, c: nat, stays: string -> bool)
    requires Distinct(sorted) && c <= |sorted| && forall x :: stays(x) <==> x !in sorted[..c]
    ensures Filter(sorted, stays) == sorted[c..]
  {
    assert sorted == sorted[..c] + sorted[c..];
    FilterAppend(sorted[..c], sorted[c..], stays);
    FilterNone(sorted[..c], stays);
    FilterAll(sorted[c..], stays);
  }

  lemma LeftIs(names: seq<string>, keep: int, stuck: set<string>, stays: string -> bool)
    requires forall n :: stays(n) <==> n !in Doomed(names, keep) || n in stuck
    ensures Left(names, keep, stuck) == Filter(names, stays)
  {
    hide Doomed, Filter;
    FilterSame(names, stays, n => n !in Doomed(names, keep) || n in stuck);
  }

  lemma LeftPermutesSuffix(names: seq<string>, keep: int)
    requires Distinct(names)
    ensures
      var sorted, c := Sort(names, StringLeq), Surplus(|names|, keep);
      && |sorted| == |names| && |Left(names, keep, {})| == |names| - c
      && (forall x :: x in Left(names, keep, {}) ==> x in sorted[c..])
      && (forall x :: x in names && x !in Left(names, keep, {}) ==> x in sorted[..c])
  {
    hide StringLeq, Sort, Doomed, Filter, Left;
    var sorted, c := Sort(names, StringLeq), Surplus(|names|, keep);
    DoomedIsPrefix(names, keep);
    SortDistinct(names);
    var doomed := Doomed(names, keep);
    var stays := x => x !in doomed || x in {};
    FilterPermutes(names, sorted, stays);
    SuffixStays(sorted, c, stays);
    LeftIs(names, keep, {}, stays);
    assert multiset(Left(names, keep, {})) == multiset(sorted[c..]);
    forall x | x in Left(names, keep, {}) ensures x in sorted[c..] {
      assert x in multiset(Left(names, keep, {}));
    }
  }

  /** With distinct names that can all be removed, the newest `keep` stay, and nothing removed is newer
      than anything kept. */
  lemma KeepsNewest(names: seq<string>, keep: int)
    requires Distinct(names)
    ensures |Left(names, keep, {})| == if keep <= 0 then 0 else if keep < |names| then keep else |names|
    ensures forall gone, kept :: gone in names && gone !in Left(names, keep, {}) && kept in Left(names, keep, {}) ==> StringLeq(gone, kept)
  {
    hide StringLeq, Sort, Left;
    var sorted, c := Sort(names, StringLeq), Surplus(|names|, keep);
    LeftPermutesSuffix(names, keep);
    StringOrder();
    SortSorts(names, StringLeq);
    forall gone, kept | gone in sorted[..c] && kept in sorted[c..] ensures StringLeq(gone, kept) {
      var i :| 0 <= i < c && sorted[..c][i] == gone;
      var j :| 0 <= j < |sorted| - c && sorted[c..][j] == kept;
      assert sorted[i] == gone && sorted[c + j] == kept;
    }
  }

  /** Of two names the one with the smaller character where they first differ comes first, and a name comes
      before any that goes on from it: for timestamps of one form, the order of time. */
  lemma {:induction false} NameOrder(common: string, x: char, a: string, y: char, b: string)
    requires x < y
    ensures StringLeq(common + [x] + a, common + [y] + b) && !StringLeq(common + [y] + b, common + [x] + a)
    ensures StringLeq(common, common + b)
  {
    var s, t := common + [x] + a, common + [y] + b;
    if common == "" {
      assert s[0] == x && t[0] == y;
    } else {
      var rest := common[1..];
      assert s[0] == t[0] == common[0] == (common + b)[0];
      assert s[1..] == rest + [x] + a && t[1..] == rest + [y] + b && (common + b)[1..] == rest + b;
      NameOrder(rest, x, a, y, b);
      LeqTail(s, t);
      LeqTail(t, s);
      LeqTail(common, common + b);
    }
  }

  lemma LeqTail(s: string, t: string)
    requires s != "" && t != "" && s[0] == t[0]
    ensures StringLeq(s, t) <==> StringLeq(s[1..], t[1..])
  {
  }

  /** A file that cannot be removed stays, and one that stays was among the newest or could not be removed. */
  lemma StuckStay(names: seq<string>, keep: int, stuck: set<string>, n: string)
    ensures n in Left(names, keep, stuck) <==> n in names && (n in Left(names, keep, {}) || n in stuck)
  {
    hide Doomed;
  }
}
