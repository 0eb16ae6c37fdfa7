/** A setting as the runs that look at it see it: what each such run finds, and nothing in between.
    Whatever happens between two of them is one window of edits. */
module Visits {
  import opened Common
  import opened Ledger
  import opened Recency

  /** A run that looks at the setting and saves the ledger: the values it finds, its time, and who
      accepts a push. */
  datatype Visit<V> = Visit(values: Values<V>, now: int, accepts: set<Ip>)

  ghost predicate Over<V>(nodes: seq<Ip>, visits: seq<Visit<V>>)
  {
    forall i :: 0 <= i < |visits| ==> visits[i].values.Keys == (set ip | ip in nodes)
  }

  function Nothing<V>(nodes: seq<Ip>): Values<V>
  {
    map ip | ip in nodes :: None
  }

  /** The values and the ledger that the visits leave. */
  function Replay<V(==)>(nodes: seq<Ip>, visits: seq<Visit<V>>): (s: Site<V>)
    requires nodes != [] && Over(nodes, visits)
    ensures s.values.Keys == set ip | ip in nodes
    decreases |visits|, 1
  {
    if visits == [] then Site(Nothing(nodes), map[])
    else Round(nodes, FoundBy(nodes, visits), visits[|visits| - 1].now, visits[|visits| - 1].accepts)
  }

  /** What the last visit finds. */
  function FoundBy<V(==)>(nodes: seq<Ip>, visits: seq<Visit<V>>): (s: Site<V>)
    requires nodes != [] && Over(nodes, visits) && visits != []
    ensures s.values.Keys == set ip | ip in nodes
    decreases |visits|, 0
  {
    Site(visits[|visits| - 1].values, Replay(nodes, visits[..|visits| - 1]).ledger)
  }

  function PickAt<V(==)>(nodes: seq<Ip>, visits: seq<Visit<V>>): Entry<V>
    requires nodes != [] && Over(nodes, visits) && visits != []
  {
    Pick(nodes, FoundBy(nodes, visits), visits[|visits| - 1].now)
  }

  /** Visit k finds something else at the node than visit k - 1 left; the first finds all anew. */
  ghost predicate Changed<V>(nodes: seq<Ip>, visits: seq<Visit<V>>, k: int, ip: Ip)
    requires nodes != [] && Over(nodes, visits) && 0 <= k < |visits|
  {
    ip in nodes && (k == 0 || visits[k].values[ip] != Replay(nodes, visits[..k]).values[ip])
  }

  ghost predicate AnyChanged<V>(nodes: seq<Ip>, visits: seq<Visit<V>>, k: int)
    requires nodes != [] && Over(nodes, visits) && 0 <= k < |visits|
  {
    exists ip :: Changed(nodes, visits, k, ip)
  }

  lemma ReplayAppend<V>(nodes: seq<Ip>, before: seq<Visit<V>>, v: Visit<V>)
    requires nodes != [] && Over(nodes, before) && Over(nodes, before + [v])
    ensures Covers(nodes, v.values)
    ensures
      var s := Site(v.values, Replay(nodes, before).ledger);
      && Replay(nodes, before + [v]) == Round(nodes, s, v.now, v.accepts)
      && PickAt(nodes, before + [v]) == Pick(nodes, s, v.now)
  {
    assert (before + [v])[..|before|] == before && (before + [v])[|before|] == v;
    hide Round, Pick;
    assert v.values.Keys == set ip | ip in nodes;
  }

  ghost predicate InTime<V>(visits: seq<Visit<V>>)
  {
    forall i, j :: 0 <= i < j < |visits| ==> visits[i].now < visits[j].now
  }

  ghost predicate Until<V>(visits: seq<Visit<V>>, now: int)
  {
    forall i :: 0 <= i < |visits| ==> visits[i].now <= now
  }

  lemma InTimeAppend<V>(before: seq<Visit<V>>, earlier: int, more: seq<Visit<V>>, now: int)
    requires InTime(before) && Until(before, earlier) && (before != [] ==> earlier < now)
    requires |more| <= 1 && (more != [] ==> more[0].now == now)
    ensures InTime(before + more) && Until(before + more, now)
  {
  }

  // --- Visits are windows of a history ---

  function EditsTo<V>(nodes: seq<Ip>, values: Values<V>): seq<Edit<V>>
    requires Covers(nodes, values)
    decreases |nodes|
  {
    if nodes == [] then [] else [Edit(nodes[0], values[nodes[0]])] + EditsTo(nodes[1..], values)
  }

  lemma {:induction false} EditsArrive<V>(before: Values<V>, nodes: seq<Ip>, values: Values<V>)
    requires Covers(nodes, values)
    ensures
      var r := ApplyEdits(before, EditsTo(nodes, values));
      && r.Keys == before.Keys + (set ip | ip in nodes)
      && forall ip :: ip in r ==> r[ip] == if ip in nodes then values[ip] else before[ip]
    decreases |nodes|
  {
    if nodes != [] {
      var e := Edit(nodes[0], values[nodes[0]]);
      assert EditsTo(nodes, values)[1..] == EditsTo(nodes[1..], values);
      EditsArrive(before[nodes[0] := values[nodes[0]]], nodes[1..], values);
    }
  }

  function WindowOf<V>(nodes: seq<Ip>, v: Visit<V>): Window<V>
    requires Covers(nodes, v.values)
  {
    Window(EditsTo(nodes, v.values), v.now, v.accepts)
  }

  function Windows<V>(nodes: seq<Ip>, visits: seq<Visit<V>>): (h: History<V>)
    requires Over(nodes, visits)
    ensures |h| == |visits|
    ensures forall i :: 0 <= i < |visits| ==> h[i] == WindowOf(nodes, visits[i])
  {
    if visits == [] then []
    else Windows(nodes, visits[..|visits| - 1]) + [WindowOf(nodes, visits[|visits| - 1])]
  }

  lemma {:induction false} WindowsPrefix<V>(nodes: seq<Ip>, visits: seq<Visit<V>>, k: nat)
    requires Over(nodes, visits) && k <= |visits|
    ensures Windows(nodes, visits)[..k] == Windows(nodes, visits[..k])
  {
  }

  lemma {:induction false} ReplayIsAfter<V>(nodes: seq<Ip>, visits: seq<Visit<V>>)
    requires nodes != [] && Over(nodes, visits)
    ensures Covers(nodes, Nothing<V>(nodes))
    ensures After(nodes, Nothing<V>(nodes), Windows(nodes, visits)) == Replay(nodes, visits)
    ensures visits != [] ==> AtRun(nodes, Nothing<V>(nodes), Windows(nodes, visits)) == FoundBy(nodes, visits)
  {
    hide Round, EditsTo, ApplyEdits;
    if visits != [] {
      var init, last := visits[..|visits| - 1], visits[|visits| - 1];
      var w := Windows(nodes, visits);
      ReplayIsAfter(nodes, init);
      WindowsPrefix(nodes, visits, |init|);
      var before := Replay(nodes, init);
      EditsArrive(before.values, nodes, last.values);
      assert ApplyEdits(before.values, w[|w| - 1].edits) == last.values;
    }
  }

  lemma ChangedIsEdit<V>(nodes: seq<Ip>, visits: seq<Visit<V>>, k: int)
    requires nodes != [] && Over(nodes, visits) && 0 <= k < |visits|
    ensures Covers(nodes, Nothing<V>(nodes))
    ensures forall ip :: EditShows(nodes, Nothing<V>(nodes), Windows(nodes, visits), k, ip) <==> Changed(nodes, visits, k, ip)
    ensures AtRun(nodes, Nothing<V>(nodes), Windows(nodes, visits)[..k + 1]).values == visits[k].values
  {
    FoundValues(nodes, visits, k);
    hide Replay, FoundBy, After, AtRun, Windows;
    WindowsPrefix(nodes, visits, k);
    WindowsPrefix(nodes, visits, k + 1);
    ReplayIsAfter(nodes, visits[..k]);
    ReplayIsAfter(nodes, visits[..k + 1]);
  }

  lemma FoundValues<V>(nodes: seq<Ip>, visits: seq<Visit<V>>, k: int)
    requires nodes != [] && Over(nodes, visits) && 0 <= k < |visits|
    ensures FoundBy(nodes, visits[..k + 1]).values == visits[k].values
  {
    hide Replay;
  }

  /** Visit k is the latest that finds a change, and the entry carries its time and a value that it
      found changed. */
  ghost predicate FromLatestChange<V>(nodes: seq<Ip>, visits: seq<Visit<V>>, e: Entry<V>, k: int)
    requires nodes != [] && Over(nodes, visits)
  {
    && 0 <= k < |visits| && e.changedAt == visits[k].now
    && (exists ip :: Changed(nodes, visits, k, ip) && visits[k].values[ip] == e.value)
    && forall j :: k < j < |visits| ==> !AnyChanged(nodes, visits, j)
  }

  lemma LatestChangeWins<V>(nodes: seq<Ip>, visits: seq<Visit<V>>)
    requires nodes != [] && Over(nodes, visits) && visits != [] && InTime(visits)
    ensures exists k :: FromLatestChange(nodes, visits, PickAt(nodes, visits), k)
  {
    hide Replay, FoundBy, After, AtRun, EditShows;
    var start, w := Nothing<V>(nodes), Windows(nodes, visits);
    ReplayIsAfter(nodes, visits);
    LatestEditWins(nodes, start, w);
    var k := LatestWindow(nodes, start, w);
    var e := PickAt(nodes, visits);
    assert LastWinner(nodes, start, w) == e;
    ChangedIsEdit(nodes, visits, k);
    var ip :| EditShows(nodes, start, w, k, ip) && AtRun(nodes, start, w[..k + 1]).values[ip] == e.value;
    assert Changed(nodes, visits, k, ip) && visits[k].values[ip] == e.value;
    forall j | k < j < |visits| ensures !AnyChanged(nodes, visits, j) {
      ChangedIsEdit(nodes, visits, j);
      assert !AnyEditShows(nodes, start, w, j);
    }
    assert FromLatestChange(nodes, visits, e, k);
  }

  /** Every stamp the visits leave is the time of a visit that found the value changed. */
  lemma StampsFromChanges<V>(nodes: seq<Ip>, visits: seq<Visit<V>>, ip: Ip)
    requires nodes != [] && Over(nodes, visits) && visits != [] && ip in nodes
    ensures
      var s := Replay(nodes, visits);
      && ip in s.ledger && s.ledger[ip].value == s.values[ip]
      && exists k, x :: 0 <= k < |visits| && s.ledger[ip].changedAt == visits[k].now
           && Changed(nodes, visits, k, x) && visits[k].values[x] == s.ledger[ip].value
  {
    hide Replay, FoundBy, After, AtRun, EditShows;
    var start, w := Nothing<V>(nodes), Windows(nodes, visits);
    ReplayIsAfter(nodes, visits);
    StampsHaveAuthors(nodes, start, w);
    var e := Replay(nodes, visits).ledger[ip];
    var k :| StampIsAuthor(nodes, start, w, e, k);
    ChangedIsEdit(nodes, visits, k);
    var x :| EditShows(nodes, start, w, k, x) && AtRun(nodes, start, w[..k + 1]).values[x] == e.value;
    assert Changed(nodes, visits, k, x) && visits[k].values[x] == e.value;
  }

  lemma ChangeParts<V>(nodes: seq<Ip>, visits: seq<Visit<V>>, e: Entry<V>, k: int) returns (ip: Ip)
    requires nodes != [] && Over(nodes, visits) && FromLatestChange(nodes, visits, e, k)
    ensures 0 <= k < |visits| && e.changedAt == visits[k].now
    ensures Changed(nodes, visits, k, ip) && ip in nodes && ip in visits[k].values && visits[k].values[ip] == e.value
  {
    hide Replay, AnyChanged;
    ip :| Changed(nodes, visits, k, ip) && visits[k].values[ip] == e.value;
  }

  lemma NoLaterChange<V>(nodes: seq<Ip>, visits: seq<Visit<V>>, e: Entry<V>, k: int, i: int)
    requires nodes != [] && Over(nodes, visits) && FromLatestChange(nodes, visits, e, k) && k < i < |visits|
    ensures !AnyChanged(nodes, visits, i)
  {
    hide AnyChanged, Changed, Over, Replay;
  }

  // --- Quiet visits ---

  /** The nodes that do not hold the pick of the last visit when it looks. */
  ghost function BehindAt<V>(nodes: seq<Ip>, visits: seq<Visit<V>>): set<Ip>
    requires nodes != [] && Over(nodes, visits) && visits != []
  {
    Behind(nodes, FoundBy(nodes, visits), visits[|visits| - 1].now)
  }

  lemma BehindIs<V>(nodes: seq<Ip>, visits: seq<Visit<V>>)
    requires nodes != [] && Over(nodes, visits) && visits != []
    ensures
      var v := visits[|visits| - 1];
      && Covers(nodes, v.values)
      && BehindAt(nodes, visits) == set ip | ip in nodes && v.values[ip] != PickAt(nodes, visits).value
  {
    hide Pick, Replay;
    assert FoundBy(nodes, visits).values == visits[|visits| - 1].values;
  }

  /** Who accepted a push in visits j to n - 1. */
  ghost function AcceptedIn<V>(visits: seq<Visit<V>>, j: nat, n: nat): set<Ip>
    requires j <= n <= |visits|
    decreases n
  {
    if n == j then {} else AcceptedIn(visits, j, n - 1) + visits[n - 1].accepts
  }

  /** While nothing changes after visit j, the same entry is picked whichever pushes fail, and a node
      stays behind exactly until it has accepted one. */
  lemma {:induction false} QuietVisitsKeep<V>(nodes: seq<Ip>, visits: seq<Visit<V>>, j: nat, n: nat)
    requires nodes != [] && Over(nodes, visits) && j < n <= |visits|
    requires forall i :: j < i < n ==> !AnyChanged(nodes, visits, i)
    ensures PickAt(nodes, visits[..n]) == PickAt(nodes, visits[..j + 1])
    ensures BehindAt(nodes, visits[..n]) == BehindAt(nodes, visits[..j + 1]) - AcceptedIn(visits, j, n - 1)
    decreases n
  {
    hide PickAt, BehindAt, AnyChanged, AcceptedIn;
    AcceptedMore(visits, j, n - 1);
    if n > j + 1 {
      QuietVisitsKeep(nodes, visits, j, n - 1);
      QuietStep(nodes, visits, n);
      hide *;
      DropBoth(BehindAt(nodes, visits[..j + 1]), AcceptedIn(visits, j, n - 2), visits[n - 2].accepts);
    }
  }

  lemma AcceptedMore<V>(visits: seq<Visit<V>>, j: nat, n: nat)
    requires j <= n <= |visits|
    ensures AcceptedIn(visits, j, n) == if n == j then {} else AcceptedIn(visits, j, n - 1) + visits[n - 1].accepts
  {
  }

  lemma DropBoth<T>(a: set<T>, b: set<T>, c: set<T>)
    ensures a - b - c == a - (b + c)
  {
  }

  lemma QuietStep<V>(nodes: seq<Ip>, visits: seq<Visit<V>>, n: nat)
    requires nodes != [] && Over(nodes, visits) && 1 < n <= |visits| && !AnyChanged(nodes, visits, n - 1)
    ensures PickAt(nodes, visits[..n]) == PickAt(nodes, visits[..n - 1])
    ensures BehindAt(nodes, visits[..n]) == BehindAt(nodes, visits[..n - 1]) - visits[n - 2].accepts
  {
    UnchangedFound(nodes, visits, n - 1);
    var before, v := visits[..n - 1], visits[n - 2];
    assert before[|before| - 1] == v && Replay(nodes, before) == Round(nodes, FoundBy(nodes, before), v.now, v.accepts);
    hide Round, Pick, Behind, FoundBy, Replay, AnyChanged;
    WinnerIsStable(nodes, FoundBy(nodes, before), v.now, v.accepts, visits[n - 1].now);
  }

  /** A visit that finds nothing changed finds what the one before left. */
  lemma UnchangedFound<V>(nodes: seq<Ip>, visits: seq<Visit<V>>, k: nat)
    requires nodes != [] && Over(nodes, visits) && 0 < k < |visits| && !AnyChanged(nodes, visits, k)
    ensures FoundBy(nodes, visits[..k + 1]) == Replay(nodes, visits[..k])
  {
    assert visits[..k + 1][..k] == visits[..k];
    var found, left := visits[k].values, Replay(nodes, visits[..k]).values;
    forall ip | ip in nodes ensures found[ip] == left[ip] {
      assert !Changed(nodes, visits, k, ip);
    }
    assert found == left;
  }
}
