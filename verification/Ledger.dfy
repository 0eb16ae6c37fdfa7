/** The change-detection ledger of one setting, and one replication round over it. */
module Ledger {
  import opened Common

  /** What the ledger remembers about one node: the value last seen there and the run that first
      saw it. `None` stands for an absent (or null) value. */
  datatype Entry<+V> = Entry(value: Option<V>, changedAt: int)

  type Values<V> = map<Ip, Option<V>>
  type Stamps<V> = map<Ip, Entry<V>>

  ghost predicate Covers<T>(nodes: seq<Ip>, m: map<Ip, T>)
  {
    forall ip :: ip in nodes ==> ip in m
  }

  /** Re-stamp a node exactly when its value moved since the ledger last saw it. */
  function Observe<V(==)>(nodes: seq<Ip>, values: Values<V>, ledger: Stamps<V>, now: int): Stamps<V>
    requires Covers(nodes, values)
  {
    map ip | ip in nodes ::
      if ip in ledger && ledger[ip].value == values[ip] then ledger[ip] else Entry(values[ip], now)
  }

  /** The sort key (changed_at, value is present), compared strictly. */
  predicate Outranks<V>(a: Entry<V>, b: Entry<V>)
  {
    a.changedAt > b.changedAt || (a.changedAt == b.changedAt && a.value.Some? && b.value.None?)
  }

  /** Node k is the first of the greatest among the first n nodes. */
  ghost predicate Leads<V>(nodes: seq<Ip>, seen: Stamps<V>, k: int, n: int)
    requires n <= |nodes| && Covers(nodes, seen)
  {
    && 0 <= k < n
    && (forall j :: 0 <= j < n ==> !Outranks(seen[nodes[j]], seen[nodes[k]]))
    && (forall j :: 0 <= j < k ==> Outranks(seen[nodes[k]], seen[nodes[j]]))
  }

  /** `max(nodes, key=...)`: the index of the first greatest of the first n nodes. */
  function Leader<V>(nodes: seq<Ip>, seen: Stamps<V>, n: nat): (k: nat)
    requires 0 < n <= |nodes| && Covers(nodes, seen)
    ensures Leads(nodes, seen, k, n)
  {
    if n == 1 then 0
    else
      var k := Leader(nodes, seen, n - 1);
      if Outranks(seen[nodes[n - 1]], seen[nodes[k]]) then n - 1 else k
  }

  function Winner<V>(nodes: seq<Ip>, seen: Stamps<V>): Entry<V>
    requires nodes != [] && Covers(nodes, seen)
  {
    seen[nodes[Leader(nodes, seen, |nodes|)]]
  }

  function Stale<V(==)>(nodes: seq<Ip>, values: Values<V>, winner: Entry<V>): seq<Ip>
    requires Covers(nodes, values)
  {
    Filter(nodes, ip => ip in values && values[ip] != winner.value)
  }

  /** Stamp every node whose value moved, then pick the most recent entry; ties prefer a present
      value and then the earlier node. */
  method PickWinner<V(==)>(nodes: seq<Ip>, values: Values<V>, ledger: Stamps<V>, now: int)
      returns (winner: Entry<V>, updated: Stamps<V>, stale: seq<Ip>)
    requires nodes != [] && Covers(nodes, values)
    ensures updated == Observe(nodes, values, ledger, now)
    ensures winner == Winner(nodes, updated)
    ensures stale == Stale(nodes, values, winner)
  {
    updated := map[];
    for i := 0 to |nodes|
      invariant updated == Observe(nodes[..i], values, ledger, now)
    {
      var ip := nodes[i];
      if ip !in ledger || ledger[ip].value != values[ip] {
        updated := updated[ip := Entry(values[ip], now)];
      } else {
        updated := updated[ip := ledger[ip]];
      }
      assert forall x :: x in nodes[..i + 1] <==> x in nodes[..i] || x == ip;
    }
    assert nodes[..|nodes|] == nodes;
    winner := updated[nodes[Leader(nodes, updated, |nodes|)]];
    stale := Stale(nodes, values, winner);
  }

  /** One setting across the fleet: what each node holds, and the ledger. */
  datatype Site<V> = Site(values: Values<V>, ledger: Stamps<V>)

  /** What a run would pick if it looked at this site now. */
  function Pick<V(==)>(nodes: seq<Ip>, s: Site<V>, now: int): Entry<V>
    requires nodes != [] && Covers(nodes, s.values)
  {
    Winner(nodes, Observe(nodes, s.values, s.ledger, now))
  }

  /** One run for one setting: observe, pick, push the winner to the stale nodes. A node accepts a
      push or is left as it was; an accepted push copies the winner's stamp and makes none. */
  function Round<V(==)>(nodes: seq<Ip>, s: Site<V>, now: int, accepts: set<Ip>): Site<V>
    requires nodes != [] && Covers(nodes, s.values)
  {
    var seen := Observe(nodes, s.values, s.ledger, now);
    var w := Winner(nodes, seen);
    Site(map ip | ip in s.values :: if ip in nodes && ip in accepts then w.value else s.values[ip],
         map ip | ip in nodes :: if s.values[ip] != w.value && ip in accepts then w else seen[ip])
  }

  lemma WinnerTops<V>(nodes: seq<Ip>, seen: Stamps<V>, ip: Ip)
    requires nodes != [] && Covers(nodes, seen) && ip in nodes
    ensures Winner(nodes, seen).changedAt >= seen[ip].changedAt
    ensures !Outranks(seen[ip], Winner(nodes, seen))
  {
    var i :| 0 <= i < |nodes| && nodes[i] == ip;
  }

  /** When one node alone changed since the last run, its value wins, present or absent. */
  lemma LoneChangeWins<V>(nodes: seq<Ip>, s: Site<V>, now: int, changed: Ip)
    requires nodes != [] && Covers(nodes, s.values) && changed in nodes
    requires changed in s.ledger ==> s.ledger[changed].value != s.values[changed]
    requires forall ip :: ip in nodes && ip != changed ==>
      ip in s.ledger && s.ledger[ip].value == s.values[ip] && s.ledger[ip].changedAt < now
    ensures Pick(nodes, s, now) == Entry(s.values[changed], now)
  {
    WinnerTops(nodes, Observe(nodes, s.values, s.ledger, now), changed);
  }
}
