/** Where the ledger and the fleet have come apart: a run that did not look at a setting, that did not
    save the ledger, or that went over other nodes. When the next run still does justice to edits. */
module Lapses {
  import opened Common
  import opened Ledger
  import opened Recency

  /** No stamp of these nodes is as late as the run. */
  ghost predicate Earlier<V>(nodes: seq<Ip>, ledger: Stamps<V>, now: int)
  {
    forall ip :: ip in nodes && ip in ledger ==> ledger[ip].changedAt < now
  }

  /** The ledger has every node with the value it was left with. */
  ghost predicate RecordedAs<V>(nodes: seq<Ip>, ledger: Stamps<V>, values: Values<V>)
    requires Covers(nodes, values)
  {
    forall ip :: ip in nodes ==> ip in ledger && ledger[ip].value == values[ip]
  }

  /** A run at `now` gives its own time to exactly the nodes that were edited since they were left. */
  ghost predicate TellsEdits<V>(nodes: seq<Ip>, ledger: Stamps<V>, left: Values<V>, found: Values<V>, now: int)
    requires Covers(nodes, left) && Covers(nodes, found)
  {
    forall ip :: ip in nodes ==> (Observe(nodes, found, ledger, now)[ip].changedAt == now <==> found[ip] != left[ip])
  }

  /** Whatever is edited next, the next run stamps exactly the edited nodes, if and only if the ledger
      has every node as it was left. */
  lemma StampsTellEdits<V(!new)>(nodes: seq<Ip>, ledger: Stamps<V>, left: Values<V>, now: int)
    requires Covers(nodes, left) && Earlier(nodes, ledger, now)
    ensures (forall found: Values<V> :: Covers(nodes, found) ==> TellsEdits(nodes, ledger, left, found, now))
       <==> RecordedAs(nodes, ledger, left)
  {
    if forall found: Values<V> :: Covers(nodes, found) ==> TellsEdits(nodes, ledger, left, found, now) {
      assert TellsEdits(nodes, ledger, left, left, now);
      forall ip | ip in nodes ensures ip in ledger && ledger[ip].value == left[ip] {
        assert Observe(nodes, left, ledger, now)[ip].changedAt != now;
      }
    }
  }

  /** And then, if anything was edited, an edited node's entry wins. */
  lemma EditWins<V>(nodes: seq<Ip>, ledger: Stamps<V>, left: Values<V>, found: Values<V>, now: int, edited: Ip)
    requires Covers(nodes, left) && Covers(nodes, found) && Earlier(nodes, ledger, now) && RecordedAs(nodes, ledger, left)
    requires edited in nodes && found[edited] != left[edited]
    ensures exists ip :: ip in nodes && found[ip] != left[ip] && Pick(nodes, Site(found, ledger), now) == Entry(found[ip], now)
  {
    var seen := Observe(nodes, found, ledger, now);
    WinnerTops(nodes, seen, edited);
    var ip := nodes[Leader(nodes, seen, |nodes|)];
    assert seen[ip] == Winner(nodes, seen);
  }

  /** After a run over `nodes`, a run over `fleet` stamps exactly the edited nodes, whatever is edited in
      between, if and only if it goes over nodes of that run only. */
  lemma ChangedListTellsEdits<V(!new)>(nodes: seq<Ip>, fleet: seq<Ip>, s: Site<V>, now: int, accepts: set<Ip>, next: int)
    requires nodes != [] && Covers(nodes, s.values) && Covers(fleet, s.values) && Earlier(nodes, s.ledger, now) && now < next
    ensures
      var r := Round(nodes, s, now, accepts);
      && Covers(fleet, r.values)
      && ((forall found: Values<V> :: Covers(fleet, found) ==> TellsEdits(fleet, r.ledger, r.values, found, next))
          <==> forall ip :: ip in fleet ==> ip in nodes)
  {
    var r := Round(nodes, s, now, accepts);
    RoundRecords(nodes, s, now, accepts);
    assert Earlier(fleet, r.ledger, next);
    hide Round;
    StampsTellEdits(fleet, r.ledger, r.values, next);
  }

  /** The value is present, and the ledger does not have the node with it. */
  ghost predicate NewHere<V>(s: Site<V>, ip: Ip)
  {
    ip in s.values && s.values[ip].Some? && (ip !in s.ledger || s.ledger[ip].value != s.values[ip])
  }

  /** Whether a present value wins: exactly when some node has one that the ledger does not know there, or
      nothing differs from the ledger and its own winner is present. A value put back where the
      ledger still has it counts as no edit, and then an absence that the ledger has not seen wins. */
  lemma PresentWinsIff<V>(nodes: seq<Ip>, s: Site<V>, now: int)
    requires nodes != [] && Covers(nodes, s.values) && Earlier(nodes, s.ledger, now)
    ensures Pick(nodes, s, now).value.Some?
       <==> (exists ip :: ip in nodes && NewHere(s, ip))
            || (RecordedAs(nodes, s.ledger, s.values) && Winner(nodes, s.ledger).value.Some?)
  {
    var seen := Observe(nodes, s.values, s.ledger, now);
    var lead := nodes[Leader(nodes, seen, |nodes|)];
    assert Winner(nodes, seen) == seen[lead];
    if ip :| ip in nodes && NewHere(s, ip) {
      WinnerTops(nodes, seen, ip);
    } else if RecordedAs(nodes, s.ledger, s.values) {
      SameWinner(nodes, seen, s.ledger);
    } else {
      var ip :| ip in nodes && !(ip in s.ledger && s.ledger[ip].value == s.values[ip]);
      WinnerTops(nodes, seen, ip);
      assert !NewHere(s, lead);
    }
  }

  lemma SameWinner<V>(nodes: seq<Ip>, a: Stamps<V>, b: Stamps<V>)
    requires nodes != [] && Covers(nodes, a) && Covers(nodes, b) && forall ip :: ip in nodes ==> a[ip] == b[ip]
    ensures Winner(nodes, a) == Winner(nodes, b)
  {
    SameLeader(nodes, a, b, |nodes|);
  }

  lemma {:induction false} SameLeader<V>(nodes: seq<Ip>, a: Stamps<V>, b: Stamps<V>, n: nat)
    requires 0 < n <= |nodes| && Covers(nodes, a) && Covers(nodes, b) && forall ip :: ip in nodes ==> a[ip] == b[ip]
    ensures Leader(nodes, a, n) == Leader(nodes, b, n)
  {
    if n > 1 {
      SameLeader(nodes, a, b, n - 1);
    }
  }
}
