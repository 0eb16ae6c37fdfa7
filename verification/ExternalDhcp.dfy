/** Clients of an external DHCP source, published as DNS records on every node. */
module ExternalDhcp {
  import opened Common
  import opened Text
  import opened Ipv4

  datatype Client = Client(ip: string, hostname: string)

  function FreshLine(c: Client): Option<string>
  {
    if ValidIp(c.ip) then Some(c.ip + " " + c.hostname) else None
  }

  function FreshLines(clients: seq<Client>): seq<string>
  {
    FilterMap(clients, FreshLine)
  }

  function PublishedBy(clients: seq<Client>): set<string>
  {
    set i | 0 <= i < |clients| && ValidIp(clients[i].ip) :: clients[i].ip
  }

  /** A record whose first word is one of these addresses; a blank record has no first word. */
  predicate Names(line: string, ips: set<string>)
  {
    FirstWord(line) != "" && FirstWord(line) in ips
  }

  function Without(lines: seq<string>, ips: set<string>): seq<string>
  {
    Filter(lines, (line: string) => !Names(line, ips))
  }

  /** Drop what the previous sync published, keep the rest, add the current clients. */
  function Merge(current: seq<string>, clients: seq<Client>, previous: set<string>): seq<string>
  {
    Without(current, previous) + FreshLines(clients)
  }

  // --- One sync over the fleet ---

  /** What a sync leaves on the nodes it has visited; a node that cannot be read or written keeps
      its records. */
  function Visit(nodes: seq<Ip>, hosts: map<Ip, seq<string>>, clients: seq<Client>, previous: set<string>,
                 works: set<Ip>): (r: map<Ip, seq<string>>)
    ensures r.Keys == hosts.Keys
  {
    if nodes == [] then hosts
    else
      var h, ip := Visit(nodes[..|nodes| - 1], hosts, clients, previous, works), nodes[|nodes| - 1];
      if ip in works && ip in h then h[ip := Merge(h[ip], clients, previous)] else h
  }

  class Publisher {
    var hosts: map<Ip, seq<string>>
    var published: set<string>

    constructor (hosts: map<Ip, seq<string>>, published: set<string>)
      ensures this.hosts == hosts && this.published == published
    {
      this.hosts, this.published := hosts, published;
    }

    /** Nothing happens when the clients cannot be fetched. The published addresses are saved even
        when a node failed. */
    method SyncNow(nodes: seq<Ip>, fetched: Option<seq<Client>>, readable: set<Ip>, accepts: set<Ip>) returns (ok: bool)
      requires forall ip :: ip in nodes ==> ip in hosts
      modifies this
      ensures fetched.None? ==> hosts == old(hosts) && published == old(published) && !ok
      ensures fetched.Some? ==> hosts == Visit(nodes, old(hosts), fetched.value, old(published), readable * accepts)
      ensures fetched.Some? ==> published == PublishedBy(fetched.value)
      ensures fetched.Some? ==> (ok <==> forall ip :: ip in nodes ==> ip in readable && ip in accepts)
    {
      if fetched.None? {
        return false;
      }
      var clients := fetched.value;
      var previous := published;
      var failed: seq<Ip> := [];
      for i := 0 to |nodes|
        invariant hosts == Visit(nodes[..i], old(hosts), clients, previous, readable * accepts)
        invariant published == previous
        invariant failed == [] <==> forall k :: 0 <= k < i ==> nodes[k] in readable && nodes[k] in accepts
      {
        hide Merge;
        assert nodes[..i + 1][..i] == nodes[..i];
        var ip := nodes[i];
        if ip !in readable {
          failed := failed + [ip];
          continue;
        }
        var merged := Merge(hosts[ip], clients, previous);
        if ip in accepts {
          hosts := hosts[ip := merged];
        } else {
          failed := failed + [ip];
        }
      }
      assert nodes[..|nodes|] == nodes;
      published := PublishedBy(clients);
      ok := failed == [];
    }
  }

  /** With distinct nodes each one gets its own merge, once. */
  lemma {:induction false} VisitEach(nodes: seq<Ip>, hosts: map<Ip, seq<string>>, clients: seq<Client>, previous: set<string>,
                                     works: set<Ip>, ip: Ip)
    requires Distinct(nodes) && ip in hosts
    ensures Visit(nodes, hosts, clients, previous, works)[ip]
         == if ip in nodes && ip in works then Merge(hosts[ip], clients, previous) else hosts[ip]
  {
    hide Merge;
    if nodes != [] {
      var init := nodes[..|nodes| - 1];
      assert nodes == init + [nodes[|nodes| - 1]];
      VisitEach(init, hosts, clients, previous, works, ip);
    }
  }

  // --- Whole sequences of syncs, as one node sees them ---

  /** A node's records after these syncs, oldest first; `works` says on which of them it could be
      read and written. */
  function AfterSyncs(original: seq<string>, saved: set<string>, syncs: seq<seq<Client>>, works: seq<bool>): seq<string>
    requires |works| == |syncs|
  {
    if syncs == [] then original
    else
      var n := |syncs| - 1;
      var before := AfterSyncs(original, saved, syncs[..n], works[..n]);
      if works[n] then Merge(before, syncs[n], SavedAfter(saved, syncs[..n])) else before
  }

  /** The saved set before the next sync. */
  function SavedAfter(saved: set<string>, syncs: seq<seq<Client>>): set<string>
  {
    if syncs == [] then saved else PublishedBy(syncs[|syncs| - 1])
  }

  /** Every address published before the next sync. */
  function EverPublished(saved: set<string>, syncs: seq<seq<Client>>): set<string>
  {
    if syncs == [] then saved else EverPublished(saved, syncs[..|syncs| - 1]) + PublishedBy(syncs[|syncs| - 1])
  }

  /** The records of the clients: one for each that has a valid address, in their order. */
  lemma {:induction false} FreshLinesAre(clients: seq<Client>, c: Client)
    ensures FreshLines([]) == []
    ensures FreshLines(clients + [c]) == if ValidIp(c.ip) then FreshLines(clients) + [c.ip + " " + c.hostname] else FreshLines(clients)
  {
    FilterMapAppend(clients, [c], FreshLine);
    assert [c][1..] == [];
    hide ValidIp;
  }

  /** A merge keeps a record exactly when the last sync did not publish its first word, and a blank record
      always. */
  lemma MergeKeepsIff(current: seq<string>, clients: seq<Client>, previous: set<string>, line: string)
    ensures line in Merge(current, clients, previous)
       <==> (line in current && (FirstWord(line) == "" || FirstWord(line) !in previous)) || line in FreshLines(clients)
  {
    hide FirstWord, FreshLines;
  }

  lemma FreshLineNames(c: Client)
    requires ValidIp(c.ip)
    ensures Names(c.ip + " " + c.hostname, {c.ip})
  {
    AddressChars(c.ip);
    FirstWordOf(c.ip, c.hostname);
  }

  lemma FreshAreNamed(clients: seq<Client>, line: string)
    requires line in FreshLines(clients)
    ensures Names(line, PublishedBy(clients))
  {
    hide ValidIp, FirstWord;
    var c :| c in clients && FreshLine(c) == Some(line);
    FreshLineNames(c);
  }

  lemma WithoutTwice(lines: seq<string>, a: set<string>, b: set<string>)
    ensures Without(Without(lines, a), b) == Without(lines, a + b)
  {
    hide FirstWord;
    FilterTwice(lines, (line: string) => !Names(line, a), (line: string) => !Names(line, b), (line: string) => !Names(line, a + b));
  }

  /** The second merge removes all that the first added. */
  lemma MergeAgain(lines: seq<string>, clients: seq<Client>, gone: set<string>)
    ensures Without(Without(lines, gone) + FreshLines(clients), PublishedBy(clients)) == Without(lines, gone + PublishedBy(clients))
  {
    hide Names, FreshLines, PublishedBy;
    var own := PublishedBy(clients);
    var out := (line: string) => !Names(line, own);
    forall line | line in FreshLines(clients) ensures !out(line) {
      FreshAreNamed(clients, line);
    }
    FilterAppend(Without(lines, gone), FreshLines(clients), out);
    FilterNone(FreshLines(clients), out);
    WithoutTwice(lines, gone, own);
  }

  /** Over any sequence of syncs that all reach the node, its records are its original ones whose
      address was not published by an earlier sync, in order, and then the latest entries. */
  lemma {:induction false} PublishedExactly(original: seq<string>, saved: set<string>, syncs: seq<seq<Client>>, works: seq<bool>)
    requires syncs != [] && |works| == |syncs| && forall i :: 0 <= i < |works| ==> works[i]
    ensures
      var n := |syncs| - 1;
      AfterSyncs(original, saved, syncs, works) == Without(original, EverPublished(saved, syncs[..n])) + FreshLines(syncs[n])
  {
    hide Without, PublishedBy, FreshLines;
    var n := |syncs| - 1;
    var earlier := syncs[..n];
    if n > 0 {
      PublishedExactly(original, saved, earlier, works[..n]);
      MergeAgain(original, earlier[n - 1], EverPublished(saved, earlier[..n - 1]));
    }
  }

  // --- A node that misses syncs ---

  /** What the syncs that reached the node dropped: each drops what the sync before it published, reached
      or not. */
  function Dropped(saved: set<string>, syncs: seq<seq<Client>>, works: seq<bool>): set<string>
    requires |works| == |syncs|
  {
    if syncs == [] then {}
    else
      var n := |syncs| - 1;
      Dropped(saved, syncs[..n], works[..n]) + (if works[n] then SavedAfter(saved, syncs[..n]) else {})
  }

  /** The published records that are still on the node. */
  function Kept(saved: set<string>, syncs: seq<seq<Client>>, works: seq<bool>): seq<string>
    requires |works| == |syncs|
  {
    if syncs == [] then []
    else
      var n := |syncs| - 1;
      var before := Kept(saved, syncs[..n], works[..n]);
      if works[n] then Without(before, SavedAfter(saved, syncs[..n])) + FreshLines(syncs[n]) else before
  }

  /** Whatever syncs reached it, a node's records are its original ones less the dropped addresses, and
      then what is left of the published ones. */
  lemma {:induction false} OriginalThenKept(original: seq<string>, saved: set<string>, syncs: seq<seq<Client>>, works: seq<bool>)
    requires |works| == |syncs|
    ensures AfterSyncs(original, saved, syncs, works) == Without(original, Dropped(saved, syncs, works)) + Kept(saved, syncs, works)
  {
    hide FreshLines, PublishedBy, Names;
    if syncs == [] {
      NothingDropped(original);
    } else {
      var n := |syncs| - 1;
      OriginalThenKept(original, saved, syncs[..n], works[..n]);
      if works[n] {
        var gone, last := Dropped(saved, syncs[..n], works[..n]), SavedAfter(saved, syncs[..n]);
        var kept := Kept(saved, syncs[..n], works[..n]);
        assert Dropped(saved, syncs, works) == gone + last && Kept(saved, syncs, works) == Without(kept, last) + FreshLines(syncs[n]);
        assert AfterSyncs(original, saved, syncs, works) == Without(Without(original, gone) + kept, last) + FreshLines(syncs[n]);
        hide *;
        WithoutAppend(Without(original, gone), kept, last);
        WithoutTwice(original, gone, last);
      } else {
        assert Dropped(saved, syncs, works) == Dropped(saved, syncs[..n], works[..n]);
      }
    }
  }

  lemma NothingDropped(lines: seq<string>)
    ensures Without(lines, {}) == lines
  {
    hide FirstWord;
    FilterAll(lines, (line: string) => !Names(line, {}));
  }

  lemma WithoutAppend(a: seq<string>, b: seq<string>, ips: set<string>)
    ensures Without(a + b, ips) == Without(a, ips) + Without(b, ips)
  {
    hide Names;
    FilterAppend(a, b, (line: string) => !Names(line, ips));
  }

  /** The record was published by sync j, and no later sync that reached the node dropped it. */
  ghost predicate StillThere(saved: set<string>, syncs: seq<seq<Client>>, works: seq<bool>, line: string, j: int)
    requires |works| == |syncs|
  {
    && 0 <= j < |syncs| && works[j] && line in FreshLines(syncs[j])
    && forall i :: j < i < |syncs| && works[i] ==> !Names(line, SavedAfter(saved, syncs[..i]))
  }

  lemma StillThereStep(saved: set<string>, syncs: seq<seq<Client>>, works: seq<bool>, line: string, j: int)
    requires |works| == |syncs| && 0 <= j < |syncs| - 1
    ensures
      var n := |syncs| - 1;
      StillThere(saved, syncs, works, line, j)
      <==> (StillThere(saved, syncs[..n], works[..n], line, j) && (works[n] ==> !Names(line, SavedAfter(saved, syncs[..n]))))
  {
    hide Names, FreshLines, SavedAfter;
    var n := |syncs| - 1;
    assert forall i :: 0 <= i < n ==> syncs[..n][..i] == syncs[..i];
  }

  lemma {:induction false} KeptLines(saved: set<string>, syncs: seq<seq<Client>>, works: seq<bool>, line: string)
    requires |works| == |syncs|
    ensures line in Kept(saved, syncs, works) <==> exists j :: StillThere(saved, syncs, works, line, j)
  {
    if syncs != [] {
      var n := |syncs| - 1;
      var before := Kept(saved, syncs[..n], works[..n]);
      KeptLines(saved, syncs[..n], works[..n], line);
      InWithout(before, SavedAfter(saved, syncs[..n]), line);
      assert line in Kept(saved, syncs, works)
        <==> (line in before && (works[n] ==> !Names(line, SavedAfter(saved, syncs[..n])))) || (works[n] && line in FreshLines(syncs[n])) by {
        hide Names, FreshLines, SavedAfter, Without, StillThere;
      }
      assert StillThere(saved, syncs, works, line, n) <==> works[n] && line in FreshLines(syncs[n]) by {
        hide Names, FreshLines, SavedAfter, Kept;
      }
      StillThereSteps(saved, syncs, works, line);
    }
  }

  lemma StillThereSteps(saved: set<string>, syncs: seq<seq<Client>>, works: seq<bool>, line: string)
    requires |works| == |syncs| && syncs != []
    ensures
      var n := |syncs| - 1;
      (exists j :: StillThere(saved, syncs, works, line, j))
      <==> StillThere(saved, syncs, works, line, n)
           || ((exists j :: StillThere(saved, syncs[..n], works[..n], line, j)) && (works[n] ==> !Names(line, SavedAfter(saved, syncs[..n]))))
  {
    hide Names, FreshLines, SavedAfter;
    var n := |syncs| - 1;
    if j :| StillThere(saved, syncs, works, line, j) && j != n {
      StillThereStep(saved, syncs, works, line, j);
    }
    if j :| StillThere(saved, syncs[..n], works[..n], line, j) {
      StillThereStep(saved, syncs, works, line, j);
    }
  }

  /** Whatever the node was given, a later sync that reached it dropped. */
  ghost predicate TakenBack(syncs: seq<seq<Client>>, works: seq<bool>)
    requires |works| == |syncs|
  {
    forall j, ip :: 0 <= j < |syncs| - 1 && works[j] && ip in PublishedBy(syncs[j]) ==>
      exists i :: j < i < |syncs| && works[i] && ip in PublishedBy(syncs[i - 1])
  }

  /** A record of the node's own that names any published address names one that was dropped. */
  ghost predicate OwnDropped(original: seq<string>, saved: set<string>, syncs: seq<seq<Client>>, works: seq<bool>)
    requires |works| == |syncs| && syncs != []
  {
    forall line :: line in original && Names(line, EverPublished(saved, syncs[..|syncs| - 1])) ==> Names(line, Dropped(saved, syncs, works))
  }

  /** The node's own records less every address an earlier sync published, then the latest entries. */
  function Promised(original: seq<string>, saved: set<string>, syncs: seq<seq<Client>>): seq<string>
    requires syncs != []
  {
    var n := |syncs| - 1;
    Without(original, EverPublished(saved, syncs[..n])) + FreshLines(syncs[n])
  }

  lemma {:induction false} DroppedWasPublished(saved: set<string>, syncs: seq<seq<Client>>, works: seq<bool>)
    requires |works| == |syncs| && syncs != []
    ensures Dropped(saved, syncs, works) <= EverPublished(saved, syncs[..|syncs| - 1])
  {
    hide PublishedBy;
    var n := |syncs| - 1;
    if n > 0 {
      DroppedWasPublished(saved, syncs[..n], works[..n]);
      assert syncs[..n][..n - 1] == syncs[..n - 1];
    }
  }

  lemma LineOf(clients: seq<Client>, line: string)
    requires line in FreshLines(clients)
    ensures FirstWord(line) in PublishedBy(clients)
  {
    FreshAreNamed(clients, line);
  }

  lemma LineFor(clients: seq<Client>, ip: string) returns (line: string)
    requires ip in PublishedBy(clients)
    ensures line in FreshLines(clients) && FirstWord(line) == ip
    ensures forall ips: set<string> :: Names(line, ips) <==> ip in ips
  {
    hide ValidIp, FirstWord;
    var i :| 0 <= i < |clients| && ValidIp(clients[i].ip) && clients[i].ip == ip;
    line := ip + " " + clients[i].hostname;
    assert FreshLine(clients[i]) == Some(line);
    FreshLineNames(clients[i]);
  }

  /** Nothing published earlier is left exactly when all of it was taken back. */
  lemma NothingLeftIff(saved: set<string>, syncs: seq<seq<Client>>, works: seq<bool>)
    requires |works| == |syncs| && syncs != [] && works[|works| - 1]
    ensures
      var n := |syncs| - 1;
      Without(Kept(saved, syncs[..n], works[..n]), SavedAfter(saved, syncs[..n])) == [] <==> TakenBack(syncs, works)
  {
    var n := |syncs| - 1;
    var left := Without(Kept(saved, syncs[..n], works[..n]), SavedAfter(saved, syncs[..n]));
    hide Kept, FreshLines, PublishedBy, FirstWord;
    if TakenBack(syncs, works) && left != [] {
      LeftIsStill(saved, syncs, works, left[0]);
      var j :| 0 <= j < n && StillThere(saved, syncs, works, left[0], j);
      LineOf(syncs[j], left[0]);
      var i :| j < i < |syncs| && works[i] && FirstWord(left[0]) in PublishedBy(syncs[i - 1]);
      StillNames(saved, syncs, works, left[0], j, i);
    }
    if left == [] {
      forall j, ip | 0 <= j < n && works[j] && ip in PublishedBy(syncs[j])
        ensures exists i :: j < i < |syncs| && works[i] && ip in PublishedBy(syncs[i - 1])
      {
        TakenBackOne(saved, syncs, works, j, ip);
      }
    }
  }

  /** What survives the last drop is still there in the end. */
  lemma LeftIsStill(saved: set<string>, syncs: seq<seq<Client>>, works: seq<bool>, line: string)
    requires |works| == |syncs| && syncs != [] && works[|works| - 1]
    ensures
      var n := |syncs| - 1;
      line in Without(Kept(saved, syncs[..n], works[..n]), SavedAfter(saved, syncs[..n]))
      <==> exists j :: 0 <= j < n && StillThere(saved, syncs, works, line, j)
  {
    var n := |syncs| - 1;
    KeptLines(saved, syncs[..n], works[..n], line);
    InWithout(Kept(saved, syncs[..n], works[..n]), SavedAfter(saved, syncs[..n]), line);
    hide Kept, Names, FreshLines, SavedAfter, Without;
    forall j | 0 <= j < n
      ensures StillThere(saved, syncs, works, line, j)
         <==> (StillThere(saved, syncs[..n], works[..n], line, j) && !Names(line, SavedAfter(saved, syncs[..n])))
    {
      StillThereStep(saved, syncs, works, line, j);
    }
  }

  lemma InWithout(lines: seq<string>, ips: set<string>, line: string)
    ensures line in Without(lines, ips) <==> line in lines && !Names(line, ips)
  {
    hide Names;
  }

  lemma SavedIs(saved: set<string>, syncs: seq<seq<Client>>, i: nat)
    requires 0 < i <= |syncs|
    ensures SavedAfter(saved, syncs[..i]) == PublishedBy(syncs[i - 1])
  {
    hide PublishedBy;
  }

  lemma StillNames(saved: set<string>, syncs: seq<seq<Client>>, works: seq<bool>, line: string, j: int, i: int)
    requires |works| == |syncs| && StillThere(saved, syncs, works, line, j) && j < i < |syncs| && works[i]
    ensures FirstWord(line) !in PublishedBy(syncs[i - 1])
  {
    hide FreshLines, PublishedBy, SavedAfter, FirstWord;
    SavedIs(saved, syncs, i);
    assert line in FreshLines(syncs[j]);
    LineHasWord(syncs[j], line);
  }

  lemma LineHasWord(clients: seq<Client>, line: string)
    requires line in FreshLines(clients)
    ensures FirstWord(line) != ""
  {
    FreshAreNamed(clients, line);
    hide FirstWord;
  }

  lemma TakenBackOne(saved: set<string>, syncs: seq<seq<Client>>, works: seq<bool>, j: int, ip: string)
    requires |works| == |syncs| && 0 <= j < |syncs| - 1 && works[|works| - 1] && works[j] && ip in PublishedBy(syncs[j])
    requires
      var n := |syncs| - 1;
      Without(Kept(saved, syncs[..n], works[..n]), SavedAfter(saved, syncs[..n])) == []
    ensures exists i :: j < i < |syncs| && works[i] && ip in PublishedBy(syncs[i - 1])
  {
    hide Kept, FreshLines, PublishedBy, FirstWord, SavedAfter, Without, Names;
    var line := LineFor(syncs[j], ip);
    LeftIsStill(saved, syncs, works, line);
    assert !StillThere(saved, syncs, works, line, j);
    var i :| j < i < |syncs| && works[i] && Names(line, SavedAfter(saved, syncs[..i]));
    SavedIs(saved, syncs, i);
  }

  /** Dropping less and keeping something, or dropping less than some record asks for, shows. */
  lemma SameRecordsIff(original: seq<string>, dropped: set<string>, published: set<string>, left: seq<string>)
    requires dropped <= published
    ensures Without(original, dropped) + left == Without(original, published)
       <==> (left == [] && forall line :: line in original && Names(line, published) ==> Names(line, dropped))
  {
    hide FirstWord;
    var mine := Without(original, dropped);
    WithoutTwice(original, dropped, published);
    assert dropped + published == published;
    if left == [] && forall line :: line in original && Names(line, published) ==> Names(line, dropped) {
      FilterSame(original, (line: string) => !Names(line, dropped), (line: string) => !Names(line, published));
    }
    if mine + left == Without(original, published) {
      assert left == [] by { hide Names; assert |Without(mine, published)| <= |mine|; }
      forall line | line in original && Names(line, published) ensures Names(line, dropped) {
        InWithout(original, dropped, line);
        InWithout(original, published, line);
      }
    }
  }

  /** When the last sync reached the node, whatever it missed before: its records are the promised ones
      exactly when what it was given was taken back and its own records lost all they should. A
      published address stays only until a later sync that publishes it again is itself followed
      by one that reaches the node. */
  lemma PublishedIff(original: seq<string>, saved: set<string>, syncs: seq<seq<Client>>, works: seq<bool>)
    requires syncs != [] && |works| == |syncs| && works[|works| - 1]
    ensures AfterSyncs(original, saved, syncs, works) == Promised(original, saved, syncs)
       <==> (TakenBack(syncs, works) && OwnDropped(original, saved, syncs, works))
  {
    var n := |syncs| - 1;
    var left := Without(Kept(saved, syncs[..n], works[..n]), SavedAfter(saved, syncs[..n]));
    var dropped, published := Dropped(saved, syncs, works), EverPublished(saved, syncs[..n]);
    OriginalThenKept(original, saved, syncs, works);
    assert Kept(saved, syncs, works) == left + FreshLines(syncs[n]);
    NothingLeftIff(saved, syncs, works);
    DroppedWasPublished(saved, syncs, works);
    SameRecordsIff(original, dropped, published, left);
    hide *;
    SameWithTail(Without(original, dropped), left, FreshLines(syncs[n]), Without(original, published),
                 AfterSyncs(original, saved, syncs, works), Promised(original, saved, syncs));
  }

  lemma SameWithTail(mine: seq<string>, left: seq<string>, latest: seq<string>, due: seq<string>, have: seq<string>, promised: seq<string>)
    requires have == mine + (left + latest) && promised == due + latest
    ensures have == promised <==> mine + left == due
  {
    assert have == (mine + left) + latest;
    if have == promised {
      assert |mine + left| == |due|;
      assert mine + left == have[..|due|] && due == promised[..|due|];
    }
  }

  lemma {:induction false} DroppedHas(saved: set<string>, syncs: seq<seq<Client>>, works: seq<bool>, i: nat)
    requires |works| == |syncs| && i < |syncs| && works[i]
    ensures SavedAfter(saved, syncs[..i]) <= Dropped(saved, syncs, works)
  {
    hide PublishedBy;
    var n := |syncs| - 1;
    if i < n {
      DroppedHas(saved, syncs[..n], works[..n], i);
      assert syncs[..n][..i] == syncs[..i];
    }
  }

  lemma {:induction false} PublishedAt(saved: set<string>, syncs: seq<seq<Client>>, ip: string)
    requires ip in EverPublished(saved, syncs)
    ensures ip in saved || exists k :: 0 <= k < |syncs| && ip in PublishedBy(syncs[k])
  {
    hide PublishedBy;
    if syncs != [] && ip !in PublishedBy(syncs[|syncs| - 1]) {
      PublishedAt(saved, syncs[..|syncs| - 1], ip);
    }
  }

  /** Every address published but at one missed sync, where all was taken back, was dropped. */
  lemma AllDropped(saved: set<string>, syncs: seq<seq<Client>>, works: seq<bool>, miss: nat)
    requires |works| == |syncs| && 0 < miss < |syncs| - 1 && forall i :: 0 <= i < |works| ==> (works[i] <==> i != miss)
    requires TakenBack(syncs, works)
    ensures EverPublished(saved, syncs[..|syncs| - 1]) <= Dropped(saved, syncs, works)
  {
    hide PublishedBy, EverPublished, Dropped, SavedAfter;
    var n := |syncs| - 1;
    forall ip | ip in EverPublished(saved, syncs[..n]) ensures ip in Dropped(saved, syncs, works) {
      PublishedAt(saved, syncs[..n], ip);
      if ip in saved {
        assert SavedAfter(saved, syncs[..0]) == saved by { SavedFirst(saved, syncs); }
        DroppedHas(saved, syncs, works, 0);
      } else {
        var k :| 0 <= k < n && ip in PublishedBy(syncs[k]);
        var i :| 0 < i < |syncs| && works[i] && ip in PublishedBy(syncs[i - 1]) by {
          if k + 1 == miss {
            assert works[k];
          } else {
            assert works[k + 1] && ip in PublishedBy(syncs[k + 1 - 1]);
          }
        }
        SavedIs(saved, syncs, i);
        DroppedHas(saved, syncs, works, i);
      }
    }
  }

  lemma SavedFirst(saved: set<string>, syncs: seq<seq<Client>>)
    ensures SavedAfter(saved, syncs[..0]) == saved
  {
  }

  /** All that the node was given just before the missed sync is published by that sync or a later one
      before the last. */
  ghost predicate PublishedAgain(syncs: seq<seq<Client>>, miss: nat)
    requires 0 < miss < |syncs|
  {
    var given := PublishedBy(syncs[miss - 1]);
    forall ip :: ip in given ==> exists k :: miss <= k < |syncs| - 1 && ip in PublishedBy(syncs[k])
  }

  /** A node that missed one sync: its records are the promised ones exactly when all that it was given
      just before was published again by the missed sync or a later one before the last. */
  lemma OneMissIff(original: seq<string>, saved: set<string>, syncs: seq<seq<Client>>, works: seq<bool>, miss: nat)
    requires |works| == |syncs| && 0 < miss < |syncs| - 1 && forall i :: 0 <= i < |works| ==> (works[i] <==> i != miss)
    ensures AfterSyncs(original, saved, syncs, works) == Promised(original, saved, syncs)
       <==> PublishedAgain(syncs, miss)
  {
    hide *;
    PublishedIff(original, saved, syncs, works);
    TakenBackOnce(syncs, works, miss);
    if TakenBack(syncs, works) {
      AllDropped(saved, syncs, works, miss);
      OwnDroppedToo(original, saved, syncs, works);
    }
  }

  lemma OwnDroppedToo(original: seq<string>, saved: set<string>, syncs: seq<seq<Client>>, works: seq<bool>)
    requires |works| == |syncs| && syncs != [] && EverPublished(saved, syncs[..|syncs| - 1]) <= Dropped(saved, syncs, works)
    ensures OwnDropped(original, saved, syncs, works)
  {
    hide FirstWord, EverPublished, Dropped;
  }

  lemma TakenBackOnce(syncs: seq<seq<Client>>, works: seq<bool>, miss: nat)
    requires |works| == |syncs| && 0 < miss < |syncs| - 1 && forall i :: 0 <= i < |works| ==> (works[i] <==> i != miss)
    ensures TakenBack(syncs, works)
       <==> PublishedAgain(syncs, miss)
  {
    hide PublishedBy;
    if TakenBack(syncs, works) {
      var given := PublishedBy(syncs[miss - 1]);
      forall ip | ip in given ensures exists k :: miss <= k < |syncs| - 1 && ip in PublishedBy(syncs[k]) {
        assert works[miss - 1];
        var i :| miss - 1 < i < |syncs| && works[i] && ip in PublishedBy(syncs[i - 1]);
        assert miss <= i - 1 < |syncs| - 1;
      }
    }
    if PublishedAgain(syncs, miss) {
      forall j, ip | 0 <= j < |syncs| - 1 && works[j] && ip in PublishedBy(syncs[j])
        ensures exists i :: j < i < |syncs| && works[i] && ip in PublishedBy(syncs[i - 1])
      {
        var k := j;
        if j + 1 == miss {
          k :| miss <= k < |syncs| - 1 && ip in PublishedBy(syncs[k]);
        }
        assert works[k + 1] && ip in PublishedBy(syncs[k + 1 - 1]);
      }
    }
  }
}
