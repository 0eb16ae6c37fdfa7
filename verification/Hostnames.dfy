/** DNS records of the VLANs' static hosts, merged into a node's `dns.hosts`. */
module Hostnames {
  import opened Common
  import opened Text
  import opened Ipv4
  import opened Sorting
  import opened Vlans
  import opened Validate

  function EntryOf(h: Host): Option<string>
  {
    if h.hostname != "" && !h.isDynamic then Some(h.ip + " " + h.hostname) else None
  }

  function Entries(vlans: seq<Vlan>): seq<string>
  {
    if vlans == [] then []
    else
      var v := vlans[|vlans| - 1];
      Entries(vlans[..|vlans| - 1]) + (if v.isPrimary then [] else FilterMap(v.hosts, EntryOf))
  }

  method ComputeEntries(vlans: seq<Vlan>) returns (entries: seq<string>)
    ensures entries == Entries(vlans)
  {
    hide FilterMap, EntryOf;
    entries := [];
    for i := 0 to |vlans|
      invariant entries == Entries(vlans[..i])
    {
      assert vlans[..i + 1][..i] == vlans[..i];
      var v := vlans[i];
      if v.isPrimary {
        continue;
      }
      NothingCollected(v.hosts, EntryOf);
      for j := 0 to |v.hosts|
        invariant entries == Entries(vlans[..i]) + FilterMap(v.hosts[..j], EntryOf)
      {
        FilterMapStep(v.hosts, j, EntryOf);
        var h := v.hosts[j];
        assert EntryOf(h) == if h.hostname != "" && !h.isDynamic then Some(h.ip + " " + h.hostname) else None by {
          EntryIs(h);
        }
        if h.hostname != "" && !h.isDynamic {
          entries := entries + [h.ip + " " + h.hostname];
        }
      }
      assert v.hosts[..|v.hosts|] == v.hosts;
    }
    assert vlans[..|vlans|] == vlans;
  }

  lemma EntryIs(h: Host)
    ensures EntryOf(h) == if h.hostname != "" && !h.isDynamic then Some(h.ip + " " + h.hostname) else None
  {
  }

  /** `_managed_networks` raises when a managed subnet is malformed. */
  predicate NetworksKnown(vlans: seq<Vlan>)
  {
    forall i | 0 <= i < |vlans| :: !vlans[i].isPrimary ==> NetworkOf(vlans[i]).Some?
  }

  /** A valid address in the subnet of an extra VLAN. */
  predicate Managed(ip: string, vlans: seq<Vlan>)
  {
    exists i | 0 <= i < |vlans| :: !vlans[i].isPrimary && Inside(ip, vlans[i])
  }

  /** A record belongs to the address it starts with. */
  predicate ManagedLine(line: string, vlans: seq<Vlan>)
  {
    Managed(FirstWord(line), vlans)
  }

  function Unmanaged(lines: seq<string>, vlans: seq<Vlan>): seq<string>
  {
    Filter(lines, (line: string) => !ManagedLine(line, vlans))
  }

  /** None where a malformed subnet raises. */
  function Merge(current: seq<string>, vlans: seq<Vlan>): Option<seq<string>>
  {
    if NetworksKnown(vlans) then Some(Unmanaged(current, vlans) + Entries(vlans)) else None
  }

  // --- A validated set owns its own entries ---

  lemma InsideIsText(ip: string, v: Vlan)
    requires Inside(ip, v)
    ensures ip != "" && forall c :: c in ip ==> IsDigit(c) || c == '.'
  {
    hide NetworkOf, ParseAddress;
    AddressChars(ip);
  }

  lemma EntryStartsWithIp(h: Host, v: Vlan)
    requires Inside(h.ip, v) && EntryOf(h).Some?
    ensures FirstWord(EntryOf(h).value) == h.ip && ' ' in EntryOf(h).value
  {
    hide Inside, FirstWord;
    InsideIsText(h.ip, v);
    FirstWordOf(h.ip, h.hostname);
    assert (h.ip + " " + h.hostname)[|h.ip|] == ' ';
  }

  lemma SoundExtra(vlans: seq<Vlan>, v: Vlan)
    requires Sound(Extra(vlans)) && v in vlans && !v.isPrimary
    ensures SoundScope(v)
  {
    hide SoundScope, Apart;
    assert v in Extra(vlans);
  }

  lemma {:induction false} EntryFrom(vlans: seq<Vlan>, line: string)
    requires line in Entries(vlans)
    ensures exists v, h :: v in vlans && !v.isPrimary && h in v.hosts && EntryOf(h) == Some(line)
  {
    hide EntryOf, FilterMap;
    var init, v := vlans[..|vlans| - 1], vlans[|vlans| - 1];
    if line in Entries(init) {
      EntryFrom(init, line);
    } else {
      var h :| h in v.hosts && EntryOf(h) == Some(line);
    }
  }

  /** Every record made for a validated set belongs to one of its own subnets. */
  lemma EntriesAreManaged(vlans: seq<Vlan>, line: string)
    requires Sound(Extra(vlans)) && line in Entries(vlans)
    ensures ManagedLine(line, vlans) && ' ' in line
  {
    hide Sound, EntryOf, Entries, Inside, FirstWord, Extra;
    EntryFrom(vlans, line);
    var v, h :| v in vlans && !v.isPrimary && h in v.hosts && EntryOf(h) == Some(line);
    SoundExtra(vlans, v);
    assert Inside(h.ip, v);
    EntryStartsWithIp(h, v);
  }

  lemma SoundIsKnown(vlans: seq<Vlan>)
    requires Sound(Extra(vlans))
    ensures NetworksKnown(vlans)
  {
    hide Sound, SoundScope, NetworkOf, Extra;
    forall i | 0 <= i < |vlans| && !vlans[i].isPrimary ensures NetworkOf(vlans[i]).Some? {
      SoundExtra(vlans, vlans[i]);
    }
  }

  // --- The laws of the merge ---

  /** Records outside the managed subnets stay, in order; the managed ones become exactly the
      computed entries. */
  lemma MergePartition(current: seq<string>, vlans: seq<Vlan>)
    requires Sound(Extra(vlans))
    ensures Merge(current, vlans).Some?
    ensures Unmanaged(Merge(current, vlans).value, vlans) == Unmanaged(current, vlans)
    ensures Filter(Merge(current, vlans).value, (line: string) => ManagedLine(line, vlans)) == Entries(vlans)
  {
    hide Sound, ManagedLine, Entries, NetworksKnown, Filter;
    SoundIsKnown(vlans);
    forall line | line in Entries(vlans) ensures ManagedLine(line, vlans) {
      EntriesAreManaged(vlans, line);
    }
    var out, own := (line: string) => !ManagedLine(line, vlans), (line: string) => ManagedLine(line, vlans);
    var kept := Filter(current, out);
    FilterAppend(kept, Entries(vlans), out);
    FilterAppend(kept, Entries(vlans), own);
    FilterAll(kept, out);
    FilterNone(kept, own);
    FilterAll(Entries(vlans), own);
    FilterNone(Entries(vlans), out);
  }

  /** The subnets of w cover those of v. */
  ghost predicate SubnetsCover(v: seq<Vlan>, w: seq<Vlan>)
  {
    forall ip :: Managed(ip, v) ==> Managed(ip, w)
  }

  /** Merging for w makes an earlier merge for v forgotten when w's subnets cover v's. */
  lemma MergeForgets(current: seq<string>, v: seq<Vlan>, w: seq<Vlan>)
    requires Sound(Extra(v)) && NetworksKnown(w) && SubnetsCover(v, w)
    ensures Merge(current, v).Some? && Merge(Merge(current, v).value, w) == Merge(current, w)
  {
    hide Sound, Managed, Entries, NetworksKnown, Filter;
    SoundIsKnown(v);
    var outV, outW := (line: string) => !ManagedLine(line, v), (line: string) => !ManagedLine(line, w);
    forall line | line in Entries(v) ensures !outW(line) {
      EntriesAreManaged(v, line);
    }
    FilterAppend(Filter(current, outV), Entries(v), outW);
    FilterNone(Entries(v), outW);
    FilterTwice(current, outV, outW, outW);
    assert Unmanaged(Merge(current, v).value, w) == Unmanaged(current, w);
  }

  /** In particular a second merge changes nothing. */
  lemma MergeIdempotent(current: seq<string>, vlans: seq<Vlan>)
    requires Sound(Extra(vlans))
    ensures Merge(current, vlans).Some? && Merge(Merge(current, vlans).value, vlans) == Merge(current, vlans)
  {
    hide Sound, Managed, Entries, NetworksKnown, Filter;
    SoundIsKnown(vlans);
    MergeForgets(current, vlans, vlans);
  }

  lemma AddressIsWord(ip: string, v: Vlan)
    requires Inside(ip, v)
    ensures FirstWord(ip) == ip && ' ' !in ip
  {
    hide Inside;
    InsideIsText(ip, v);
    WordWhole(ip);
  }

  lemma {:induction false} WordWhole(s: string)
    requires forall c :: c in s ==> !IsSpace(c)
    ensures Word(s) == s
  {
    if s != "" {
      WordWhole(s[1..]);
    }
  }

  /** Covering is exactly what forgetting takes: if every list of records forgets, w covers v. */
  lemma ForgetsIffCovers(v: seq<Vlan>, w: seq<Vlan>)
    requires Sound(Extra(v)) && NetworksKnown(w)
    ensures (forall c :: Merge(c, v).Some? && Merge(Merge(c, v).value, w) == Merge(c, w)) <==> SubnetsCover(v, w)
  {
    hide Sound, Managed, Entries, NetworksKnown, Filter;
    SoundIsKnown(v);
    if SubnetsCover(v, w) {
      forall c ensures Merge(c, v).Some? && Merge(Merge(c, v).value, w) == Merge(c, w) {
        MergeForgets(c, v, w);
      }
    }
    if forall c :: Merge(c, v).Some? && Merge(Merge(c, v).value, w) == Merge(c, w) {
      forall ip | Managed(ip, v) ensures Managed(ip, w) {
        assert Merge(Merge([ip], v).value, w) == Merge([ip], w);
        if !Managed(ip, w) {
          Remembered(ip, v, w);
        }
      }
    }
  }

  /** An address managed by v alone is dropped by the merge for v and kept by the merge for w. */
  lemma Remembered(ip: string, v: seq<Vlan>, w: seq<Vlan>)
    requires Sound(Extra(v)) && NetworksKnown(v) && NetworksKnown(w) && Managed(ip, v) && !Managed(ip, w)
    ensures Merge(Merge([ip], v).value, w) != Merge([ip], w)
  {
    hide Sound, Entries, NetworksKnown, Filter, Inside, FirstWord;
    var k :| 0 <= k < |v| && !v[k].isPrimary && Inside(ip, v[k]);
    AddressIsWord(ip, v[k]);
    hide Managed;
    var outV, outW := (line: string) => !ManagedLine(line, v), (line: string) => !ManagedLine(line, w);
    FilterNone([ip], outV);
    FilterAll([ip], outW);
    var left := Filter([] + Entries(v), outW);
    assert Merge(Merge([ip], v).value, w).value == left + Entries(w);
    assert Merge([ip], w).value == [ip] + Entries(w);
    if left + Entries(w) == [ip] + Entries(w) {
      assert |left| == 1;
      assert (left + Entries(w))[0] == left[0];
      assert left[0] == ip;
      assert left[0] in [] + Entries(v);
      EntriesAreManaged(v, ip);
    }
  }

  // --- Writing a node ---

  lemma {:induction false} StringAntisymmetric(a: string, b: string)
    requires StringLeq(a, b) && StringLeq(b, a)
    ensures a == b
  {
    if a != "" && b != "" {
      StringAntisymmetric(a[1..], b[1..]);
      assert a == [a[0]] + a[1..] && b == [b[0]] + b[1..];
    }
  }

  lemma SameMembers(a: seq<string>, b: seq<string>, x: string)
    requires multiset(a) == multiset(b) && x in a
    ensures x in b
  {
    assert x in multiset(b);
  }

  lemma HeadIsLeast(b: seq<string>, x: string)
    requires Sorted(b, StringLeq) && x in b
    ensures StringLeq(b[0], x)
  {
    StringOrder();
    hide StringLeq;
  }

  lemma TailsPermute(a: seq<string>, b: seq<string>)
    requires a != [] && b != [] && a[0] == b[0] && multiset(a) == multiset(b)
    ensures multiset(a[1..]) == multiset(b[1..])
  {
    assert a == [a[0]] + a[1..] && b == [b[0]] + b[1..];
    assert multiset(a[1..]) == multiset(a) - multiset{a[0]} == multiset(b[1..]);
  }

  lemma {:induction false} SortedIsCanonical(a: seq<string>, b: seq<string>)
    requires Sorted(a, StringLeq) && Sorted(b, StringLeq) && multiset(a) == multiset(b)
    ensures a == b
  {
    hide StringLeq;
    if a == [] {
      assert |multiset(b)| == 0;
    } else {
      SameMembers(a, b, a[0]);
      SameMembers(b, a, b[0]);
      HeadIsLeast(a, b[0]);
      HeadIsLeast(b, a[0]);
      StringAntisymmetric(a[0], b[0]);
      TailsPermute(a, b);
      SortedIsCanonical(a[1..], b[1..]);
      assert a == [a[0]] + a[1..] && b == [b[0]] + b[1..];
    }
  }

  /** Comparing sorted lists is comparing them up to order. */
  lemma SortedEqual(a: seq<string>, b: seq<string>)
    ensures Sort(a, StringLeq) == Sort(b, StringLeq) <==> multiset(a) == multiset(b)
  {
    hide StringLeq, Sort;
    StringOrder();
    SortSorts(a, StringLeq);
    SortSorts(b, StringLeq);
    if multiset(a) == multiset(b) {
      SortedIsCanonical(Sort(a, StringLeq), Sort(b, StringLeq));
    }
  }

  datatype SyncError = CouldNotRead | CouldNotWrite | BadNetwork

  /** The merge differs from what the node holds by more than its order. */
  ghost predicate OutOfDate(hosts: seq<string>, vlans: seq<Vlan>)
  {
    Merge(hosts, vlans).Some? && multiset(hosts) != multiset(Merge(hosts, vlans).value)
  }

  /** A node's `dns.hosts`, and how often it was written to. */
  class Node {
    var hosts: seq<string>
    var writes: nat

    constructor (hosts: seq<string>)
      ensures this.hosts == hosts && writes == 0
    {
      this.hosts, writes := hosts, 0;
    }

    method SyncHostnames(vlans: seq<Vlan>, readable: bool, accepts: bool) returns (r: Result<(), SyncError>)
      modifies this
      ensures r == (if !readable then Err(CouldNotRead)
                    else if !NetworksKnown(vlans) then Err(BadNetwork)
                    else if old(OutOfDate(hosts, vlans)) && !accepts then Err(CouldNotWrite)
                    else Ok(()))
      ensures writes == old(writes) + if readable && old(OutOfDate(hosts, vlans)) then 1 else 0
      ensures hosts == if r.Ok? && writes != old(writes) then Merge(old(hosts), vlans).value else old(hosts)
    {
      if !readable {
        return Err(CouldNotRead);
      }
      var merged := Merge(hosts, vlans);
      if merged.None? {
        return Err(BadNetwork);
      }
      SortedEqual(merged.value, hosts);
      if Sort(merged.value, StringLeq) == Sort(hosts, StringLeq) {
        return Ok(());
      }
      writes := writes + 1;
      if !accepts {
        return Err(CouldNotWrite);
      }
      hosts := merged.value;
      r := Ok(());
    }
  }

  /** What a successful sync leaves: the managed records are the entries, the others are untouched,
      and for a validated set a repeated sync finds nothing to write. */
  method SyncTwice(node: Node, vlans: seq<Vlan>, accepts: bool, readable: bool, acceptsAgain: bool) returns (done: bool)
    requires Sound(Extra(vlans))
    modifies node
    ensures Unmanaged(node.hosts, vlans) == Unmanaged(old(node.hosts), vlans)
    ensures done ==> !OutOfDate(node.hosts, vlans)
    ensures done ==> node.writes == old(node.writes) + if old(OutOfDate(node.hosts, vlans)) then 1 else 0
  {
    hide Sound, Merge, Unmanaged;
    var r := node.SyncHostnames(vlans, true, accepts);
    MergeIdempotent(old(node.hosts), vlans);
    MergePartition(old(node.hosts), vlans);
    done := r.Ok?;
    if done {
      var again := node.SyncHostnames(vlans, readable, acceptsAgain);
    }
  }

  // --- Line by line ---

  /** The record of a static host with a name, in an extra VLAN. */
  ghost predicate RecordOf(vlans: seq<Vlan>, line: string, i: int, j: int)
  {
    && 0 <= i < |vlans| && !vlans[i].isPrimary && 0 <= j < |vlans[i].hosts|
    && var h := vlans[i].hosts[j]; h.hostname != "" && !h.isDynamic && line == h.ip + " " + h.hostname
  }

  lemma EntryMeans(h: Host, line: string)
    ensures EntryOf(h) == Some(line) <==> h.hostname != "" && !h.isDynamic && line == h.ip + " " + h.hostname
  {
  }

  lemma EntriesStep(vlans: seq<Vlan>, line: string)
    requires vlans != []
    ensures
      var init, v := vlans[..|vlans| - 1], vlans[|vlans| - 1];
      line in Entries(vlans) <==> line in Entries(init) || exists j, n :: n == |vlans| - 1 && 0 <= j < |v.hosts| && RecordOf(vlans, line, n, j)
  {
    var v, n := vlans[|vlans| - 1], |vlans| - 1;
    forall h ensures EntryOf(h) == Some(line) <==> h.hostname != "" && !h.isDynamic && line == h.ip + " " + h.hostname {
      EntryMeans(h, line);
    }
    hide EntryOf, FilterMap;
    if h :| h in v.hosts && EntryOf(h) == Some(line) && !v.isPrimary {
      var j :| 0 <= j < |v.hosts| && v.hosts[j] == h;
      assert RecordOf(vlans, line, n, j);
    }
  }

  lemma RecordBefore(vlans: seq<Vlan>, line: string, i: int, j: int)
    requires vlans != []
    ensures RecordOf(vlans[..|vlans| - 1], line, i, j) <==> i < |vlans| - 1 && RecordOf(vlans, line, i, j)
  {
  }

  /** There is a record for each such host and no other. */
  lemma {:induction false} EntriesAre(vlans: seq<Vlan>, line: string)
    ensures line in Entries(vlans) <==> exists i, j :: RecordOf(vlans, line, i, j)
  {
    if vlans != [] {
      var init, n := vlans[..|vlans| - 1], |vlans| - 1;
      EntriesAre(init, line);
      EntriesStep(vlans, line);
      if i, j :| RecordOf(vlans, line, i, j) {
        RecordBefore(vlans, line, i, j);
        assert i == n ==> 0 <= j < |vlans[n].hosts| && RecordOf(vlans, line, n, j);
        assert i <= n;
      }
      if i, j :| RecordOf(init, line, i, j) {
        RecordBefore(vlans, line, i, j);
      }
      hide Entries, RecordOf;
    } else {
      assert forall i, j :: !RecordOf(vlans, line, i, j);
    }
  }

  /** The records come VLAN by VLAN, and host by host within one. */
  lemma EntriesInOrder(vlans: seq<Vlan>, v: Vlan)
    ensures Entries(vlans + [v]) == if v.isPrimary then Entries(vlans) else Entries(vlans) + FilterMap(v.hosts, EntryOf)
  {
    assert (vlans + [v])[..|vlans|] == vlans;
    hide FilterMap, EntryOf;
  }

  /** The merge raises exactly when an extra VLAN has a malformed subnet. */
  lemma MergeRaisesIff(current: seq<string>, vlans: seq<Vlan>)
    ensures Merge(current, vlans).None? <==> exists v :: v in vlans && !v.isPrimary && NetworkOf(v).None?
  {
    hide NetworkOf, Unmanaged, Entries;
    if i :| 0 <= i < |vlans| && !vlans[i].isPrimary && NetworkOf(vlans[i]).None? {
      assert vlans[i] in vlans;
    }
  }

  /** A record stays through the merge exactly when its first word is no valid address of an extra VLAN's
      subnet, or it is one of the records made. */
  lemma KeptIff(current: seq<string>, vlans: seq<Vlan>, line: string)
    requires Merge(current, vlans).Some?
    ensures line in Merge(current, vlans).value
       <==> (line in current && !(exists v :: v in vlans && !v.isPrimary && Covers(v, FirstWord(line)))) || exists i, j :: RecordOf(vlans, line, i, j)
  {
    EntriesAre(vlans, line);
    hide FirstWord, Entries, RecordOf;
    ManagedIff(FirstWord(line), vlans);
  }

  ghost predicate Covers(v: Vlan, ip: string)
  {
    NetworkOf(v).Some? && ValidIp(ip) && NetworkOf(v).value.Base() <= ParseAddress(ip).value <= NetworkOf(v).value.Last()
  }

  lemma ManagedIff(ip: string, vlans: seq<Vlan>)
    ensures Managed(ip, vlans) <==> exists v :: v in vlans && !v.isPrimary && Covers(v, ip)
  {
    forall v ensures Inside(ip, v) <==> Covers(v, ip) {
      hide ParseAddress;
      if NetworkOf(v).Some? && ValidIp(ip) {
        InBlock(NetworkOf(v).value, ParseAddress(ip).value);
      }
    }
    hide Inside, Covers;
  }
}
