/** The configuration paths that replication manages one by one. */
module ScalarPaths {
  import opened Common
  import opened Paths
  import opened MergeRun

  const DHCP_NAMES := ["active", "start", "end", "router", "netmask", "leaseTime",
                       "rapidCommit", "ipv6", "multiDNS", "logging", "ignoreUnknownClients"]
  const DNS_NAMES := ["upstreams", "hosts", "cnameRecords", "revServers", "domainNeeded", "expandHosts", "dnssec", "interface",
                      "EDNS0ECS", "bogusPriv", "CNAMEdeepInspect", "blockESNI"]
  const MISC_NAMES := ["etc_dnsmasq_d", "dnsmasq_lines", "privacylevel"]
  const RESOLVER_NAMES := ["resolveIPv4", "resolveIPv6", "macNames", "networkNames", "refreshNames"]

  const DNS_SECTIONS := ["domain", "blocking", "rateLimit"]

  function Under(prefix: Path, names: seq<string>): (r: seq<Path>)
    ensures forall p :: p in r ==> |p| == |prefix| + 1 && p[..|prefix|] == prefix && p[|prefix|] in names
  {
    Map(names, n => prefix + [n])
  }

  /** `_SCALAR_PATHS`, in the order of `GROUPS`. */
  const SCALAR_PATHS: seq<Path> :=
    Under(["dhcp"], DHCP_NAMES) + Under(["dns"], DNS_NAMES)
    + Under(["dns", "domain"], ["name", "local"]) + Under(["dns", "blocking"], ["active", "mode"])
    + Under(["dns", "rateLimit"], ["count", "interval"])
    + Under(["misc"], MISC_NAMES) + Under(["resolver"], RESOLVER_NAMES)

  lemma {:induction false} UnderIff(prefix: Path, names: seq<string>, p: Path)
    ensures |Under(prefix, names)| == |names|
    ensures p in Under(prefix, names) <==> |p| == |prefix| + 1 && p[..|prefix|] == prefix && p[|prefix|] in names
  {
    if |p| == |prefix| + 1 && p[..|prefix|] == prefix && p[|prefix|] in names {
      var i :| 0 <= i < |names| && names[i] == p[|prefix|];
      assert Under(prefix, names)[i] == prefix + [names[i]] == p;
    }
  }

  /** There are 37 managed paths: those of `dhcp` and of `dns`, three sections below `dns`, and those of `misc`
      and `resolver`. */
  lemma ManagedIff(p: Path)
    ensures |SCALAR_PATHS| == 37
    ensures p in SCALAR_PATHS <==> InSection(p) || InDeepSection(p)
  {
    ManagedCount();
    hide Under, DHCP_NAMES, DNS_NAMES, MISC_NAMES, RESOLVER_NAMES;
    SectionIff("dhcp", DHCP_NAMES, p);
    SectionIff("dns", DNS_NAMES, p);
    SectionIff("misc", MISC_NAMES, p);
    SectionIff("resolver", RESOLVER_NAMES, p);
    DeepIff("domain", ["name", "local"], p);
    DeepIff("blocking", ["active", "mode"], p);
    DeepIff("rateLimit", ["count", "interval"], p);
  }

  ghost predicate InSection(p: Path)
  {
    && |p| == 2
    && (  (p[0] == "dhcp" && p[1] in DHCP_NAMES) || (p[0] == "dns" && p[1] in DNS_NAMES)
       || (p[0] == "misc" && p[1] in MISC_NAMES) || (p[0] == "resolver" && p[1] in RESOLVER_NAMES))
  }

  ghost predicate InDeepSection(p: Path)
  {
    && |p| == 3 && p[0] == "dns"
    && (  (p[1] == "domain" && p[2] in ["name", "local"]) || (p[1] == "blocking" && p[2] in ["active", "mode"])
       || (p[1] == "rateLimit" && p[2] in ["count", "interval"]))
  }

  lemma ManagedCount()
    ensures |SCALAR_PATHS| == 37
  {
    SectionIff("dhcp", DHCP_NAMES, []);
    SectionIff("dns", DNS_NAMES, []);
    SectionIff("misc", MISC_NAMES, []);
    SectionIff("resolver", RESOLVER_NAMES, []);
    DeepIff("domain", ["name", "local"], []);
    DeepIff("blocking", ["active", "mode"], []);
    DeepIff("rateLimit", ["count", "interval"], []);
    hide Under;
  }

  lemma SectionIff(section: string, names: seq<string>, p: Path)
    ensures |Under([section], names)| == |names|
    ensures p in Under([section], names) <==> |p| == 2 && p[0] == section && p[1] in names
  {
    UnderIff([section], names, p);
    if |p| == 2 {
      assert p[..1] == [p[0]];
    }
  }

  lemma DeepIff(section: string, names: seq<string>, p: Path)
    ensures |Under(["dns", section], names)| == |names|
    ensures p in Under(["dns", section], names) <==> |p| == 3 && p[0] == "dns" && p[1] == section && p[2] in names
  {
    UnderIff(["dns", section], names, p);
    if |p| == 3 {
      assert p[..2] == [p[0], p[1]];
    }
  }

  /** A name in a section, or one step below a section of `dns` that is not itself a name. */
  ghost predicate WellPlaced(p: Path)
  {
    || (|p| == 2 && (p[0] == "dns" ==> p[1] !in DNS_SECTIONS) && (p[0] == "dhcp" ==> p[1] != "hosts"))
    || (|p| == 3 && p[0] == "dns" && p[1] in DNS_SECTIONS)
  }

  lemma NamesArePlaced()
    ensures forall n :: n in DNS_NAMES ==> n !in DNS_SECTIONS
    ensures forall n :: n in DHCP_NAMES ==> n != "hosts"
    ensures "dns" != "dhcp" && "misc" != "dhcp" && "misc" != "dns" && "resolver" != "dhcp" && "resolver" != "dns"
  {
  }

  lemma UnderIsPlaced(section: string, names: seq<string>, p: Path)
    requires p in Under([section], names)
    requires section == "dns" ==> forall n :: n in names ==> n !in DNS_SECTIONS
    requires section == "dhcp" ==> forall n :: n in names ==> n != "hosts"
    ensures WellPlaced(p)
  {
    assert p[0] == p[..1][0] == section;
  }

  lemma DeepIsPlaced(section: string, names: seq<string>, p: Path)
    requires p in Under(["dns", section], names) && section in DNS_SECTIONS
    ensures WellPlaced(p)
  {
    assert p[0] == p[..2][0] == "dns" && p[1] == p[..2][1] == section;
  }

  lemma ScalarPathShape(p: Path)
    requires p in SCALAR_PATHS
    ensures WellPlaced(p)
  {
    NamesArePlaced();
    hide Under, WellPlaced;
    if p in Under(["dhcp"], DHCP_NAMES) {
      UnderIsPlaced("dhcp", DHCP_NAMES, p);
    } else if p in Under(["dns"], DNS_NAMES) {
      UnderIsPlaced("dns", DNS_NAMES, p);
    } else if p in Under(["dns", "domain"], ["name", "local"]) {
      DeepIsPlaced("domain", ["name", "local"], p);
    } else if p in Under(["dns", "blocking"], ["active", "mode"]) {
      DeepIsPlaced("blocking", ["active", "mode"], p);
    } else if p in Under(["dns", "rateLimit"], ["count", "interval"]) {
      DeepIsPlaced("rateLimit", ["count", "interval"], p);
    } else if p in Under(["misc"], MISC_NAMES) {
      UnderIsPlaced("misc", MISC_NAMES, p);
    } else {
      UnderIsPlaced("resolver", RESOLVER_NAMES, p);
    }
  }

  /** No managed path leads through another, nor through the reservations. */
  lemma ScalarPathsApart(p: Path, q: Path)
    requires p in SCALAR_PATHS && q in SCALAR_PATHS && p != q
    ensures Apart(p, q) && Apart(p, HOSTS_PATH)
  {
    ScalarPathShape(p);
    ScalarPathShape(q);
    assert HOSTS_PATH[0] == "dhcp" && HOSTS_PATH[1] == "hosts";
    assert |p| == |q| && p <= q ==> p == q;
    assert |p| == |q| && q <= p ==> p == q;
  }

  /** Any selection of managed paths without repetition can be replicated together. */
  lemma EnabledPathsApart(enabled: seq<Path>)
    requires Distinct(enabled) && forall p :: p in enabled ==> p in SCALAR_PATHS
    ensures AllApart(enabled) && ApartFrom(HOSTS_PATH, enabled)
  {
    forall i, j | 0 <= i < j < |enabled| ensures Apart(enabled[i], enabled[j]) {
      ScalarPathsApart(enabled[i], enabled[j]);
    }
    forall p | p in enabled ensures Apart(p, HOSTS_PATH) {
      HostsApart(p);
    }
  }

  lemma HostsApart(p: Path)
    requires p in SCALAR_PATHS
    ensures Apart(p, HOSTS_PATH) && Apart(HOSTS_PATH, p)
  {
    ScalarPathShape(p);
    assert HOSTS_PATH[0] == "dhcp" && HOSTS_PATH[1] == "hosts";
  }
}
