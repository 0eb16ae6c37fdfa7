/** The dnsmasq.d snippet: rendering VLAN scopes and reading a rendered snippet back. */
module DnsmasqConf {
  import opened Common
  import opened Text
  import opened Ipv4
  import opened Sorting
  import opened Vlans

  // In short pieces, whose first and last characters the verifier knows.
  const MANAGED_TAG := "# managed by " + "Pihole Fleet Manager " + "\U{2014} do not edit " + "by hand"

  // --- Rendering ---

  /** Descending by address. */
  predicate HigherFirst(a: Host, b: Host)
  {
    Key(a) >= Key(b)
  }

  function Key(h: Host): int
  {
    match ParseAddress(h.ip)
    case Some(a) => a
    case None => -1
  }

  function BlockLine(v: Vlan): string
    requires v.prefix >= 0
  {
    "# --- " + v.name + " (subnet " + v.subnet + "/" + NatText(v.prefix) + ") ---"
  }

  function RangeLine(v: Vlan, netmask: string): string
  {
    "dhcp-range=set:" + v.id + "," + v.rangeStart + "," + v.rangeEnd + "," + netmask + "," + v.leaseTime
  }

  function OptionLine(v: Vlan): string
  {
    "dhcp-option=tag:" + v.id + ",3," + v.gateway
  }

  function ServerLines(v: Vlan): seq<string>
    requires v.prefix >= 0
  {
    if v.cfDomain == "" then []
    else ["server=/" + v.cfDomain + "/" + v.gateway, "rev-server=" + v.subnet + "/" + NatText(v.prefix) + "," + v.gateway]
  }

  function HostLine(h: Host): string
  {
    "dhcp-host=" + h.mac + "," + h.ip + (if h.hostname != "" then "," + h.hostname else "")
  }

  /** What rendering one scope needs: a subnet, and addresses to sort by. */
  predicate CanRender(v: Vlan)
  {
    NetworkOf(v).Some? && forall i :: 0 <= i < |v.hosts| ==> ValidIp(v.hosts[i].ip)
  }

  function ScopeLines(v: Vlan): seq<string>
    requires CanRender(v)
  {
    [BlockLine(v), RangeLine(v, AddressText(NetworkOf(v).value.Netmask())), OptionLine(v)]
    + ServerLines(v) + Map(Sort(v.hosts, HigherFirst), HostLine) + [""]
  }

  function AllScopeLines(extra: seq<Vlan>): seq<string>
    requires forall v :: v in extra ==> CanRender(v)
  {
    if extra == [] then [] else ScopeLines(extra[0]) + AllScopeLines(extra[1..])
  }

  /** `"\n".join(lines)` */
  function JoinLines(lines: seq<string>): string
  {
    if lines == [] then "" else if |lines| == 1 then lines[0] else lines[0] + "\n" + JoinLines(lines[1..])
  }

  /** `render_conf`: None where a subnet or a host address is malformed and it raises. */
  function RenderConf(vlans: seq<Vlan>): Option<string>
  {
    if forall v | v in Extra(vlans) :: CanRender(v)
    then Some(JoinLines([MANAGED_TAG, ""] + AllScopeLines(Extra(vlans))))
    else None
  }

  lemma {:induction false} AllScopeLinesAppend(a: seq<Vlan>, b: seq<Vlan>)
    requires forall v :: v in a + b ==> CanRender(v)
    ensures AllScopeLines(a + b) == AllScopeLines(a) + AllScopeLines(b)
  {
    if a == [] {
      assert a + b == b;
    } else {
      assert (a + b)[1..] == a[1..] + b;
      AllScopeLinesAppend(a[1..], b);
    }
  }

  /** The lines of one scope, host by host. */
  method RenderScope(v: Vlan) returns (lines: seq<string>)
    requires CanRender(v)
    ensures lines == ScopeLines(v)
  {
    var head := [BlockLine(v), RangeLine(v, AddressText(NetworkOf(v).value.Netmask())), OptionLine(v)] + ServerLines(v);
    var hosts := RenderHosts(Sort(v.hosts, HigherFirst));
    lines := head + hosts + [""];
  }

  method RenderHosts(hosts: seq<Host>) returns (lines: seq<string>)
    ensures lines == Map(hosts, HostLine)
  {
    hide Map, HostLine;
    lines := [];
    MapCons(hosts[..0], HostLine);
    for j := 0 to |hosts|
      invariant lines == Map(hosts[..j], HostLine)
    {
      MapStep(hosts, j, HostLine);
      lines := lines + [HostLine(hosts[j])];
    }
    assert hosts[..|hosts|] == hosts;
  }

  /** `render_conf`, scope by scope. */
  method Render(vlans: seq<Vlan>) returns (text: Option<string>)
    ensures text.Some? <==> forall v :: v in vlans && !v.isPrimary ==> NetworkOf(v).Some? && forall h :: h in v.hosts ==> ValidIp(h.ip)
    ensures text.Some? && (forall v :: v in vlans && !v.isPrimary ==> Clean(v)) ==>
      forall v :: v in vlans && !v.isPrimary ==> NetworkOf(v).Some? && ShowsScope(SplitLines(text.value) + [""], v)
    ensures text == RenderConf(vlans)
  {
    RendersIff(vlans);
    TextShowsAll(vlans);
    hide ScopeLines, CanRender, Extra, JoinLines, AllScopeLines, ShowsScope, SplitLines, Clean, NetworkOf, ValidIp;
    var lines := [MANAGED_TAG, ""];
    NoScopesYet(vlans);
    for i := 0 to |vlans|
      invariant forall v :: v in Extra(vlans[..i]) ==> CanRender(v)
      invariant lines == [MANAGED_TAG, ""] + AllScopeLines(Extra(vlans[..i]))
    {
      var v := vlans[i];
      ExtraStep(vlans, i);
      if v.isPrimary {
        continue;
      }
      if !CanRender(v) {
        return None;
      }
      var scope := RenderScope(v);
      OneMoreScope(Extra(vlans[..i]), v);
      lines := lines + scope;
    }
    assert vlans[..|vlans|] == vlans;
    text := Some(JoinLines(lines));
  }

  lemma ExtraStep(vlans: seq<Vlan>, i: nat)
    requires i <= |vlans|
    ensures Extra(vlans[..0]) == []
    ensures i < |vlans| ==>
      Extra(vlans[..i + 1]) == if vlans[i].isPrimary then Extra(vlans[..i]) else Extra(vlans[..i]) + [vlans[i]]
    ensures forall v :: v in Extra(vlans[..i]) ==> v in Extra(vlans)
    ensures i < |vlans| && !vlans[i].isPrimary ==> vlans[i] in Extra(vlans)
  {
    if i < |vlans| {
      FilterStep(vlans, i, (v: Vlan) => !v.isPrimary);
    }
  }

  lemma NoScopesYet(vlans: seq<Vlan>)
    ensures Extra(vlans[..0]) == [] && [MANAGED_TAG, ""] + AllScopeLines([]) == [MANAGED_TAG, ""]
  {
  }

  lemma OneMoreScope(extra: seq<Vlan>, v: Vlan)
    requires (forall u :: u in extra ==> CanRender(u)) && CanRender(v)
    ensures forall u :: u in extra + [v] ==> CanRender(u)
    ensures [MANAGED_TAG, ""] + AllScopeLines(extra + [v]) == [MANAGED_TAG, ""] + AllScopeLines(extra) + ScopeLines(v)
  {
    hide ScopeLines, CanRender;
    AllScopeLinesAppend(extra, [v]);
    assert [v][1..] == [] && AllScopeLines([v]) == ScopeLines(v) + [] == ScopeLines(v);
  }

  // --- Lines of a text ---

  predicate IsBreak(c: char)
  {
    '\n' <= c <= '\r' || '\U{1c}' <= c <= '\U{1e}' || c == '\U{85}' || c == '\U{2028}' || c == '\U{2029}'
  }

  predicate OneLine(s: string)
  {
    forall i :: 0 <= i < |s| ==> !IsBreak(s[i])
  }

  ghost predicate AllOneLine(lines: seq<string>)
  {
    forall i :: 0 <= i < |lines| ==> OneLine(lines[i])
  }

  function BreakIndex(s: string): (i: nat)
    ensures i <= |s| && OneLine(s[..i])
    ensures i < |s| ==> IsBreak(s[i])
  {
    if s == "" || IsBreak(s[0]) then 0 else 1 + BreakIndex(s[1..])
  }

  /** `s.splitlines()` */
  function SplitLines(s: string): seq<string>
    decreases |s|
  {
    if s == "" then []
    else
      var i := BreakIndex(s);
      if i == |s| then [s]
      else [s[..i]] + SplitLines(if s[i] == '\r' && i + 1 < |s| && s[i + 1] == '\n' then s[i + 2..] else s[i + 1..])
  }

  lemma {:induction false} BreakAt(a: string, c: char, b: string)
    requires OneLine(a) && IsBreak(c)
    ensures BreakIndex(a + [c] + b) == |a|
    ensures BreakIndex(a) == |a|
  {
    if a == "" {
      assert a + [c] + b == [c] + b;
    } else {
      assert (a + [c] + b)[1..] == a[1..] + [c] + b;
      BreakAt(a[1..], c, b);
    }
  }

  /** These ten characters end a line. */
  lemma LineBreaks(c: char)
    ensures IsBreak(c) <==> c in {'\n', '\r', '\U{0b}', '\U{0c}', '\U{1c}', '\U{1d}', '\U{1e}', '\U{85}', '\U{2028}', '\U{2029}'}
  {
  }

  /** A line ends at its first break, and a carriage return with its line feed is one break. */
  lemma SplitsAtBreak(a: string, c: char, b: string)
    requires OneLine(a) && IsBreak(c)
    ensures !(c == '\r' && b != "" && b[0] == '\n') ==> SplitLines(a + [c] + b) == [a] + SplitLines(b)
    ensures SplitLines(a + "\r\n" + b) == [a] + SplitLines(b)
    ensures a != "" ==> SplitLines(a) == [a]
  {
    hide SplitLines, OneLine;
    BreakAt(a, c, b);
    LineAt(a, c, b);
    BreakAt(a, '\r', "\n" + b);
    LineAt(a, '\r', "\n" + b);
    assert a + ['\r'] + ("\n" + b) == a + "\r\n" + b && ("\n" + b)[1..] == b;
    LineAlone(a);
  }

  lemma LineAt(a: string, c: char, b: string)
    requires BreakIndex(a + [c] + b) == |a|
    ensures SplitLines(a + [c] + b) == [a] + SplitLines(if c == '\r' && b != "" && b[0] == '\n' then b[1..] else b)
  {
    var s := a + [c] + b;
    hide BreakIndex;
    assert s[..|a|] == a && s[|a|] == c && s[|a| + 1..] == b;
    if b != "" {
      assert s[|a| + 1] == b[0] && s[|a| + 2..] == b[1..];
    }
  }

  lemma LineAlone(a: string)
    requires BreakIndex(a) == |a|
    ensures a != "" ==> SplitLines(a) == [a]
  {
    hide BreakIndex;
  }

  lemma SplitLinesStep(a: string, b: string)
    requires OneLine(a)
    ensures SplitLines(a + "\n" + b) == [a] + SplitLines(b)
  {
    SplitsAtBreak(a, '\n', b);
    assert a + "\n" + b == a + ['\n'] + b;
  }

  lemma JoinStep(lines: seq<string>)
    requires |lines| > 1 && AllOneLine(lines)
    ensures JoinLines(lines) == lines[0] + "\n" + JoinLines(lines[1..]) && AllOneLine(lines[1..]) && OneLine(lines[0])
  {
    hide OneLine;
  }

  lemma SplitNothing(lines: seq<string>)
    requires lines == [""]
    ensures SplitLines(JoinLines(lines)) == []
  {
  }

  /** Splitting undoes joining, but for the empty line after the last line break. */
  lemma {:induction false} SplitUndoesJoin(lines: seq<string>)
    requires AllOneLine(lines)
    requires lines != [] && lines[|lines| - 1] == ""
    ensures SplitLines(JoinLines(lines)) == lines[..|lines| - 1]
  {
    hide *;
    if |lines| > 1 {
      var rest := lines[1..];
      JoinStep(lines);
      SplitUndoesJoin(rest);
      SplitLinesStep(lines[0], JoinLines(rest));
      assert lines[..|lines| - 1] == [lines[0]] + rest[..|rest| - 1];
    } else {
      SplitNothing(lines);
    }
  }

  // --- The line patterns ---

  predicate StartsWith(s: string, p: string)
  {
    p <= s
  }

  predicate DigitsAndDots(s: string)
  {
    s != "" && forall i :: 0 <= i < |s| ==> IsDigit(s[i]) || s[i] == '.'
  }

  predicate HexAndColons(s: string)
  {
    s != "" && forall i :: 0 <= i < |s| ==> IsDigit(s[i]) || 'A' <= s[i] <= 'F' || 'a' <= s[i] <= 'f' || s[i] == ':'
  }

  predicate AllDigits(s: string)
  {
    s != "" && forall c :: c in s ==> IsDigit(c)
  }

  /** `dhcp-range=set:TAG,START,END,NETMASK,LEASE`: five fields without commas. */
  function MatchRange(line: string): Option<(string, string, string, string)>
  {
    if !StartsWith(line, "dhcp-range=set:") then None
    else
      var f := Split(line[15..], ',');
      if |f| == 5 && f[0] != "" && f[1] != "" && f[2] != "" && f[3] != "" && f[4] != "" then Some((f[0], f[1], f[2], f[4]))
      else None
  }

  /** `dhcp-option=tag:TAG,3,GATEWAY` */
  function MatchOption(line: string): Option<string>
  {
    if !StartsWith(line, "dhcp-option=tag:") then None
    else
      var f := Split(line[16..], ',');
      if |f| == 3 && f[0] != "" && f[1] == "3" && f[2] != "" then Some(f[2]) else None
  }

  /** `server=/DOMAIN/GATEWAY` */
  function MatchServer(line: string): Option<string>
  {
    if !StartsWith(line, "server=/") then None
    else
      var f := Split(line[8..], '/');
      if |f| == 2 && f[0] != "" && DigitsAndDots(f[1]) then Some(f[0]) else None
  }

  /** `IP[,HOSTNAME]`: a host name may itself hold commas. */
  function MatchAddress(t: string): Option<(string, string)>
  {
    var j := IndexOf(t, ',');
    if !DigitsAndDots(t[..j]) || j + 1 == |t| then None
    else Some((t[..j], if j < |t| then t[j + 1..] else ""))
  }

  /** `dhcp-host=MAC,IP[,HOSTNAME]` */
  function MatchHost(line: string): Option<(string, string, string)>
  {
    if !StartsWith(line, "dhcp-host=") then None
    else
      var s := line[10..];
      var i := IndexOf(s, ',');
      if i == |s| || !HexAndColons(s[..i]) then None
      else
        match MatchAddress(s[i + 1..])
        case None => None
        case Some((ip, hostname)) => Some((s[..i], ip, hostname))
  }

  /** The index of the last occurrence, or -1. */
  function LastIndexOf(s: string, c: char): (i: int)
    ensures -1 <= i < |s|
    ensures i >= 0 ==> s[i] == c
  {
    if s == "" then -1 else if s[|s| - 1] == c then |s| - 1 else LastIndexOf(s[..|s| - 1], c)
  }

  /** `SUBNET/PREFIX) ---` up to the end of the line. */
  function MatchCidr(t: string): Option<(string, nat)>
  {
    var i := IndexOf(t, '/');
    if i == |t| || !DigitsAndDots(t[..i]) then None
    else
      var u := t[i + 1..];
      var j := IndexOf(u, ')');
      if j == |u| || !AllDigits(u[..j]) || Strip(u[j + 1..]) != "---" then None
      else Some((t[..i], ParseNat(u[..j])))
  }

  /** `NAME (subnet SUBNET/PREFIX) ---`, cut at the parenthesis: the name is stripped, or one blank
      when there are only blanks. */
  function MatchNamed(gap: string, rest: string): Option<(string, string, nat)>
  {
    if gap == "" || !StartsWith(rest, "subnet") || |rest| == 6 || !IsSpace(rest[6]) then None
    else
      match MatchCidr(LStrip(rest[6..]))
      case None => None
      case Some((subnet, prefix)) => Some((if Strip(gap) != "" then Strip(gap) else [gap[|gap| - 1]], subnet, prefix))
  }

  /** The subnet part holds no further parenthesis, so it starts at the last one. */
  function MatchName(c: string): Option<(string, string, nat)>
  {
    var k := LastIndexOf(c, '(');
    if k < 0 then None else MatchNamed(c[..k], c[k + 1..])
  }

  /** `# --- NAME (subnet SUBNET/PREFIX) ---` */
  function MatchBlock(line: string): Option<(string, string, nat)>
  {
    if !StartsWith(line, "#") then None
    else
      var a := LStrip(line[1..]);
      if StartsWith(a, "---") then MatchName(a[3..]) else None
  }

  // --- What the patterns match, whoever wrote the line ---

  /** The characters the patterns allow in an address, a mac and a prefix, of which there is at least one. */
  lemma PatternChars(s: string)
    ensures DigitsAndDots(s) <==> s != "" && forall c :: c in s ==> '0' <= c <= '9' || c == '.'
    ensures HexAndColons(s) <==> s != "" && forall c :: c in s ==> '0' <= c <= '9' || 'A' <= c <= 'F' || 'a' <= c <= 'f' || c == ':'
    ensures AllDigits(s) <==> s != "" && forall c :: c in s ==> '0' <= c <= '9'
  {
    if s != "" {
      assert forall i :: 0 <= i < |s| ==> s[i] in s;
    }
  }

  ghost predicate NoComma(s: string)
  {
    s != "" && ',' !in s
  }

  lemma PrefixRest(line: string, p: string)
    ensures StartsWith(line, p) <==> exists rest :: line == p + rest
    ensures StartsWith(line, p) ==> line == p + line[|p|..]
    ensures forall rest :: line == p + rest ==> line[|p|..] == rest
  {
    if StartsWith(line, p) {
      assert line == p + line[|p|..];
    }
  }

  lemma RejoinFive(a: string, b: string, c: string, d: string, e: string)
    ensures Rejoin([a, b, c, d, e], ',') == a + "," + b + "," + c + "," + d + "," + e
  {
    var tail := d + [','] + e;
    assert Rejoin([d, e], ',') == tail;
    assert [c, d, e][1..] == [d, e] && [b, c, d, e][1..] == [c, d, e] && [a, b, c, d, e][1..] == [b, c, d, e];
    assert Rejoin([c, d, e], ',') == c + [','] + tail;
    assert Rejoin([b, c, d, e], ',') == b + [','] + (c + [','] + tail);
    assert a + [','] + (b + [','] + (c + [','] + (d + [','] + e))) == a + "," + b + "," + c + "," + d + "," + e;
  }

  lemma RejoinThree(a: string, b: string, c: string)
    ensures Rejoin([a, b, c], ',') == a + "," + b + "," + c
  {
    assert [a, b, c][1..] == [b, c] && [b, c][1..] == [c];
    assert Rejoin([b, c], ',') == b + [','] + c;
    assert a + [','] + (b + [','] + c) == a + "," + b + "," + c;
  }

  lemma RangePattern(line: string, tag: string, start: string, end: string, lease: string)
    ensures MatchRange(line) == Some((tag, start, end, lease)) <==>
      NoComma(tag) && NoComma(start) && NoComma(end) && NoComma(lease)
      && exists mask :: NoComma(mask) && line == "dhcp-range=set:" + (tag + "," + start + "," + end + "," + mask + "," + lease)
  {
    var p := "dhcp-range=set:";
    PrefixRest(line, p);
    hide Split, Rejoin;
    if MatchRange(line) == Some((tag, start, end, lease)) {
      var f := Split(line[15..], ',');
      SplitIff(line[15..], ',', f);
      assert f == [tag, start, end, f[3], lease];
      RejoinFive(tag, start, end, f[3], lease);
      assert NoComma(f[3]);
    }
    if mask :| NoComma(mask) && NoComma(tag) && NoComma(start) && NoComma(end) && NoComma(lease) && line == p + (tag + "," + start + "," + end + "," + mask + "," + lease) {
      RejoinFive(tag, start, end, mask, lease);
      SplitIff(line[15..], ',', [tag, start, end, mask, lease]);
    }
  }

  lemma OptionPattern(line: string, gateway: string)
    ensures MatchOption(line) == Some(gateway) <==>
      NoComma(gateway) && exists tag :: NoComma(tag) && line == "dhcp-option=tag:" + (tag + "," + "3" + "," + gateway)
  {
    var p := "dhcp-option=tag:";
    PrefixRest(line, p);
    hide Split, Rejoin;
    if MatchOption(line) == Some(gateway) {
      var f := Split(line[16..], ',');
      SplitIff(line[16..], ',', f);
      assert f == [f[0], "3", gateway];
      RejoinThree(f[0], "3", gateway);
      assert NoComma(f[0]);
    }
    if tag :| NoComma(tag) && line == p + (tag + "," + "3" + "," + gateway) && NoComma(gateway) {
      RejoinThree(tag, "3", gateway);
      SplitIff(line[16..], ',', [tag, "3", gateway]);
    }
  }

  lemma ServerPattern(line: string, domain: string)
    ensures MatchServer(line) == Some(domain) <==>
      domain != "" && '/' !in domain && exists gateway :: DigitsAndDots(gateway) && line == "server=/" + (domain + "/" + gateway)
  {
    var p := "server=/";
    PrefixRest(line, p);
    if MatchServer(line) == Some(domain) {
      var f := Split(line[8..], '/');
      SplitIff(line[8..], '/', f);
      assert f == [domain, f[1]] && [domain, f[1]][1..] == [f[1]];
      assert line == p + (domain + "/" + f[1]);
    }
    if gateway :| DigitsAndDots(gateway) && line == p + (domain + "/" + gateway) && domain != "" && '/' !in domain {
      assert '/' !in gateway;
      assert [domain, gateway][1..] == [gateway];
      SplitIff(line[8..], '/', [domain, gateway]);
    }
  }

  /** The mac in any case; a host name may itself hold commas. */
  lemma HostPattern(line: string, mac: string, ip: string, hostname: string)
    ensures MatchHost(line) == Some((mac, ip, hostname)) <==>
      HexAndColons(mac) && DigitsAndDots(ip)
      && line == "dhcp-host=" + (mac + "," + (if hostname == "" then ip else ip + "," + hostname))
  {
    var p, rest := "dhcp-host=", if hostname == "" then ip else ip + "," + hostname;
    PrefixRest(line, p);
    if StartsWith(line, p) {
      FirstCut(line[10..], mac, rest);
      if MatchHost(line) == Some((mac, ip, hostname)) {
        AddressPattern(line[10..][IndexOf(line[10..], ',') + 1..], ip, hostname);
      }
      if HexAndColons(mac) && DigitsAndDots(ip) && line[10..] == mac + "," + rest {
        ColonsNoComma(mac);
        AddressPattern(rest, ip, hostname);
      }
    }
  }

  lemma ColonsNoComma(mac: string)
    requires HexAndColons(mac)
    ensures ',' !in mac
  {
  }

  /** Cutting a text at its first comma. */
  lemma FirstCut(t: string, a: string, b: string)
    ensures ',' in t ==> t == t[..IndexOf(t, ',')] + "," + t[IndexOf(t, ',') + 1..]
    ensures ',' !in a && t == a + "," + b ==> IndexOf(t, ',') == |a| && t[..|a|] == a && t[|a| + 1..] == b
  {
    if ',' in t {
      var i := IndexOf(t, ',');
      assert t[..|t|] == t;
      assert i < |t|;
    }
    if ',' !in a && t == a + "," + b {
      assert t == a + [','] + b;
      IndexAfter(a, ',', b);
    }
  }

  lemma AddressPattern(t: string, ip: string, hostname: string)
    ensures MatchAddress(t) == Some((ip, hostname)) <==> DigitsAndDots(ip) && t == if hostname == "" then ip else ip + "," + hostname
  {
    var j := IndexOf(t, ',');
    if MatchAddress(t) == Some((ip, hostname)) {
      if j < |t| {
        assert t == t[..j] + "," + t[j + 1..];
      } else {
        assert t[..j] == t;
      }
    }
    if DigitsAndDots(ip) && t == if hostname == "" then ip else ip + "," + hostname {
      assert ',' !in ip;
      if hostname == "" {
        IndexNone(ip, ',');
        assert t[..|t|] == t;
      } else {
        assert t == ip + [','] + hostname;
        IndexAfter(ip, ',', hostname);
      }
    }
  }

  // --- Parsing ---

  /** The scopes finished so far, and the one being read; its id is empty until its range line. */
  datatype Progress = Progress(vlans: seq<Vlan>, current: Option<Vlan>)

  function Finished(s: Progress): seq<Vlan>
  {
    if s.current.Some? && s.current.value.id != "" then s.vlans + [s.current.value] else s.vlans
  }

  function NewScope(name: string, subnet: string, prefix: nat): Vlan
  {
    Vlan("", name, None, false, subnet, prefix, "", "", "", "", "", "", [])
  }

  function ParseLine(s: Progress, raw: string): Progress
  {
    var line := Strip(raw);
    if MatchBlock(line).Some? then
      var (name, subnet, prefix) := MatchBlock(line).value;
      Progress(Finished(s), Some(NewScope(name, subnet, prefix)))
    else if s.current.None? then s
    else s.(current := Some(ScopeLine(s.current.value, line)))
  }

  /** A line inside a scope, tried against the patterns in order; any other line is passed over. */
  function ScopeLine(v: Vlan, line: string): Vlan
  {
    if MatchRange(line).Some? then
      var (tag, start, end, lease) := MatchRange(line).value;
      v.(id := tag, rangeStart := start, rangeEnd := end, leaseTime := lease)
    else if MatchOption(line).Some? then v.(gateway := MatchOption(line).value)
    else if MatchServer(line).Some? then v.(cfDomain := MatchServer(line).value)
    else if MatchHost(line).Some? then
      var (mac, ip, hostname) := MatchHost(line).value;
      v.(hosts := v.hosts + [Host(Upper(mac), ip, hostname, false)])
    else v
  }

  function ParseLines(s: Progress, lines: seq<string>): Progress
    decreases |lines|
  {
    if lines == [] then s else ParseLines(ParseLine(s, lines[0]), lines[1..])
  }

  /** `parse_conf` */
  function ParsedConf(content: string): seq<Vlan>
  {
    Finished(ParseLines(Progress([], None), SplitLines(content)))
  }

  method ParseConf(content: string) returns (vlans: seq<Vlan>)
    ensures vlans == ParsedConf(content)
  {
    vlans := [];
    var current: Option<Vlan> := None;
    var lines := SplitLines(content);
    for i := 0 to |lines|
      invariant ParseLines(Progress([], None), lines) == ParseLines(Progress(vlans, current), lines[i..])
    {
      var line := Strip(lines[i]);
      var m := MatchBlock(line);
      if m.Some? {
        if current.Some? && current.value.id != "" {
          vlans := vlans + [current.value];
        }
        current := Some(NewScope(m.value.0, m.value.1, m.value.2));
      } else if current.Some? {
        current := Some(ScopeLine(current.value, line));
      }
    }
    if current.Some? && current.value.id != "" {
      vlans := vlans + [current.value];
    }
  }

  // --- Round trip ---

  /** A field that ends a line or stands between separators. */
  predicate Field(s: string)
  {
    s != "" && OneLine(s) && ',' !in s
  }

  ghost predicate EndsLine(s: string)
  {
    s != "" ==> !IsSpace(s[|s| - 1])
  }

  /** Fields without separators or line breaks, and nothing that stripping a line would cut. */
  ghost predicate Clean(v: Vlan)
  {
    && Field(v.id) && Field(v.rangeStart) && Field(v.rangeEnd)
    && Field(v.leaseTime) && EndsLine(v.leaseTime) && Field(v.gateway) && EndsLine(v.gateway)
    && v.name != "" && OneLine(v.name) && Stripped(v.name)
    && (v.cfDomain != "" ==> OneLine(v.cfDomain) && '/' !in v.cfDomain && DigitsAndDots(v.gateway))
    && forall i :: 0 <= i < |v.hosts| ==> CleanHost(v.hosts[i])
  }

  ghost predicate CleanHost(h: Host)
  {
    HexAndColons(h.mac) && OneLine(h.hostname) && EndsLine(h.hostname)
  }

  function UpperHost(h: Host): Host
  {
    Host(Upper(h.mac), h.ip, h.hostname, false)
  }

  /** What comes back of a scope: everything the snippet carries. */
  function Restored(v: Vlan): Vlan
  {
    Vlan(v.id, v.name, None, false, v.subnet, v.prefix, v.gateway, v.rangeStart, v.rangeEnd, v.leaseTime, v.cfDomain, "",
         Map(Sort(v.hosts, HigherFirst), UpperHost))
  }

  lemma {:induction false} ParseLinesAppend(s: Progress, a: seq<string>, b: seq<string>)
    ensures ParseLines(s, a + b) == ParseLines(ParseLines(s, a), b)
    decreases |a|
  {
    if a == [] {
      assert a + b == b;
    } else {
      assert (a + b)[1..] == a[1..] + b;
      ParseLinesAppend(ParseLine(s, a[0]), a[1..], b);
    }
  }

  lemma ParseCons(s: Progress, line: string, rest: seq<string>)
    ensures ParseLines(s, [line] + rest) == ParseLines(ParseLine(s, line), rest)
    ensures ParseLines(s, [line]) == ParseLine(s, line)
    ensures ParseLines(s, []) == s
  {
    hide ParseLine;
    assert ([line] + rest)[1..] == rest && [line][1..] == [];
  }

  lemma {:induction false} LastIndexAt(a: string, c: char, b: string)
    requires c !in b
    ensures LastIndexOf(a + [c] + b, c) == |a|
  {
    var s := a + [c] + b;
    if b != "" {
      assert s[..|s| - 1] == a + [c] + b[..|b| - 1];
      LastIndexAt(a, c, b[..|b| - 1]);
    }
  }

  lemma LStripBlank(s: string)
    requires s != "" && !IsSpace(s[0])
    ensures LStrip(" " + s) == s
  {
    assert (" " + s)[1..] == s;
  }

  lemma CidrMatches(subnet: string, digits: string, tail: string)
    requires DigitsAndDots(subnet) && AllDigits(digits) && Strip(tail) == "---"
    ensures MatchCidr(subnet + "/" + (digits + ")" + tail)) == Some((subnet, ParseNat(digits)))
  {
    IndexAfter(subnet, '/', digits + ")" + tail);
    IndexAfter(digits, ')', tail);
  }

  /** The name in the gap before the parenthesis: without the blanks around it, or one blank where there are
      only blanks. */
  ghost predicate NameIn(gap: string, name: string)
  {
    if Blank(gap) then gap != "" && name == [gap[|gap| - 1]] else Padded(gap, name) && Stripped(name)
  }

  lemma NameIs(gap: string, name: string)
    requires gap != ""
    ensures NameIn(gap, name) <==> name == if Strip(gap) != "" then Strip(gap) else [gap[|gap| - 1]]
  {
    StripCuts(gap);
    if NameIn(gap, name) && !Blank(gap) {
      StripPadded(gap, name);
    }
  }

  lemma NamedMatches(gap: string, name: string, blank: string, cidr: string)
    requires NameIn(gap, name) && Blank(blank) && blank != ""
    requires cidr != "" && !IsSpace(cidr[0]) && MatchCidr(cidr).Some?
    ensures MatchNamed(gap, "subnet" + (blank + cidr)) == Some((name, MatchCidr(cidr).value.0, MatchCidr(cidr).value.1))
  {
    var rest := "subnet" + (blank + cidr);
    assert rest[6..] == blank + cidr && rest[6] == blank[0];
    LStripBlanks(blank, cidr);
    assert gap != "";
    NameIs(gap, name);
  }

  lemma NameCut(gap: string, rest: string)
    requires '(' !in rest
    ensures MatchName(gap + "(" + rest) == MatchNamed(gap, rest)
  {
    LastIndexAt(gap, '(', rest);
    var c := gap + "(" + rest;
    assert c[..|gap|] == gap && c[|gap| + 1..] == rest;
  }

  lemma BlockCut(blank: string, c: string)
    requires Blank(blank)
    ensures MatchBlock("#" + (blank + ("---" + c))) == MatchName(c)
  {
    var line := "#" + (blank + ("---" + c));
    LStripBlanks(blank, "---" + c);
    assert line[1..] == blank + ("---" + c) && ("---" + c)[3..] == c;
  }

  lemma BlockLineParts(name: string, subnet: string, digits: string)
    ensures "# --- " + name + " (subnet " + subnet + "/" + digits + ") ---"
         == "#" + (" " + ("---" + ((" " + name + " ") + "(" + ("subnet" + (" " + (subnet + "/" + (digits + ")" + " ---")))))))
  {
    var line := "# --- " + name + " (subnet " + subnet + "/" + digits + ") ---";
    assert line == "# ---" + (" " + name + " ") + "(" + ("subnet" + " ") + subnet + "/" + digits + ")" + " ---";
  }

  lemma NoParenthesis(subnet: string, digits: string, blank: string, tail: string)
    requires DigitsAndDots(subnet) && AllDigits(digits) && Blank(blank) && '(' !in tail
    ensures '(' !in "subnet" + (blank + (subnet + "/" + (digits + ")" + tail)))
  {
    assert '(' !in subnet && '(' !in digits && '(' !in blank;
    assert '(' !in subnet + "/" + (digits + ")" + tail);
  }

  /** The parts of a scope's first line, with blanks where they may be. */
  ghost predicate BlockShape(line: string, before: string, gap: string, name: string, blank: string, subnet: string, digits: string, tail: string,
                             prefix: nat)
  {
    && Blank(before) && NameIn(gap, name) && Blank(blank) && blank != ""
    && DigitsAndDots(subnet) && AllDigits(digits) && prefix == ParseNat(digits) && Padded(tail, "---")
    && line == "#" + (before + ("---" + (gap + "(" + ("subnet" + (blank + (subnet + "/" + (digits + ")" + tail)))))))
  }

  lemma BlockRead(line: string, before: string, gap: string, name: string, blank: string, subnet: string, digits: string, tail: string, prefix: nat)
    requires BlockShape(line, before, gap, name, blank, subnet, digits, tail, prefix)
    ensures MatchBlock(line) == Some((name, subnet, prefix))
  {
    StripPadded(tail, "---");
    TailNoParenthesis(tail);
    hide MatchBlock, MatchName, MatchNamed, MatchCidr, Padded, Blank, NameIn;
    var cidr := subnet + "/" + (digits + ")" + tail);
    CidrMatches(subnet, digits, tail);
    assert cidr[0] == subnet[0];
    NamedMatches(gap, name, blank, cidr);
    NoParenthesis(subnet, digits, blank, tail);
    NameCut(gap, "subnet" + (blank + cidr));
    BlockCut(before, gap + "(" + ("subnet" + (blank + cidr)));
  }

  lemma CutAt(s: string, c: char, k: nat)
    requires k < |s| && s[k] == c
    ensures s == s[..k] + [c] + s[k + 1..]
  {
  }

  lemma CutFront(s: string, p: string)
    requires StartsWith(s, p)
    ensures s == p + s[|p|..]
  {
  }

  lemma CidrOf(t: string) returns (digits: string, tail: string)
    requires MatchCidr(t).Some?
    ensures
      var (subnet, prefix) := MatchCidr(t).value;
      && DigitsAndDots(subnet) && AllDigits(digits) && prefix == ParseNat(digits) && Padded(tail, "---")
      && t == subnet + "/" + (digits + ")" + tail)
  {
    var i := IndexOf(t, '/');
    var u := t[i + 1..];
    var j := IndexOf(u, ')');
    digits, tail := u[..j], u[j + 1..];
    assert MatchCidr(t) == Some((t[..i], ParseNat(digits))) && DigitsAndDots(t[..i]) && AllDigits(digits) && Strip(tail) == "---";
    hide *;
    StripCuts(tail);
    CutAt(t, '/', i);
    CutAt(u, ')', j);
  }

  lemma NamedOf(gap: string, rest: string) returns (blank: string, cidr: string)
    requires MatchNamed(gap, rest).Some?
    ensures
      var (name, subnet, prefix) := MatchNamed(gap, rest).value;
      NameIn(gap, name) && Blank(blank) && blank != "" && MatchCidr(cidr) == Some((subnet, prefix)) && rest == "subnet" + (blank + cidr)
  {
    var t := rest[6..];
    cidr := LStrip(t);
    assert t[0] == rest[6] && StartsWith(rest, "subnet") && gap != "" && MatchCidr(cidr).Some?;
    hide MatchCidr;
    NameIs(gap, MatchNamed(gap, rest).value.0);
    hide NameIn, MatchNamed;
    blank := LStripCuts(t);
    CutFront(rest, "subnet");
  }

  lemma GapOf(c: string) returns (gap: string, rest: string)
    requires MatchName(c).Some?
    ensures MatchNamed(gap, rest) == MatchName(c) && c == gap + "(" + rest
  {
    var k := LastIndexOf(c, '(');
    gap, rest := c[..k], c[k + 1..];
    hide MatchNamed, LastIndexOf;
    CutAt(c, '(', k);
  }

  lemma BlockOf(line: string) returns (before: string, c: string)
    requires MatchBlock(line).Some?
    ensures Blank(before) && MatchName(c) == MatchBlock(line) && line == "#" + (before + ("---" + c))
  {
    var a := LStrip(line[1..]);
    c := a[3..];
    assert StartsWith(line, "#") && StartsWith(a, "---") && MatchName(c) == MatchBlock(line);
    hide *;
    CutFront(line, "#");
    before := LStripCuts(line[1..]);
    CutFront(a, "---");
  }

  /** A scope's first line is read exactly when it has these parts. */
  lemma BlockPattern(line: string, name: string, subnet: string, prefix: nat)
    ensures MatchBlock(line) == Some((name, subnet, prefix)) <==>
      exists before, gap, blank, digits, tail :: BlockShape(line, before, gap, name, blank, subnet, digits, tail, prefix)
  {
    hide *;
    if MatchBlock(line) == Some((name, subnet, prefix)) {
      var before, c := BlockOf(line);
      var gap, rest := GapOf(c);
      var blank, cidr := NamedOf(gap, rest);
      var digits, tail := CidrOf(cidr);
      ShapeFrom(line, before, gap, name, blank, subnet, digits, tail);
    }
    if before, gap, blank, digits, tail :| BlockShape(line, before, gap, name, blank, subnet, digits, tail, prefix) {
      BlockRead(line, before, gap, name, blank, subnet, digits, tail, prefix);
    }
  }

  lemma ShapeFrom(line: string, before: string, gap: string, name: string, blank: string, subnet: string, digits: string, tail: string)
    requires Blank(before) && NameIn(gap, name) && Blank(blank) && blank != ""
    requires DigitsAndDots(subnet) && AllDigits(digits) && Padded(tail, "---")
    requires line == "#" + (before + ("---" + (gap + "(" + ("subnet" + (blank + (subnet + "/" + (digits + ")" + tail)))))))
    ensures BlockShape(line, before, gap, name, blank, subnet, digits, tail, ParseNat(digits))
  {
  }

  lemma TailNoParenthesis(tail: string)
    requires Padded(tail, "---")
    ensures '(' !in tail
  {
  }

  lemma OneBlank(core: string)
    ensures Blank(" ") && Blank("") && Padded(" " + core + " ", core) && Padded(" " + core, core)
  {
    assert " " + core == " " + core + "";
  }

  lemma NotBlank(s: string, i: nat)
    requires i < |s| && !IsSpace(s[i])
    ensures !Blank(s)
  {
    assert s[i] in s;
  }

  lemma BlockTextMatches(name: string, subnet: string, digits: string)
    requires name != "" && Stripped(name) && DigitsAndDots(subnet) && AllDigits(digits)
    ensures MatchBlock("# --- " + name + " (subnet " + subnet + "/" + digits + ") ---") == Some((name, subnet, ParseNat(digits)))
  {
    assert (" " + name + " ")[1] == name[0];
    hide MatchBlock, Padded, Blank;
    OneBlank(name);
    OneBlank("---");
    assert " " + "---" == " ---";
    BlockLineParts(name, subnet, digits);
    assert NameIn(" " + name + " ", name) by { NotBlank(" " + name + " ", 1); }
    hide NameIn;
    ShapeFrom("# --- " + name + " (subnet " + subnet + "/" + digits + ") ---", " ", " " + name + " ", name, " ", subnet, digits, " ---");
    BlockRead("# --- " + name + " (subnet " + subnet + "/" + digits + ") ---", " ", " " + name + " ", name, " ", subnet, digits, " ---", ParseNat(digits));
  }

  lemma BlockMatches(v: Vlan)
    requires CanRender(v) && Clean(v)
    ensures MatchBlock(BlockLine(v)) == Some((v.name, v.subnet, v.prefix))
  {
    hide MatchBlock;
    AddressChars(v.subnet);
    ParseNatText(v.prefix);
    BlockTextMatches(v.name, v.subnet, NatText(v.prefix));
  }

  lemma SplitFive(a: string, b: string, c: string, d: string, e: string)
    requires ',' !in a && ',' !in b && ',' !in c && ',' !in d && ',' !in e
    ensures Split(a + "," + b + "," + c + "," + d + "," + e, ',') == [a, b, c, d, e]
  {
    SplitWhole(a, ',');
    SplitLast(a, ',', b);
    SplitLast(a + "," + b, ',', c);
    SplitLast(a + "," + b + "," + c, ',', d);
    SplitLast(a + "," + b + "," + c + "," + d, ',', e);
  }

  lemma RangeMatches(id: string, start: string, end: string, netmask: string, lease: string)
    requires Field(id) && Field(start) && Field(end) && Field(netmask) && Field(lease)
    ensures MatchRange("dhcp-range=set:" + id + "," + start + "," + end + "," + netmask + "," + lease) == Some((id, start, end, lease))
  {
    var line := "dhcp-range=set:" + id + "," + start + "," + end + "," + netmask + "," + lease;
    assert line == "dhcp-range=set:" + (id + "," + start + "," + end + "," + netmask + "," + lease);
    SplitFive(id, start, end, netmask, lease);
  }

  lemma OptionMatches(id: string, gateway: string)
    requires Field(id) && Field(gateway)
    ensures MatchOption("dhcp-option=tag:" + id + ",3," + gateway) == Some(gateway)
  {
    var rest := id + "," + ("3" + "," + gateway);
    assert "dhcp-option=tag:" + id + ",3," + gateway == "dhcp-option=tag:" + rest;
    SplitFirst(id, ',', "3" + "," + gateway);
    SplitFirst("3", ',', gateway);
    SplitWhole(gateway, ',');
  }

  lemma ServerMatches(domain: string, gateway: string)
    requires domain != "" && '/' !in domain && DigitsAndDots(gateway)
    ensures MatchServer("server=/" + domain + "/" + gateway) == Some(domain)
  {
    assert "server=/" + domain + "/" + gateway == "server=/" + (domain + "/" + gateway);
    SplitFirst(domain, '/', gateway);
    SplitWhole(gateway, '/');
  }

  function AddressPart(ip: string, hostname: string): string
  {
    ip + (if hostname != "" then "," + hostname else "")
  }

  lemma AddressMatches(ip: string, hostname: string)
    requires DigitsAndDots(ip)
    ensures MatchAddress(AddressPart(ip, hostname)) == Some((ip, hostname))
  {
    if hostname == "" {
      assert AddressPart(ip, hostname) == ip;
      IndexNone(ip, ',');
    } else {
      assert AddressPart(ip, hostname) == ip + "," + hostname;
      IndexAfter(ip, ',', hostname);
    }
  }

  lemma HostMatches(h: Host)
    requires HexAndColons(h.mac) && DigitsAndDots(h.ip)
    ensures MatchHost(HostLine(h)) == Some((h.mac, h.ip, h.hostname))
  {
    var rest := AddressPart(h.ip, h.hostname);
    assert HostLine(h) == "dhcp-host=" + (h.mac + "," + rest);
    hide HostLine, AddressPart, MatchAddress, HexAndColons, DigitsAndDots, IndexOf;
    IndexAfter(h.mac, ',', rest);
    AddressMatches(h.ip, h.hostname);
    assert ("dhcp-host=" + (h.mac + "," + rest))[10..] == h.mac + "," + rest;
  }

  /** A line is recognised by how it starts. */
  lemma OtherPatterns(line: string)
    ensures !("#" <= line) ==> MatchBlock(line).None?
    ensures "dhcp-option" <= line || "dhcp-host" <= line || "server" <= line || "rev" <= line ==> MatchRange(line).None?
    ensures "dhcp-host" <= line || "server" <= line || "rev" <= line ==> MatchOption(line).None?
    ensures "dhcp-host" <= line || "rev" <= line ==> MatchServer(line).None?
    ensures "rev" <= line ==> MatchHost(line).None?
    ensures "dhcp" <= line || "server" <= line || "rev" <= line ==> !("#" <= line)
  {
    assert "dhcp-range=set:" <= line ==> line[5] == 'r' && line[0] == 'd';
    assert "dhcp-option=tag:" <= line ==> line[5] == 'o' && line[0] == 'd';
    assert "dhcp-option" <= line ==> line[5] == 'o' && line[0] == 'd';
    assert "dhcp-host" <= line ==> line[5] == 'h' && line[0] == 'd';
    assert "dhcp-host=" <= line ==> line[5] == 'h' && line[0] == 'd';
    assert "server=/" <= line ==> line[0] == 's';
    assert "server" <= line ==> line[0] == 's';
    assert "rev" <= line ==> line[0] == 'r';
    assert "dhcp" <= line ==> line[0] == 'd';
    assert "#" <= line ==> line[0] == '#';
  }

  lemma StripLine(line: string)
    requires line != "" && !IsSpace(line[0]) && !IsSpace(line[|line| - 1])
    ensures Strip(line) == line
  {
    StripStripped(line);
  }

  lemma HeaderParsed(s: Progress, v: Vlan)
    requires CanRender(v) && Clean(v)
    ensures ParseLine(s, BlockLine(v)) == Progress(Finished(s), Some(NewScope(v.name, v.subnet, v.prefix)))
  {
    hide MatchBlock;
    BlockMatches(v);
    StripLine(BlockLine(v));
  }

  lemma RangeParsed(s: Progress, v: Vlan, netmask: string)
    requires s.current.Some? && Clean(v) && Field(netmask)
    ensures ParseLine(s, RangeLine(v, netmask)) == s.(current := Some(s.current.value.(
      id := v.id, rangeStart := v.rangeStart, rangeEnd := v.rangeEnd, leaseTime := v.leaseTime)))
  {
    hide MatchBlock, MatchRange;
    var line := RangeLine(v, netmask);
    RangeMatches(v.id, v.rangeStart, v.rangeEnd, netmask, v.leaseTime);
    assert line[0] == 'd' && line[|line| - 1] == v.leaseTime[|v.leaseTime| - 1];
    StripLine(line);
    assert "dhcp" <= line;
    OtherPatterns(line);
  }

  lemma OptionParsed(s: Progress, v: Vlan)
    requires s.current.Some? && Clean(v)
    ensures ParseLine(s, OptionLine(v)) == s.(current := Some(s.current.value.(gateway := v.gateway)))
  {
    hide MatchBlock, MatchRange, MatchOption;
    var line := OptionLine(v);
    OptionMatches(v.id, v.gateway);
    assert line[0] == 'd' && line[|line| - 1] == v.gateway[|v.gateway| - 1];
    StripLine(line);
    assert "dhcp" <= line && "dhcp-option" <= line;
    OtherPatterns(line);
  }

  lemma ServerParsed(s: Progress, domain: string, gateway: string)
    requires s.current.Some? && domain != "" && '/' !in domain && DigitsAndDots(gateway)
    ensures ParseLine(s, "server=/" + domain + "/" + gateway) == s.(current := Some(s.current.value.(cfDomain := domain)))
  {
    hide MatchBlock, MatchRange, MatchOption, MatchServer;
    var line := "server=/" + domain + "/" + gateway;
    ServerMatches(domain, gateway);
    assert line[0] == 's' && line[|line| - 1] == gateway[|gateway| - 1];
    StripLine(line);
    assert "server" <= line;
    OtherPatterns(line);
  }

  /** The reverse server is not read back: it follows from the scope. */
  lemma ReverseParsed(s: Progress, subnet: string, gateway: string)
    requires s.current.Some? && DigitsAndDots(gateway)
    ensures ParseLine(s, "rev-server=" + subnet + "," + gateway) == s
  {
    hide MatchBlock, MatchRange, MatchOption, MatchServer, MatchHost;
    var line := "rev-server=" + subnet + "," + gateway;
    assert line[0] == 'r' && line[|line| - 1] == gateway[|gateway| - 1];
    StripLine(line);
    assert "rev" <= line;
    OtherPatterns(line);
  }

  lemma ServersParsed(s: Progress, v: Vlan)
    requires s.current.Some? && s.current.value.cfDomain == "" && CanRender(v) && Clean(v)
    ensures ParseLines(s, ServerLines(v)) == s.(current := Some(s.current.value.(cfDomain := v.cfDomain)))
  {
    hide ParseLine, ParseLines;
    ParseCons(s, "", []);
    if v.cfDomain != "" {
      var subnet := v.subnet + "/" + NatText(v.prefix);
      var a, b := "server=/" + v.cfDomain + "/" + v.gateway, "rev-server=" + subnet + "," + v.gateway;
      assert "rev-server=" + v.subnet + "/" + NatText(v.prefix) == "rev-server=" + subnet;
      assert ServerLines(v) == [a] + [b];
      var t := s.(current := Some(s.current.value.(cfDomain := v.cfDomain)));
      ServerParsed(s, v.cfDomain, v.gateway);
      ReverseParsed(t, subnet, v.gateway);
      ParseCons(s, a, [b]);
      ParseCons(t, b, []);
    }
  }

  lemma HostParsed(s: Progress, h: Host)
    requires s.current.Some? && CleanHost(h) && ValidIp(h.ip)
    ensures ParseLine(s, HostLine(h)) == s.(current := Some(s.current.value.(hosts := s.current.value.hosts + [UpperHost(h)])))
  {
    hide MatchBlock, MatchRange, MatchOption, MatchServer, MatchHost;
    AddressChars(h.ip);
    HostMatches(h);
    var line := HostLine(h);
    assert line[0] == 'd' && line[|line| - 1] == if h.hostname != "" then h.hostname[|h.hostname| - 1] else h.ip[|h.ip| - 1];
    StripLine(line);
    assert "dhcp" <= line && "dhcp-host" <= line;
    OtherPatterns(line);
  }

  function WithHosts(s: Progress, hosts: seq<Host>): (r: Progress)
    requires s.current.Some?
    ensures r.current.Some?
  {
    s.(current := Some(s.current.value.(hosts := s.current.value.hosts + hosts)))
  }

  lemma WithHostsTwice(s: Progress, a: seq<Host>, b: seq<Host>)
    requires s.current.Some?
    ensures WithHosts(WithHosts(s, a), b) == WithHosts(s, a + b)
    ensures WithHosts(s, []) == s
  {
    var hosts := s.current.value.hosts;
    assert hosts + a + b == hosts + (a + b) && hosts + [] == hosts;
  }

  lemma {:induction false} HostsParsed(s: Progress, hosts: seq<Host>)
    requires s.current.Some? && forall i :: 0 <= i < |hosts| ==> CleanHost(hosts[i]) && ValidIp(hosts[i].ip)
    ensures ParseLines(s, Map(hosts, HostLine)) == WithHosts(s, Map(hosts, UpperHost))
    decreases |hosts|
  {
    hide ParseLine, ParseLines, WithHosts, Map;
    MapCons(hosts, HostLine);
    MapCons(hosts, UpperHost);
    if hosts == [] {
      WithHostsTwice(s, [], []);
      ParseCons(s, "", []);
    } else {
      var first, rest := UpperHost(hosts[0]), hosts[1..];
      HostIsAdded(s, hosts[0]);
      HostsParsed(WithHosts(s, [first]), rest);
      WithHostsTwice(s, [first], Map(rest, UpperHost));
      ParseCons(s, HostLine(hosts[0]), Map(rest, HostLine));
    }
  }

  lemma HostIsAdded(s: Progress, h: Host)
    requires s.current.Some? && CleanHost(h) && ValidIp(h.ip)
    ensures ParseLine(s, HostLine(h)) == WithHosts(s, [UpperHost(h)])
  {
    HostParsed(s, h);
  }

  lemma EmptyLineParsed(s: Progress)
    ensures ParseLine(s, "") == s
  {
    OtherPatterns("");
  }

  /** Reading one rendered scope finishes the scope before it and leaves this one, restored. */
  lemma ScopeParsed(s: Progress, v: Vlan)
    requires CanRender(v) && Clean(v)
    ensures ParseLines(s, ScopeLines(v)) == Progress(Finished(s), Some(Restored(v)))
  {
    hide ParseLine, ParseLines, Finished;
    var netmask := AddressText(NetworkOf(v).value.Netmask());
    var sorted := Sort(v.hosts, HigherFirst);
    var hosts := Map(sorted, HostLine);
    var s1 := Progress(Finished(s), Some(NewScope(v.name, v.subnet, v.prefix)));
    HeaderParsed(s, v);
    NetmaskField(v);
    RangeParsed(s1, v, netmask);
    var s2 := ParseLine(s1, RangeLine(v, netmask));
    OptionParsed(s2, v);
    var s3 := ParseLine(s2, OptionLine(v));
    ServersParsed(s3, v);
    var s4 := ParseLines(s3, ServerLines(v));
    SortMembers(v.hosts, HigherFirst);
    forall i | 0 <= i < |sorted| ensures CleanHost(sorted[i]) && ValidIp(sorted[i].ip) {
      assert sorted[i] in v.hosts;
    }
    HostsParsed(s4, sorted);
    var s5 := ParseLines(s4, hosts);
    EmptyLineParsed(s5);
    FiveParts(s, BlockLine(v), RangeLine(v, netmask), OptionLine(v), ServerLines(v), hosts);
    assert [] + Map(sorted, UpperHost) == Map(sorted, UpperHost);
  }

  lemma FiveParts(s: Progress, a: string, b: string, c: string, d: seq<string>, e: seq<string>)
    ensures ParseLines(s, [a, b, c] + d + e + [""])
         == ParseLine(ParseLines(ParseLines(ParseLine(ParseLine(ParseLine(s, a), b), c), d), e), "")
  {
    hide ParseLine, ParseLines;
    assert [a, b, c] + d + e + [""] == [a] + ([b] + ([c] + (d + (e + [""]))));
    ParseCons(s, a, [b] + ([c] + (d + (e + [""]))));
    var t := ParseLine(s, a);
    ParseCons(t, b, [c] + (d + (e + [""])));
    var u := ParseLine(t, b);
    ParseCons(u, c, d + (e + [""]));
    var w := ParseLine(u, c);
    ParseLinesAppend(w, d, e + [""]);
    ParseLinesAppend(ParseLines(w, d), e, [""]);
    ParseCons(ParseLines(ParseLines(w, d), e), "", []);
  }

  lemma AddressField(ip: string)
    requires ValidIp(ip)
    ensures Field(ip)
  {
    AddressChars(ip);
    forall i | 0 <= i < |ip| ensures !IsBreak(ip[i]) {
      assert ip[i] in ip;
    }
  }

  lemma NetmaskField(v: Vlan)
    requires CanRender(v)
    ensures Field(AddressText(NetworkOf(v).value.Netmask()))
  {
    hide ParseAddress, AddressText;
    var m := NetworkOf(v).value.Netmask();
    ParseAddressText(m);
    AddressField(AddressText(m));
  }

  lemma {:induction false} ScopesParsed(s: Progress, extra: seq<Vlan>)
    requires forall v :: v in extra ==> CanRender(v) && Clean(v)
    ensures Finished(ParseLines(s, AllScopeLines(extra))) == Finished(s) + Map(extra, Restored)
    decreases |extra|
  {
    hide ParseLine, ParseLines, ScopeLines, Restored, CanRender, Clean, Finished, Map;
    MapCons(extra, Restored);
    if extra == [] {
      ParseCons(s, "", []);
      assert Finished(s) + Map(extra, Restored) == Finished(s);
    } else {
      var v, rest := extra[0], extra[1..];
      ScopeParsed(s, v);
      var t := Progress(Finished(s), Some(Restored(v)));
      ParseLinesAppend(s, ScopeLines(v), AllScopeLines(rest));
      ScopesParsed(t, rest);
      RestoredFinishes(Finished(s), v);
    }
  }

  lemma RestoredFinishes(vlans: seq<Vlan>, v: Vlan)
    requires Clean(v)
    ensures Finished(Progress(vlans, Some(Restored(v)))) == vlans + [Restored(v)]
  {
  }

  lemma OneLineConcat(a: string, b: string)
    requires OneLine(a) && OneLine(b)
    ensures OneLine(a + b)
  {
  }

  lemma HostLineIsLine(h: Host)
    requires CleanHost(h) && ValidIp(h.ip)
    ensures OneLine(HostLine(h))
  {
    AddressField(h.ip);
    hide ParseAddress;
    OneLineConcat("dhcp-host=", h.mac);
    OneLineConcat("dhcp-host=" + h.mac, ",");
    OneLineConcat("dhcp-host=" + h.mac + ",", h.ip);
  }

  lemma BlockIsLine(v: Vlan)
    requires v.prefix >= 0 && OneLine(v.name) && OneLine(v.subnet)
    ensures OneLine(BlockLine(v))
  {
    var digits := NatText(v.prefix);
    DigitsField(v.prefix);
    OneLineConcat("# --- ", v.name);
    OneLineConcat("# --- " + v.name, " (subnet ");
    OneLineConcat("# --- " + v.name + " (subnet ", v.subnet);
    OneLineConcat("# --- " + v.name + " (subnet " + v.subnet, "/");
    OneLineConcat("# --- " + v.name + " (subnet " + v.subnet + "/", digits);
  }

  lemma RangeIsLine(v: Vlan, netmask: string)
    requires OneLine(v.id) && OneLine(v.rangeStart) && OneLine(v.rangeEnd) && OneLine(v.leaseTime)
    requires OneLine(v.gateway) && OneLine(netmask)
    ensures OneLine(RangeLine(v, netmask)) && OneLine(OptionLine(v))
  {
    OneLineConcat("dhcp-range=set:", v.id);
    OneLineConcat("dhcp-option=tag:", v.id);
  }

  lemma ServersAreLines(v: Vlan)
    requires v.prefix >= 0 && OneLine(v.gateway) && OneLine(v.cfDomain) && OneLine(v.subnet)
    ensures AllOneLine(ServerLines(v))
  {
    DigitsField(v.prefix);
    OneLineConcat("server=/", v.cfDomain);
    OneLineConcat("rev-server=", v.subnet);
  }

  lemma AllOneLineConcat(a: seq<string>, b: seq<string>)
    requires AllOneLine(a) && AllOneLine(b)
    ensures AllOneLine(a + b)
  {
  }

  lemma SortedHostsAreLines(hosts: seq<Host>)
    requires forall i :: 0 <= i < |hosts| ==> CleanHost(hosts[i]) && ValidIp(hosts[i].ip)
    ensures AllOneLine(Map(Sort(hosts, HigherFirst), HostLine))
  {
    hide OneLine, HostLine;
    var sorted := Sort(hosts, HigherFirst);
    SortMembers(hosts, HigherFirst);
    forall i | 0 <= i < |sorted| ensures OneLine(HostLine(sorted[i])) {
      assert sorted[i] in hosts;
      HostLineIsLine(sorted[i]);
    }
  }

  lemma ScopeLinesAreLines(v: Vlan)
    requires CanRender(v) && Clean(v)
    ensures AllOneLine(ScopeLines(v))
  {
    AddressField(v.subnet);
    NetmaskField(v);
    EmptyIsLine();
    SortedHostsAreLines(v.hosts);
    var netmask := AddressText(NetworkOf(v).value.Netmask());
    BlockIsLine(v);
    RangeIsLine(v, netmask);
    ServersAreLines(v);
    hide *;
    LinesTogether(v, netmask);
  }

  lemma LinesTogether(v: Vlan, netmask: string)
    requires CanRender(v) && netmask == AddressText(NetworkOf(v).value.Netmask())
    requires OneLine(BlockLine(v)) && OneLine(RangeLine(v, netmask)) && OneLine(OptionLine(v)) && OneLine("")
    requires AllOneLine(ServerLines(v)) && AllOneLine(Map(Sort(v.hosts, HigherFirst), HostLine))
    ensures AllOneLine(ScopeLines(v))
  {
    var block, range, option, servers, hosts := BlockLine(v), RangeLine(v, netmask), OptionLine(v), ServerLines(v), Map(Sort(v.hosts, HigherFirst), HostLine);
    assert ScopeLines(v) == [block, range, option] + servers + hosts + [""];
    hide *;
    FourOneLine(block, range, option, servers, hosts);
  }

  lemma FourOneLine(block: string, range: string, option: string, servers: seq<string>, hosts: seq<string>)
    requires OneLine(block) && OneLine(range) && OneLine(option) && OneLine("") && AllOneLine(servers) && AllOneLine(hosts)
    ensures AllOneLine([block, range, option] + servers + hosts + [""])
  {
    hide OneLine;
    AllOneLineConcat([block, range, option], servers);
    AllOneLineConcat([block, range, option] + servers, hosts);
    AllOneLineConcat([block, range, option] + servers + hosts, [""]);
  }

  lemma DigitsField(n: nat)
    ensures OneLine(NatText(n))
  {
  }

  lemma EmptyIsLine()
    ensures OneLine("")
  {
  }

  lemma {:induction false} AllScopeLinesAreLines(extra: seq<Vlan>)
    requires forall v :: v in extra ==> CanRender(v) && Clean(v)
    ensures AllOneLine(AllScopeLines(extra))
    ensures extra != [] ==> AllScopeLines(extra) != [] && AllScopeLines(extra)[|AllScopeLines(extra)| - 1] == ""
    decreases |extra|
  {
    if extra != [] {
      ScopeLinesAreLines(extra[0]);
      assert ScopeLines(extra[0])[|ScopeLines(extra[0])| - 1] == "";
      hide OneLine, ScopeLines, CanRender, Clean;
      AllScopeLinesAreLines(extra[1..]);
    }
  }

  /** Reading a rendered snippet gives back the extra scopes in order, with every field that the
      snippet carries; macs come back in upper case and hosts by descending address. */
  lemma ParseUndoesRender(vlans: seq<Vlan>)
    requires forall v :: v in Extra(vlans) ==> CanRender(v) && Clean(v)
    ensures RenderConf(vlans).Some?
    ensures ParsedConf(RenderConf(vlans).value) == Map(Extra(vlans), Restored)
  {
    hide ParseLine, ParseLines, ScopeLines, Restored, CanRender, Clean, OneLine, SplitLines, JoinLines;
    var extra := Extra(vlans);
    var scopes := AllScopeLines(extra);
    var lines := [MANAGED_TAG, ""] + scopes;
    AllScopeLinesAreLines(extra);
    EmptyIsLine();
    var s := Progress([], None);
    TagParsed(s);
    SplitUndoesJoin(lines);
    var cut := lines[..|lines| - 1];
    assert lines == cut + [""];
    ParseLinesAppend(s, cut, [""]);
    EmptyLineParsed(ParseLines(s, cut));
    ParseCons(ParseLines(s, cut), "", []);
    ParseLinesAppend(s, [MANAGED_TAG, ""], scopes);
    ScopesParsed(s, extra);
    assert [] + Map(extra, Restored) == Map(extra, Restored);
  }

  lemma OtherComment(line: string)
    requires |line| > 2 && line[0] == '#' && line[1] == ' ' && !IsSpace(line[2]) && line[2] != '-'
    ensures MatchBlock(line).None?
  {
    assert line[1..] == " " + line[2..];
    LStripBlank(line[2..]);
    assert line[2..][0] == line[2];
  }

  lemma TagIsLine()
    ensures OneLine(MANAGED_TAG) && Stripped(MANAGED_TAG)
    ensures |MANAGED_TAG| > 2 && MANAGED_TAG[..3] == "# m"
  {
    OneLineConcat("# managed by ", "Pihole Fleet Manager ");
    OneLineConcat("# managed by " + "Pihole Fleet Manager ", "\U{2014} do not edit ");
    OneLineConcat("# managed by " + "Pihole Fleet Manager " + "\U{2014} do not edit ", "by hand");
  }

  lemma TagParsed(s: Progress)
    requires s.current.None?
    ensures ParseLines(s, [MANAGED_TAG, ""]) == s
    ensures OneLine(MANAGED_TAG)
  {
    hide MatchBlock, ParseLines, OneLine;
    var tag := MANAGED_TAG;
    TagIsLine();
    StripStripped(tag);
    assert tag[0] == tag[..3][0] && tag[1] == tag[..3][1] && tag[2] == tag[..3][2];
    OtherComment(tag);
    ParseCons(s, tag, [""]);
    EmptyLineParsed(s);
    ParseCons(s, "", []);
    assert [tag, ""] == [tag] + [""];
  }

  // --- Rendering again ---

  /** Macs as the store writes them. */
  ghost predicate UpperMacs(v: Vlan)
  {
    forall i :: 0 <= i < |v.hosts| ==> Upper(v.hosts[i].mac) == v.hosts[i].mac
  }

  lemma SortedOnce(hosts: seq<Host>)
    ensures Sort(Map(Sort(hosts, HigherFirst), UpperHost), HigherFirst) == Map(Sort(hosts, HigherFirst), UpperHost)
  {
    SortSorts(hosts, HigherFirst);
    SortIdle(Map(Sort(hosts, HigherFirst), UpperHost), HigherFirst);
  }

  lemma UpperLine(h: Host)
    requires CleanHost(h)
    ensures HostLine(UpperHost(h)) == HostLine(h) <==> Upper(h.mac) == h.mac
  {
    var tail := "," + h.ip + (if h.hostname != "" then "," + h.hostname else "");
    var a, b := HostLine(UpperHost(h)), HostLine(h);
    assert a == "dhcp-host=" + Upper(h.mac) + tail && b == "dhcp-host=" + h.mac + tail;
    if a == b {
      assert a[10..10 + |h.mac|] == Upper(h.mac) && b[10..10 + |h.mac|] == h.mac;
    }
  }

  lemma RestoredRenders(v: Vlan)
    requires CanRender(v)
    ensures CanRender(Restored(v)) && NetworkOf(Restored(v)) == NetworkOf(v)
  {
    var r, sorted := Restored(v), Sort(v.hosts, HigherFirst);
    assert NetworkOf(r) == NetworkOf(v);
    hide ValidIp, NetworkOf, Sort;
    SortMembers(v.hosts, HigherFirst);
    forall i | 0 <= i < |r.hosts| ensures ValidIp(r.hosts[i].ip) {
      assert sorted[i] in v.hosts;
    }
  }

  /** The lines before a scope's hosts. */
  function HeadLines(v: Vlan): seq<string>
    requires CanRender(v)
  {
    [BlockLine(v), RangeLine(v, AddressText(NetworkOf(v).value.Netmask())), OptionLine(v)] + ServerLines(v)
  }

  lemma ScopeLinesAre(v: Vlan)
    requires CanRender(v)
    ensures ScopeLines(v) == HeadLines(v) + Map(Sort(v.hosts, HigherFirst), HostLine) + [""]
  {
    hide CanRender, NetworkOf, AddressText, BlockLine, RangeLine, OptionLine, ServerLines, Map, Sort;
  }

  lemma RestoredHead(v: Vlan)
    requires CanRender(v) && CanRender(Restored(v)) && NetworkOf(Restored(v)) == NetworkOf(v)
    ensures HeadLines(Restored(v)) == HeadLines(v)
  {
    hide NetworkOf, AddressText, Sort, Map;
  }

  /** The lines of a restored scope differ from the first ones in the case of its macs only. */
  lemma RestoredLines(v: Vlan)
    requires CanRender(v) && Clean(v)
    ensures CanRender(Restored(v)) && |ScopeLines(Restored(v))| == |ScopeLines(v)|
    ensures ScopeLines(Restored(v)) == ScopeLines(v) <==> UpperMacs(v)
  {
    RestoredRenders(v);
    RestoredHead(v);
    ScopeLinesAre(v);
    ScopeLinesAre(Restored(v));
    SortedOnce(v.hosts);
    HostLinesUpper(v.hosts);
    var sorted := Sort(v.hosts, HigherFirst);
    assert Restored(v).hosts == Map(sorted, UpperHost);
    hide CanRender, NetworkOf, HeadLines, ScopeLines, HostLine, Sort, UpperHost, Restored;
    SameMiddle(HeadLines(v), Map(Restored(v).hosts, HostLine), Map(sorted, HostLine), [""]);
  }

  lemma SameMiddle(a: seq<string>, b: seq<string>, c: seq<string>, d: seq<string>)
    requires |b| == |c|
    ensures a + b + d == a + c + d <==> b == c
  {
    if a + b + d == a + c + d {
      assert b == (a + b + d)[|a|..|a| + |b|] && c == (a + c + d)[|a|..|a| + |c|];
    }
  }

  lemma HostLinesUpper(hosts: seq<Host>)
    requires forall i :: 0 <= i < |hosts| ==> CleanHost(hosts[i])
    ensures
      var sorted := Sort(hosts, HigherFirst);
      Map(Map(sorted, UpperHost), HostLine) == Map(sorted, HostLine)
      <==> forall i :: 0 <= i < |hosts| ==> Upper(hosts[i].mac) == hosts[i].mac
  {
    hide HostLine, Upper, Sort;
    var sorted := Sort(hosts, HigherFirst);
    SortMembers(hosts, HigherFirst);
    var a, b := Map(Map(sorted, UpperHost), HostLine), Map(sorted, HostLine);
    forall i | 0 <= i < |sorted| ensures a[i] == b[i] <==> Upper(sorted[i].mac) == sorted[i].mac {
      assert sorted[i] in hosts;
      UpperLine(sorted[i]);
    }
    if forall h :: h in hosts ==> Upper(h.mac) == h.mac {
      forall i | 0 <= i < |sorted| ensures a[i] == b[i] {
        assert sorted[i] in hosts;
      }
      assert a == b;
    } else {
      var h :| h in hosts && Upper(h.mac) != h.mac;
      var i :| 0 <= i < |sorted| && sorted[i] == h;
      assert a[i] != b[i];
    }
  }

  lemma {:induction false} AllRestoredLines(extra: seq<Vlan>)
    requires forall v :: v in extra ==> CanRender(v) && Clean(v)
    ensures forall v :: v in Map(extra, Restored) ==> CanRender(v)
    ensures AllScopeLines(Map(extra, Restored)) == AllScopeLines(extra) <==> forall v :: v in extra ==> UpperMacs(v)
    ensures |AllScopeLines(Map(extra, Restored))| == |AllScopeLines(extra)|
    decreases |extra|
  {
    hide ScopeLines, UpperMacs, Restored, Clean, CanRender;
    if extra != [] {
      var v, rest := extra[0], extra[1..];
      RestoredLines(v);
      AllRestoredLines(rest);
      assert Map(extra, Restored) == [Restored(v)] + Map(rest, Restored);
      assert Map(extra, Restored)[1..] == Map(rest, Restored);
      var a, b := ScopeLines(Restored(v)), AllScopeLines(Map(rest, Restored));
      var c, d := ScopeLines(v), AllScopeLines(rest);
      assert a + b == c + d <==> a == c && b == d by {
        assert (a + b)[..|a|] == a && (c + d)[..|c|] == c && (a + b)[|a|..] == b && (c + d)[|c|..] == d;
      }
    }
  }

  lemma RestoredIsClean(v: Vlan)
    requires Clean(v)
    ensures Clean(Restored(v))
  {
    var sorted := Sort(v.hosts, HigherFirst);
    SortMembers(v.hosts, HigherFirst);
    var hosts := Map(sorted, UpperHost);
    hide Map, Sort, CleanHost, UpperHost;
    forall i | 0 <= i < |hosts| ensures CleanHost(hosts[i]) {
      assert sorted[i] in v.hosts;
      UpperHostIsClean(sorted[i]);
    }
  }

  lemma UpperHostIsClean(h: Host)
    requires CleanHost(h)
    ensures CleanHost(UpperHost(h))
  {
    forall i | 0 <= i < |h.mac|
      ensures var c := Upper(h.mac)[i]; IsDigit(c) || 'A' <= c <= 'F' || 'a' <= c <= 'f' || c == ':'
    {
      var c := h.mac[i];
      assert Upper(h.mac)[i] == UpperChar(c);
      assert 'a' <= c <= 'f' ==> 'A' <= UpperChar(c) <= 'F';
    }
  }

  lemma {:induction false} AllLinesAgain(extra: seq<Vlan>)
    requires forall v :: v in extra ==> CanRender(v) && Clean(v)
    ensures forall v :: v in Map(extra, Restored) ==> CanRender(v) && Clean(v)
  {
    hide Restored, Clean, CanRender;
    forall v | v in extra ensures CanRender(Restored(v)) && Clean(Restored(v)) {
      RestoredLines(v);
      RestoredIsClean(v);
    }
  }

  /** Rendering what was read back gives the identical text exactly when every mac of an extra scope
      was in upper case already. */
  lemma RenderAgain(vlans: seq<Vlan>)
    requires forall v :: v in Extra(vlans) ==> CanRender(v) && Clean(v)
    ensures
      var text := RenderConf(vlans).value;
      RenderConf(vlans).Some? && (RenderConf(ParsedConf(text)) == Some(text) <==> forall v :: v in Extra(vlans) ==> UpperMacs(v))
  {
    ParseUndoesRender(vlans);
    hide ScopeLines, UpperMacs, Restored, Clean, CanRender, ParsedConf, SplitLines, JoinLines;
    var extra := Extra(vlans);
    var again := Map(extra, Restored);
    RestoredIsExtra(extra);
    AllRestoredLines(extra);
    AllLinesAgain(extra);
    hide Extra, AllScopeLines;
    SameText(extra, again);
  }

  /** Two texts are the same exactly when their scopes' lines are. */
  lemma SameText(extra: seq<Vlan>, again: seq<Vlan>)
    requires forall v :: v in extra + again ==> CanRender(v) && Clean(v)
    ensures JoinLines([MANAGED_TAG, ""] + AllScopeLines(extra)) == JoinLines([MANAGED_TAG, ""] + AllScopeLines(again))
       <==> AllScopeLines(extra) == AllScopeLines(again)
  {
    hide ScopeLines, CanRender, Clean, SplitLines, JoinLines, AllScopeLines;
    var a, b := [MANAGED_TAG, ""] + AllScopeLines(extra), [MANAGED_TAG, ""] + AllScopeLines(again);
    TextIsLines(extra);
    TextIsLines(again);
    assert a[2..] == AllScopeLines(extra) && b[2..] == AllScopeLines(again);
  }

  lemma RestoredIsExtra(extra: seq<Vlan>)
    ensures Extra(Map(extra, Restored)) == Map(extra, Restored)
  {
    FilterAll(Map(extra, Restored), (v: Vlan) => !v.isPrimary);
  }

  /** The text determines its lines. */
  lemma TextIsLines(extra: seq<Vlan>)
    requires forall v :: v in extra ==> CanRender(v) && Clean(v)
    ensures
      var lines := [MANAGED_TAG, ""] + AllScopeLines(extra);
      SplitLines(JoinLines(lines)) + [""] == lines
  {
    hide OneLine, ScopeLines, CanRender, Clean, SplitLines, JoinLines;
    var lines := [MANAGED_TAG, ""] + AllScopeLines(extra);
    AllScopeLinesAreLines(extra);
    EmptyIsLine();
    TagIsLine();
    SplitUndoesJoin(lines);
  }

  // --- The text itself ---

  ghost predicate Descending(hosts: seq<Host>)
  {
    && (forall i :: 0 <= i < |hosts| ==> ValidIp(hosts[i].ip))
    && forall i, j :: 0 <= i < j < |hosts| ==> ParseAddress(hosts[i].ip).value >= ParseAddress(hosts[j].ip).value
  }

  /** The lines from the k-th on are those of the scope: its range with this netmask, its gateway, its
      domain and its subnet if it has a domain, and these hosts. */
  ghost predicate ScopeAt(lines: seq<string>, k: nat, v: Vlan, mask: string, hosts: seq<Host>)
    requires v.prefix >= 0
  {
    var forwards := if v.cfDomain == "" then 0 else 2;
    && k + 3 + forwards + |hosts| < |lines|
    && lines[k] == "# --- " + v.name + " (subnet " + v.subnet + "/" + NatText(v.prefix) + ") ---"
    && lines[k + 1] == "dhcp-range=set:" + v.id + "," + v.rangeStart + "," + v.rangeEnd + "," + mask + "," + v.leaseTime
    && lines[k + 2] == "dhcp-option=tag:" + v.id + ",3," + v.gateway
    && (v.cfDomain != "" ==>
          && lines[k + 3] == "server=/" + v.cfDomain + "/" + v.gateway
          && lines[k + 4] == "rev-server=" + v.subnet + "/" + NatText(v.prefix) + "," + v.gateway)
    && (forall i :: 0 <= i < |hosts| ==>
          lines[k + 3 + forwards + i]
          == (if hosts[i].hostname == "" then "dhcp-host=" + hosts[i].mac + "," + hosts[i].ip
              else "dhcp-host=" + hosts[i].mac + "," + hosts[i].ip + "," + hosts[i].hostname))
    && lines[k + 3 + forwards + |hosts|] == ""
  }

  /** The scope's netmask covers all but its addresses, and its hosts are all there, the higher first. */
  ghost predicate ShowsScope(lines: seq<string>, v: Vlan)
    requires NetworkOf(v).Some?
  {
    var n := NetworkOf(v).value;
    exists k: nat, mask, hosts ::
      && ScopeAt(lines, k, v, mask, hosts) && ParseAddress(mask) == Some(SPACE - 1 - (n.Last() - n.Base()))
      && multiset(hosts) == multiset(v.hosts) && Descending(hosts)
  }

  lemma HigherFirstOrders()
    ensures TotalOrder(HigherFirst)
  {
    hide ParseAddress;
  }

  lemma SortedDescends(hosts: seq<Host>)
    requires forall i :: 0 <= i < |hosts| ==> ValidIp(hosts[i].ip)
    ensures Descending(Sort(hosts, HigherFirst))
  {
    hide ParseAddress, Sort;
    var sorted := Sort(hosts, HigherFirst);
    HigherFirstOrders();
    SortSorts(hosts, HigherFirst);
    SortMembers(hosts, HigherFirst);
    forall i | 0 <= i < |sorted| ensures ValidIp(sorted[i].ip) {
      assert sorted[i] in hosts;
    }
    forall i, j | 0 <= i < j < |sorted| ensures ParseAddress(sorted[i].ip).value >= ParseAddress(sorted[j].ip).value {
      assert HigherFirst(sorted[i], sorted[j]);
    }
  }

  lemma MaskOf(n: Net)
    requires n.Valid()
    ensures ParseAddress(AddressText(n.Netmask())) == Some(SPACE - 1 - (n.Last() - n.Base()))
  {
    BlockSize(n);
    hide ParseAddress, AddressText;
    ParseAddressText(n.Netmask());
  }

  lemma ScopeLinesShow(v: Vlan)
    requires CanRender(v)
    ensures ScopeAt(ScopeLines(v), 0, v, AddressText(NetworkOf(v).value.Netmask()), Sort(v.hosts, HigherFirst))
  {
    hide Sort, NetworkOf, AddressText;
  }

  lemma ScopeShifts(a: seq<string>, block: seq<string>, b: seq<string>, v: Vlan, mask: string, hosts: seq<Host>)
    requires v.prefix >= 0 && ScopeAt(block, 0, v, mask, hosts)
    ensures ScopeAt(a + block + b, |a|, v, mask, hosts)
  {
    var lines := a + block + b;
    assert forall i :: 0 <= i < |block| ==> lines[|a| + i] == block[i];
    hide NatText;
  }

  lemma {:induction false} ScopeAmong(extra: seq<Vlan>, v: Vlan)
    requires v in extra && forall u :: u in extra ==> CanRender(u)
    ensures exists a, b :: AllScopeLines(extra) == a + ScopeLines(v) + b
    decreases |extra|
  {
    hide ScopeLines, CanRender;
    if extra[0] == v {
      assert AllScopeLines(extra) == [] + ScopeLines(v) + AllScopeLines(extra[1..]);
    } else {
      ScopeAmong(extra[1..], v);
      var a, b :| AllScopeLines(extra[1..]) == a + ScopeLines(v) + b;
      assert AllScopeLines(extra) == (ScopeLines(extra[0]) + a) + ScopeLines(v) + b;
    }
  }

  lemma ShownBy(lines: seq<string>, k: nat, v: Vlan, mask: string, hosts: seq<Host>)
    requires NetworkOf(v).Some? && ScopeAt(lines, k, v, mask, hosts)
    requires var n := NetworkOf(v).value; ParseAddress(mask) == Some(SPACE - 1 - (n.Last() - n.Base()))
    requires multiset(hosts) == multiset(v.hosts) && Descending(hosts)
    ensures ShowsScope(lines, v)
  {
    hide ScopeAt, ParseAddress, Descending, NetworkOf;
  }

  lemma Renderable(v: Vlan)
    requires CanRender(v)
    ensures v.prefix >= 0 && NetworkOf(v).Some? && NetworkOf(v).value.Valid() && forall i :: 0 <= i < |v.hosts| ==> ValidIp(v.hosts[i].ip)
  {
  }

  lemma ScopeShown(v: Vlan, a: seq<string>, b: seq<string>)
    requires CanRender(v)
    ensures NetworkOf(v).Some? && ShowsScope(a + ScopeLines(v) + b, v)
  {
    hide *;
    Renderable(v);
    var mask, hosts := AddressText(NetworkOf(v).value.Netmask()), Sort(v.hosts, HigherFirst);
    ScopeLinesShow(v);
    MaskOf(NetworkOf(v).value);
    SortedDescends(v.hosts);
    ScopeShifts(a, ScopeLines(v), b, v, mask, hosts);
    ShownBy(a + ScopeLines(v) + b, |a|, v, mask, hosts);
  }

  lemma RenderIs(vlans: seq<Vlan>)
    requires forall u :: u in Extra(vlans) ==> CanRender(u)
    ensures RenderConf(vlans) == Some(JoinLines([MANAGED_TAG, ""] + AllScopeLines(Extra(vlans))))
  {
    hide CanRender, JoinLines, AllScopeLines, Extra;
  }

  lemma ExtraHas(vlans: seq<Vlan>, v: Vlan)
    ensures v in Extra(vlans) <==> v in vlans && !v.isPrimary
  {
  }

  /** The rendered text shows every extra scope in full. */
  lemma TextShowsScopes(vlans: seq<Vlan>, v: Vlan)
    requires (forall u :: u in Extra(vlans) ==> CanRender(u) && Clean(u)) && v in vlans && !v.isPrimary
    ensures RenderConf(vlans).Some? && NetworkOf(v).Some? && ShowsScope(SplitLines(RenderConf(vlans).value) + [""], v)
  {
    hide *;
    var extra := Extra(vlans);
    ExtraHas(vlans, v);
    RenderIs(vlans);
    TextIsLines(extra);
    ScopeAmong(extra, v);
    var a, b :| AllScopeLines(extra) == a + ScopeLines(v) + b;
    var head := [MANAGED_TAG, ""];
    ScopeShown(v, head + a, b);
    assert head + (a + ScopeLines(v) + b) == (head + a) + ScopeLines(v) + b;
  }

  lemma TextShowsAll(vlans: seq<Vlan>)
    ensures RenderConf(vlans).Some? && (forall v :: v in vlans && !v.isPrimary ==> Clean(v)) ==>
      forall v :: v in vlans && !v.isPrimary ==> NetworkOf(v).Some? && ShowsScope(SplitLines(RenderConf(vlans).value) + [""], v)
  {
    hide JoinLines, AllScopeLines, ShowsScope, SplitLines, Clean, NetworkOf, ValidIp, CanRender, Extra;
    if RenderConf(vlans).Some? && (forall v :: v in vlans && !v.isPrimary ==> Clean(v)) {
      forall v | v in vlans && !v.isPrimary ensures NetworkOf(v).Some? && ShowsScope(SplitLines(RenderConf(vlans).value) + [""], v) {
        forall u | u in Extra(vlans) ensures CanRender(u) && Clean(u) {
          ExtraHas(vlans, u);
        }
        TextShowsScopes(vlans, v);
      }
    }
  }

  /** Rendering raises exactly when an extra VLAN's subnet or one of its host addresses is malformed. */
  lemma RendersIff(vlans: seq<Vlan>)
    ensures RenderConf(vlans).Some? <==>
      forall v :: v in vlans && !v.isPrimary ==> NetworkOf(v).Some? && forall h :: h in v.hosts ==> ValidIp(h.ip)
  {
    hide JoinLines, AllScopeLines, Extra, NetworkOf, ValidIp;
    forall v ensures v in Extra(vlans) <==> v in vlans && !v.isPrimary {
      ExtraHas(vlans, v);
    }
  }
}
