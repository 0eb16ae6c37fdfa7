/** Static DHCP reservations: the `dhcp.hosts` lines and the mac-keyed dictionary behind them. */
module Reservations {
  import opened Common
  import opened Text
  import opened Ipv4
  import opened Sorting

  datatype Reservation = Reservation(ip: string, hostname: string)

  type Table = map<string, Reservation>

  /** One `mac,ip[,hostname]` line; None for a line without an address. */
  function ParseLine(line: string): (r: Option<(string, Reservation)>)
    ensures r.Some? ==> WellFormed(r.value.0, r.value.1)
  {
    var parts := Split(line, ',');
    assert ',' !in parts[0];
    if |parts| >= 2 && Strip(parts[1]) != "" then
      Some((Upper(Strip(parts[0])), Reservation(Strip(parts[1]), if |parts| > 2 then Strip(parts[2]) else "")))
    else None
  }

  /** `_parse_hosts`: a later line for the same mac wins. */
  function ParseHosts(lines: seq<string>): (t: Table)
    ensures forall mac :: mac in t ==> WellFormed(mac, t[mac])
  {
    if lines == [] then map[]
    else
      var t := ParseHosts(lines[..|lines| - 1]);
      match ParseLine(lines[|lines| - 1])
      case None => t
      case Some((mac, r)) => t[mac := r]
  }

  // --- What a line says ---

  /** The first three fields between commas; the third may be missing, and more may follow. */
  ghost predicate Fields(line: string, mac: string, ip: string, hostname: string)
  {
    && ',' !in mac && ',' !in ip && ',' !in hostname
    && ((hostname == "" && line == mac + "," + ip)
        || line == mac + "," + ip + "," + hostname
        || mac + "," + ip + "," + hostname + "," <= line)
  }

  /** The line reserves an address for this mac, in whatever case it is written, with blanks around the
      fields or not. */
  ghost predicate Gives(line: string, mac: string, r: Reservation)
  {
    exists m, ip, hostname :: Fields(line, m, ip, hostname) && Strip(ip) != "" && mac == Upper(Strip(m)) && r == Reservation(Strip(ip), Strip(hostname))
  }

  /** The last line that gives the mac anything. */
  ghost predicate LastGiven(lines: seq<string>, mac: string, r: Reservation)
  {
    exists i :: 0 <= i < |lines| && Gives(lines[i], mac, r) && forall j, x :: i < j < |lines| ==> !Gives(lines[j], mac, x)
  }

  lemma FieldsSplit(line: string, mac: string, ip: string, hostname: string)
    requires Fields(line, mac, ip, hostname)
    ensures
      var parts := Split(line, ',');
      |parts| >= 2 && parts[0] == mac && parts[1] == ip && (if |parts| > 2 then parts[2] == hostname else hostname == "")
  {
    if line == mac + "," + ip {
      assert line == mac + [','] + ip;
      SplitFirst(mac, ',', ip);
      SplitWhole(ip, ',');
    } else {
      var known := mac + "," + ip + "," + hostname;
      var rest := line[|known|..];
      assert line == mac + [','] + (ip + [','] + (hostname + rest));
      SplitFirst(mac, ',', ip + [','] + (hostname + rest));
      SplitFirst(ip, ',', hostname + rest);
      if rest == "" {
        assert hostname + rest == hostname;
        SplitWhole(hostname, ',');
      } else {
        assert rest[0] == line[|known|] == (known + ",")[|known|] == ',';
        assert hostname + rest == hostname + [','] + rest[1..];
        SplitFirst(hostname, ',', rest[1..]);
      }
    }
  }

  lemma TwoFields(a: string, b: string)
    requires ',' !in a && ',' !in b
    ensures Fields(a + [','] + b, a, b, "")
  {
  }

  lemma ThreeFields(a: string, b: string, c: string)
    requires ',' !in a && ',' !in b && ',' !in c
    ensures Fields(a + [','] + (b + [','] + c), a, b, c)
  {
    assert a + [','] + (b + [','] + c) == a + "," + b + "," + c;
  }

  lemma MoreFields(a: string, b: string, c: string, rest: string)
    requires ',' !in a && ',' !in b && ',' !in c
    ensures Fields(a + [','] + (b + [','] + (c + [','] + rest)), a, b, c)
  {
    assert a + [','] + (b + [','] + (c + [','] + rest)) == (a + "," + b + "," + c + ",") + rest;
  }

  lemma FieldsRejoined(parts: seq<string>)
    requires |parts| >= 2 && forall i :: 0 <= i < |parts| ==> ',' !in parts[i]
    ensures Fields(Rejoin(parts, ','), parts[0], parts[1], if |parts| > 2 then parts[2] else "")
  {
    hide Fields;
    RejoinFirst(parts, ',');
    if |parts| == 2 {
      TwoFields(parts[0], parts[1]);
      assert parts[1..] == [parts[1]];
    } else {
      RejoinFirst(parts[1..], ',');
      if |parts| == 3 {
        ThreeFields(parts[0], parts[1], parts[2]);
        assert parts[1..][1..] == [parts[2]];
      } else {
        RejoinFirst(parts[2..], ',');
        MoreFields(parts[0], parts[1], parts[2], Rejoin(parts[3..], ','));
        assert parts[1..][1..] == parts[2..] && parts[2..][1..] == parts[3..];
      }
    }
  }

  /** Every line with a comma has such fields. */
  lemma SplitFields(line: string)
    requires |Split(line, ',')| >= 2
    ensures
      var parts := Split(line, ',');
      Fields(line, parts[0], parts[1], if |parts| > 2 then parts[2] else "")
  {
    SplitRejoins(line, ',');
    var parts := Split(line, ',');
    assert forall i :: 0 <= i < |parts| ==> parts[i] in parts && ',' !in parts[i];
    hide Split, Fields;
    FieldsRejoined(parts);
  }

  lemma RejoinFirst(parts: seq<string>, sep: char)
    requires |parts| >= 2
    ensures Rejoin(parts, sep) == parts[0] + [sep] + Rejoin(parts[1..], sep)
    ensures Rejoin([parts[1]], sep) == parts[1] && Rejoin([parts[|parts| - 1]], sep) == parts[|parts| - 1]
  {
  }

  lemma GivesIff(line: string, mac: string, r: Reservation)
    ensures Gives(line, mac, r) <==> ParseLine(line) == Some((mac, r))
  {
    hide Strip, Upper, Fields;
    if m, ip, hostname :| Fields(line, m, ip, hostname) && Strip(ip) != "" && mac == Upper(Strip(m)) && r == Reservation(Strip(ip), Strip(hostname)) {
      FieldsSplit(line, m, ip, hostname);
      NothingStrips();
    }
    if ParseLine(line) == Some((mac, r)) {
      SplitFields(line);
      NothingStrips();
    }
  }

  lemma NothingStrips()
    ensures Strip("") == ""
  {
  }

  /** A line as it may be written by hand: a mac in any case, and blanks around the fields. */
  lemma PaddedGives(line: string, m: string, a: string, h: string, mac: string, ip: string, hostname: string)
    requires Fields(line, m, a, h) && Padded(m, mac) && Padded(a, ip) && Padded(h, hostname)
    requires Stripped(mac) && Stripped(ip) && ip != "" && Stripped(hostname)
    ensures Gives(line, Upper(mac), Reservation(ip, hostname))
  {
    StripPadded(m, mac);
    StripPadded(a, ip);
    StripPadded(h, hostname);
    hide Strip, Upper, Fields;
  }

  /** The table has exactly the macs that some line gives, each as its last line says. */
  lemma {:induction false} TableIff(lines: seq<string>, mac: string, r: Reservation)
    ensures Get(ParseHosts(lines), mac) == Some(r) <==> LastGiven(lines, mac, r)
  {
    if lines != [] {
      var init, last := lines[..|lines| - 1], lines[|lines| - 1];
      TableIff(init, mac, r);
      forall x ensures Gives(last, mac, x) <==> ParseLine(last) == Some((mac, x)) {
        GivesIff(last, mac, x);
      }
      hide Gives, ParseLine;
      LastGivenStep(lines, mac, r);
    }
  }

  lemma LastGivenStep(lines: seq<string>, mac: string, r: Reservation)
    requires lines != []
    ensures
      var init, last := lines[..|lines| - 1], lines[|lines| - 1];
      LastGiven(lines, mac, r) <==> Gives(last, mac, r) || ((forall x :: !Gives(last, mac, x)) && LastGiven(init, mac, r))
  {
    hide Gives;
    var init, last := lines[..|lines| - 1], lines[|lines| - 1];
    if i :| 0 <= i < |lines| && Gives(lines[i], mac, r) && (forall j, x :: i < j < |lines| ==> !Gives(lines[j], mac, x)) && i < |init| {
      assert init[i] == lines[i];
    }
    if i :| 0 <= i < |init| && Gives(init[i], mac, r) && (forall j, x :: i < j < |init| ==> !Gives(init[j], mac, x)) && (forall x :: !Gives(last, mac, x)) {
      assert forall j, x :: i < j < |lines| ==> !Gives(lines[j], mac, x);
    }
  }

  method ReadHosts(lines: seq<string>) returns (parsed: Table)
    ensures parsed == ParseHosts(lines)
    ensures forall mac, r :: Get(parsed, mac) == Some(r) <==> LastGiven(lines, mac, r)
  {
    forall mac, r ensures Get(ParseHosts(lines), mac) == Some(r) <==> LastGiven(lines, mac, r) {
      TableIff(lines, mac, r);
    }
    hide LastGiven;
    parsed := map[];
    for i := 0 to |lines|
      invariant parsed == ParseHosts(lines[..i])
    {
      assert lines[..i + 1][..i] == lines[..i];
      var parts := Split(lines[i], ',');
      if |parts| >= 2 && Strip(parts[1]) != "" {
        var mac := Upper(Strip(parts[0]));
        parsed := parsed[mac := Reservation(Strip(parts[1]), if |parts| > 2 then Strip(parts[2]) else "")];
      }
    }
    assert lines[..|lines|] == lines;
  }

  /** What a parsed entry looks like, and what a line can carry. */
  predicate WellFormed(mac: string, r: Reservation)
  {
    && ',' !in mac && Stripped(mac) && Upper?(mac)
    && ',' !in r.ip && Stripped(r.ip) && r.ip != ""
    && ',' !in r.hostname && Stripped(r.hostname)
  }

  function RenderLine(e: (string, Reservation)): string
  {
    e.0 + "," + e.1.ip + (if e.1.hostname != "" then "," + e.1.hostname else "")
  }

  function AddressOf(ip: string): int
  {
    match ParseAddress(ip)
    case Some(a) => a
    case None => -1
  }

  /** Descending by address. */
  predicate HigherFirst(a: (string, Reservation), b: (string, Reservation))
  {
    AddressOf(a.1.ip) >= AddressOf(b.1.ip)
  }

  predicate AllAddressed(items: seq<(string, Reservation)>)
  {
    forall i :: 0 <= i < |items| ==> ValidIp(items[i].1.ip)
  }

  /** `_render_hosts` over the dictionary's items in their order; None where an address is
      malformed and the sort key raises. */
  function RenderHosts(items: seq<(string, Reservation)>): Option<seq<string>>
  {
    if AllAddressed(items) then Some(Map(Sort(items, HigherFirst), RenderLine)) else None
  }

  lemma ParseLineRendered(e: (string, Reservation))
    requires WellFormed(e.0, e.1)
    ensures ParseLine(RenderLine(e)) == Some(e)
  {
    var (mac, r) := e;
    StripStripped(mac);
    StripStripped(r.ip);
    StripStripped(r.hostname);
    assert Upper(mac) == mac;
    if r.hostname == "" {
      assert RenderLine(e) == mac + [','] + r.ip;
      SplitFirst(mac, ',', r.ip);
      SplitWhole(r.ip, ',');
    } else {
      assert RenderLine(e) == mac + [','] + (r.ip + [','] + r.hostname);
      SplitFirst(mac, ',', r.ip + [','] + r.hostname);
      SplitFirst(r.ip, ',', r.hostname);
      SplitWhole(r.hostname, ',');
    }
  }

  lemma {:induction false} ParseRenderedItems(items: seq<(string, Reservation)>)
    requires forall i :: 0 <= i < |items| ==> WellFormed(items[i].0, items[i].1)
    ensures ParseHosts(Map(items, RenderLine)) == Dict(items)
  {
    if items != [] {
      var init, last := items[..|items| - 1], items[|items| - 1];
      ParseRenderedItems(init);
      var lines := Map(items, RenderLine);
      assert lines[..|lines| - 1] == Map(init, RenderLine);
      assert lines[|lines| - 1] == RenderLine(last) && WellFormed(last.0, last.1);
      ParseLineRendered(last);
      assert ParseHosts(lines) == ParseHosts(lines[..|lines| - 1])[last.0 := last.1];
    }
  }

  /** Parsing undoes rendering, whatever the order in which the dictionary lists its items. */
  lemma ParseUndoesRender(items: seq<(string, Reservation)>)
    requires DistinctKeys(items) && AllAddressed(items)
    requires forall i :: 0 <= i < |items| ==> WellFormed(items[i].0, items[i].1)
    ensures RenderHosts(items).Some? && ParseHosts(RenderHosts(items).value) == Dict(items)
  {
    hide WellFormed, RenderLine, HigherFirst, Sort, ParseHosts;
    var sorted := Sort(items, HigherFirst);
    SortMembers(items, HigherFirst);
    forall i | 0 <= i < |sorted| ensures WellFormed(sorted[i].0, sorted[i].1) {
      assert sorted[i] in items;
    }
    ParseRenderedItems(sorted);
    DictOfPermutation(items, sorted);
  }

  /** The rendered text: one line for each reservation, the higher address first, with the mac, the address
      and, if it has one, the hostname between commas. */
  lemma RenderedLines(items: seq<(string, Reservation)>)
    requires forall i :: 0 <= i < |items| ==> ValidIp(items[i].1.ip)
    ensures RenderHosts(items).Some?
    ensures exists sorted :: multiset(sorted) == multiset(items) && Descending(sorted) && Lists(RenderHosts(items).value, sorted)
  {
    hide ValidIp, RenderLine, Sort;
    var sorted := Sort(items, HigherFirst);
    SortMembers(items, HigherFirst);
    HigherFirstOrders();
    SortSorts(items, HigherFirst);
    assert forall i :: 0 <= i < |sorted| ==> sorted[i] in items;
    SortedDescends(sorted);
    MappedLists(sorted);
  }

  ghost predicate Descending(items: seq<(string, Reservation)>)
  {
    && (forall i :: 0 <= i < |items| ==> ValidIp(items[i].1.ip))
    && forall i, j :: 0 <= i < j < |items| ==> ParseAddress(items[i].1.ip).value >= ParseAddress(items[j].1.ip).value
  }

  ghost predicate Lists(lines: seq<string>, items: seq<(string, Reservation)>)
  {
    && |lines| == |items|
    && forall i :: 0 <= i < |items| ==>
         var (mac, r) := items[i];
         lines[i] == if r.hostname == "" then mac + "," + r.ip else mac + "," + r.ip + "," + r.hostname
  }

  lemma HigherFirstOrders()
    ensures TotalOrder(HigherFirst)
  {
    hide ParseAddress;
  }

  lemma SortedDescends(sorted: seq<(string, Reservation)>)
    requires Sorted(sorted, HigherFirst) && forall i :: 0 <= i < |sorted| ==> ValidIp(sorted[i].1.ip)
    ensures Descending(sorted)
  {
    hide ParseAddress;
    forall i, j | 0 <= i < j < |sorted| ensures ParseAddress(sorted[i].1.ip).value >= ParseAddress(sorted[j].1.ip).value {
      assert HigherFirst(sorted[i], sorted[j]);
    }
  }

  lemma MappedLists(items: seq<(string, Reservation)>)
    ensures Lists(Map(items, RenderLine), items)
  {
    forall i | 0 <= i < |items| ensures Map(items, RenderLine)[i] == RenderLine(items[i]) {
    }
  }
}
