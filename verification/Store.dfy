/** The VLAN store: its records are edited in place by the CRUD operations. */
module Store {
  import opened Common
  import opened Text
  import opened Ipv4
  import opened Vlans

  datatype Error =
    | NameRequired | BadSubnet | BadAddress(field: string) | OutsideSubnet(field: string) | BadDomain | BadMac
    | Overlapping(name: string) | TagUsed(name: string) | AlreadyExists | VlanNotFound | HostNotFound
    | AddressTaken(owner: string) | PrimaryIsFixed

  // --- What every sequence of operations keeps ---

  ghost predicate UniqueIds(vlans: seq<Vlan>)
  {
    forall i, j :: 0 <= i < j < |vlans| ==> vlans[i].id != vlans[j].id
  }

  /** Every subnet is well formed, and the subnets of the extra VLANs share no address. */
  ghost predicate SubnetsApart(vlans: seq<Vlan>)
  {
    && (forall i :: 0 <= i < |vlans| ==> NetworkOf(vlans[i]).Some?)
    && (forall i, j :: 0 <= i < j < |vlans| && !vlans[i].isPrimary && !vlans[j].isPrimary ==> ShareNoAddress(vlans[i], vlans[j]))
  }

  /** Every host has a valid address of its own inside its VLAN's subnet. */
  ghost predicate HostsFit(v: Vlan)
  {
    && (forall i :: 0 <= i < |v.hosts| ==> Inside(v.hosts[i].ip, v))
    && (forall i, j :: 0 <= i < j < |v.hosts| ==> v.hosts[i].ip != v.hosts[j].ip)
  }

  ghost predicate AllHostsFit(vlans: seq<Vlan>)
  {
    forall i :: 0 <= i < |vlans| ==> HostsFit(vlans[i])
  }

  // --- Input checks ---

  predicate IsHex(c: char)
  {
    IsDigit(c) || 'A' <= c <= 'F' || 'a' <= c <= 'f'
  }

  /** Six pairs of hex digits between colons. */
  predicate ValidMac(mac: string)
  {
    var p := Split(mac, ':');
    |p| == 6 && forall i | 0 <= i < 6 :: |p[i]| == 2 && IsHex(p[i][0]) && IsHex(p[i][1])
  }

  ghost predicate HexDigit(c: char)
  {
    c in "0123456789ABCDEFabcdef"
  }

  ghost predicate MacShape(mac: string)
  {
    |mac| == 17 && forall i :: 0 <= i < 17 ==> if i % 3 == 2 then mac[i] == ':' else HexDigit(mac[i])
  }

  /** Where the characters of joined pairs are. */
  lemma {:induction false} RejoinPairs(parts: seq<string>, sep: char)
    requires parts != [] && forall i :: 0 <= i < |parts| ==> |parts[i]| == 2
    ensures |Rejoin(parts, sep)| == 3 * |parts| - 1
    ensures forall i :: 0 <= i < |parts| ==> Rejoin(parts, sep)[3 * i] == parts[i][0] && Rejoin(parts, sep)[3 * i + 1] == parts[i][1]
    ensures forall i :: 0 <= i < |parts| - 1 ==> Rejoin(parts, sep)[3 * i + 2] == sep
  {
    if |parts| > 1 {
      var rest := parts[1..];
      RejoinPairs(rest, sep);
      var s, t := Rejoin(parts, sep), Rejoin(rest, sep);
      assert s == parts[0] + [sep] + t;
      hide Rejoin;
      forall i | 0 <= i < |parts| ensures s[3 * i] == parts[i][0] && s[3 * i + 1] == parts[i][1] && (i < |parts| - 1 ==> s[3 * i + 2] == sep) {
        if i > 0 {
          assert parts[i] == rest[i - 1];
          assert s[3 * i] == t[3 * (i - 1)] && s[3 * i + 1] == t[3 * (i - 1) + 1];
          assert i < |parts| - 1 ==> s[3 * i + 2] == t[3 * (i - 1) + 2];
        }
      }
    }
  }

  lemma HexChars()
    ensures forall c :: IsHex(c) <==> HexDigit(c)
    ensures !IsHex(':')
  {
  }

  lemma MacIsShaped(mac: string)
    requires ValidMac(mac)
    ensures MacShape(mac)
  {
    var p := Split(mac, ':');
    SplitIff(mac, ':', p);
    RejoinPairs(p, ':');
    HexChars();
    hide Split, Rejoin, IsHex, HexDigit;
    forall i | 0 <= i < 6 ensures HexDigit(mac[3 * i]) && HexDigit(mac[3 * i + 1]) && (i < 5 ==> mac[3 * i + 2] == ':') {
      assert IsHex(p[i][0]) && IsHex(p[i][1]);
    }
    ByThrees(mac);
  }

  lemma ByThrees(mac: string)
    requires |mac| == 17
    requires forall i :: 0 <= i < 6 ==> HexDigit(mac[3 * i]) && HexDigit(mac[3 * i + 1])
    requires forall i :: 0 <= i < 5 ==> mac[3 * i + 2] == ':'
    ensures MacShape(mac)
  {
    forall k | 0 <= k < 17 ensures if k % 3 == 2 then mac[k] == ':' else HexDigit(mac[k]) {
      var i := k / 3;
      assert k == 3 * i || k == 3 * i + 1 || k == 3 * i + 2;
    }
  }

  lemma SameMac(a: string, b: string)
    requires |a| == 17 && |b| == 17
    requires forall i :: 0 <= i < 6 ==> a[3 * i] == b[3 * i] && a[3 * i + 1] == b[3 * i + 1]
    requires forall i :: 0 <= i < 5 ==> a[3 * i + 2] == b[3 * i + 2]
    ensures a == b
  {
    forall k | 0 <= k < 17 ensures a[k] == b[k] {
      var i := k / 3;
      assert k == 3 * i || k == 3 * i + 1 || k == 3 * i + 2;
    }
  }

  lemma InThrees(mac: string)
    requires MacShape(mac)
    ensures |mac| == 17
    ensures forall i :: 0 <= i < 6 ==> HexDigit(mac[3 * i]) && HexDigit(mac[3 * i + 1])
    ensures forall i :: 0 <= i < 5 ==> mac[3 * i + 2] == ':'
  {
    forall i | 0 <= i < 6 ensures HexDigit(mac[3 * i]) && HexDigit(mac[3 * i + 1]) {
      assert (3 * i) % 3 == 0 && (3 * i + 1) % 3 == 1;
      hide HexDigit;
    }
    forall i | 0 <= i < 5 ensures mac[3 * i + 2] == ':' {
      assert (3 * i + 2) % 3 == 2;
    }
  }

  lemma PairsAreMac(p: seq<string>)
    requires |p| == 6 && forall i :: 0 <= i < 6 ==> |p[i]| == 2 && ':' !in p[i] && IsHex(p[i][0]) && IsHex(p[i][1])
    ensures ValidMac(Rejoin(p, ':'))
  {
    hide IsHex, Rejoin, Split;
    SplitIff(Rejoin(p, ':'), ':', p);
  }

  function PairsOf(mac: string): (p: seq<string>)
    requires |mac| == 17
    ensures |p| == 6 && forall i :: 0 <= i < 6 ==> |p[i]| == 2 && p[i][0] == mac[3 * i] && p[i][1] == mac[3 * i + 1]
  {
    [mac[0..2], mac[3..5], mac[6..8], mac[9..11], mac[12..14], mac[15..17]]
  }

  lemma PairsHex(mac: string, i: nat)
    requires MacShape(mac) && i < 6
    ensures var p := PairsOf(mac); ':' !in p[i] && IsHex(p[i][0]) && IsHex(p[i][1])
  {
    var p := PairsOf(mac);
    hide PairsOf;
    InThrees(mac);
    hide MacShape, HexDigit, IsHex;
    HexChars();
    assert p[i] == [mac[3 * i], mac[3 * i + 1]];
  }

  lemma PairsRejoin(mac: string)
    requires MacShape(mac)
    ensures Rejoin(PairsOf(mac), ':') == mac
  {
    InThrees(mac);
    hide *;
    RejoinPairs(PairsOf(mac), ':');
    SameMac(Rejoin(PairsOf(mac), ':'), mac);
  }

  lemma ShapedIsMac(mac: string)
    requires MacShape(mac)
    ensures ValidMac(mac)
  {
    assert |mac| == 17;
    hide *;
    PairsRejoin(mac);
    forall i | 0 <= i < 6 ensures var p := PairsOf(mac); ':' !in p[i] && IsHex(p[i][0]) && IsHex(p[i][1]) {
      PairsHex(mac, i);
    }
    PairsAreMac(PairsOf(mac));
  }

  /** Seventeen characters, every third a colon and all others hex digits. */
  lemma ValidMacIff(mac: string)
    ensures ValidMac(mac) <==> MacShape(mac)
  {
    hide ValidMac, MacShape;
    if ValidMac(mac) {
      MacIsShaped(mac);
    }
    if MacShape(mac) {
      ShapedIsMac(mac);
    }
  }

  predicate IsLabelChar(c: char)
  {
    IsDigit(c) || 'A' <= c <= 'Z' || 'a' <= c <= 'z' || c == '-'
  }

  /** A letter or digit, then labels of at most 62 characters before each dot and a last label of 1
      to 63. The pattern's end also matches before a final line break. */
  predicate ValidDomain(s: string)
  {
    DomainShape(s) || (s != "" && s[|s| - 1] == '\n' && DomainShape(s[..|s| - 1]))
  }

  predicate DomainShape(s: string)
  {
    && s != "" && IsLabelChar(s[0]) && s[0] != '-'
    && var p := Split(s[1..], '.');
       && (forall i | 0 <= i < |p| - 1 :: |p[i]| <= 62)
       && 1 <= |p[|p| - 1]| <= 63
       && forall i | 0 <= i < |p| :: forall c | c in p[i] :: IsLabelChar(c)
  }

  /** The pattern part by part: a letter or digit, then labels between dots. */
  ghost predicate DomainOf(s: string, first: char, labels: seq<string>)
  {
    && labels != [] && s == [first] + Rejoin(labels, '.')
    && ('0' <= first <= '9' || 'A' <= first <= 'Z' || 'a' <= first <= 'z')
    && (forall i :: 0 <= i < |labels| - 1 ==> |labels[i]| <= 62) && 1 <= |labels[|labels| - 1]| <= 63
    && forall i, c :: 0 <= i < |labels| && c in labels[i] ==> '0' <= c <= '9' || 'A' <= c <= 'Z' || 'a' <= c <= 'z' || c == '-'
  }

  ghost predicate IsDomain(s: string)
  {
    exists first, labels :: DomainOf(s, first, labels)
  }

  /** The pattern's end matches at the end of the text or before a line break that ends it. */
  lemma ValidDomainIff(s: string)
    ensures ValidDomain(s) <==> IsDomain(s) || exists t :: s == t + "\n" && IsDomain(t)
  {
    DomainShapeIff(s);
    if s != "" {
      DomainShapeIff(s[..|s| - 1]);
      assert s == s[..|s| - 1] + [s[|s| - 1]];
    }
    hide DomainShape;
    if t :| s == t + "\n" && IsDomain(t) {
      assert s[..|s| - 1] == t;
    }
  }

  lemma DomainShapeIff(s: string)
    ensures DomainShape(s) <==> IsDomain(s)
  {
    if DomainShape(s) {
      var p := Split(s[1..], '.');
      SplitIff(s[1..], '.', p);
      assert s == [s[0]] + s[1..];
      hide Split, Rejoin;
      assert DomainOf(s, s[0], p);
    }
    if first, labels :| DomainOf(s, first, labels) {
      assert s[1..] == Rejoin(labels, '.') && s[0] == first;
      hide Split, Rejoin;
      forall i | 0 <= i < |labels| ensures '.' !in labels[i] {
      }
      SplitIff(s[1..], '.', labels);
    }
  }

  /** `_slugify`: runs of other characters become one dash, and dashes at the ends are dropped. */
  function Slugify(name: string): (r: string)
    ensures r != "" && forall c :: c in r ==> IsDigit(c) || 'a' <= c <= 'z' || c == '-'
  {
    var s := TrimDashes(Dashed(name));
    if s != "" then s else "vlan"
  }

  function LowerChar(c: char): (l: char)
    ensures 'A' <= c <= 'Z' ==> l as int == c as int + 32
    ensures !('A' <= c <= 'Z') ==> l == c
  {
    if 'A' <= c <= 'Z' then c - 'A' + 'a' else c
  }

  function Dashed(name: string): (r: string)
    ensures forall c :: c in r ==> IsDigit(c) || 'a' <= c <= 'z' || c == '-'
  {
    if name == "" then ""
    else
      var c, rest := LowerChar(name[0]), Dashed(name[1..]);
      if IsDigit(c) || 'a' <= c <= 'z' then [c] + rest
      else if rest != "" && rest[0] == '-' then rest else "-" + rest
  }

  function TrimDashes(s: string): (r: string)
    ensures forall c :: c in r ==> c in s
    decreases |s|
  {
    if s != "" && s[0] == '-' then TrimDashes(s[1..])
    else if s != "" && s[|s| - 1] == '-' then TrimDashes(s[..|s| - 1])
    else s
  }

  predicate IsSlugChar(c: char)
  {
    IsDigit(c) || 'a' <= c <= 'z'
  }

  /** The runs of letters and digits of a name, in small letters. */
  function Runs(s: string): (r: seq<string>)
    ensures s != "" && IsSlugChar(LowerChar(s[0])) ==> r != [] && r[0] != "" && r[0][0] == LowerChar(s[0])
  {
    if s == "" then []
    else
      var c, rest := LowerChar(s[0]), Runs(s[1..]);
      if !IsSlugChar(c) then rest
      else if |s| > 1 && IsSlugChar(LowerChar(s[1])) then [[c] + rest[0]] + rest[1..]
      else [[c]] + rest
  }

  lemma {:induction false} RunsShape(s: string)
    ensures forall i :: 0 <= i < |Runs(s)| ==> Runs(s)[i] != "" && forall c :: c in Runs(s)[i] ==> IsSlugChar(c)
  {
    if s != "" {
      RunsShape(s[1..]);
      var rest := Runs(s[1..]);
      forall i | 0 <= i < |Runs(s)| ensures Runs(s)[i] != "" && forall c :: c in Runs(s)[i] ==> IsSlugChar(c) {
        assert 0 <= i < |rest| ==> rest[i] != "" && forall c :: c in rest[i] ==> IsSlugChar(c);
        assert 0 < i && i - 1 < |rest| ==> rest[i - 1] != "" && forall c :: c in rest[i - 1] ==> IsSlugChar(c);
      }
    }
  }

  lemma RejoinStep(parts: seq<string>, sep: char)
    requires |parts| > 1
    ensures Rejoin(parts, sep) == parts[0] + [sep] + Rejoin(parts[1..], sep)
  {
  }

  lemma RejoinFront(c: char, parts: seq<string>)
    requires parts != []
    ensures Rejoin([[c] + parts[0]] + parts[1..], '-') == [c] + Rejoin(parts, '-')
  {
    hide *;
    var front := [c] + parts[0];
    var a := [front] + parts[1..];
    assert a[0] == front && a[1..] == parts[1..];
    if |parts| > 1 {
      var rest := Rejoin(parts[1..], '-');
      RejoinStep(parts, '-');
      RejoinStep(a, '-');
      assert front + ['-'] + rest == [c] + (parts[0] + ['-'] + rest);
    } else {
      OnePart(parts[0]);
      OnePart(front);
      assert parts == [parts[0]] && a == [front];
    }
  }

  lemma RejoinCons(c: char, parts: seq<string>)
    requires parts != []
    ensures Rejoin([[c]] + parts, '-') == [c] + "-" + Rejoin(parts, '-')
  {
    assert ([[c]] + parts)[1..] == parts;
  }

  predicate StartsSlug(s: string)
  {
    s != "" && IsSlugChar(LowerChar(s[0]))
  }

  /** Dashed, a name is its runs between dashes, and perhaps a dash at either end. */
  ghost predicate DashedAs(s: string, post: string)
  {
    && (post == "" || post == "-") && (Runs(s) == [] ==> post == "")
    && Dashed(s) == (if s != "" && !StartsSlug(s) then "-" else "") + Rejoin(Runs(s), '-') + post
  }

  lemma DashedStep(s: string)
    requires s != ""
    ensures
      var c, t := LowerChar(s[0]), s[1..];
      && (IsSlugChar(c) ==> Dashed(s) == [c] + Dashed(t))
      && (!IsSlugChar(c) ==> Dashed(s) == if Dashed(t) != "" && Dashed(t)[0] == '-' then Dashed(t) else "-" + Dashed(t))
      && (IsSlugChar(c) && StartsSlug(t) ==> Runs(t) != [] && Runs(s) == [[c] + Runs(t)[0]] + Runs(t)[1..])
      && (IsSlugChar(c) && !StartsSlug(t) ==> Runs(s) == [[c]] + Runs(t))
      && (!IsSlugChar(c) ==> Runs(s) == Runs(t))
      && (StartsSlug(t) ==> Dashed(t) != "" && Dashed(t)[0] != '-')
      && (t != "" && !StartsSlug(t) ==> Dashed(t) != "" && Dashed(t)[0] == '-')
      && (t == "" ==> Dashed(t) == "" && Runs(t) == [])
  {
  }

  lemma SlugFirst(s: string, post: string)
    requires StartsSlug(s) && Runs(s) != [] && (post == "" || post == "-") && Dashed(s) == Rejoin(Runs(s), '-') + post
    ensures DashedAs(s, post)
  {
    hide Runs, Dashed, Rejoin, StartsSlug;
    var joined := Rejoin(Runs(s), '-');
    assert "" + joined == joined;
  }

  lemma RunsFirst(s: string)
    requires s != "" && IsSlugChar(LowerChar(s[0]))
    ensures StartsSlug(s) && Runs(s) != []
  {
  }

  lemma SlugCharDashed(s: string, post: string) returns (post': string)
    requires s != "" && IsSlugChar(LowerChar(s[0])) && DashedAs(s[1..], post)
    ensures DashedAs(s, post')
  {
    hide *;
    var c, t := LowerChar(s[0]), s[1..];
    DashedStep(s);
    DashedIs(t, post);
    var d, joined := Dashed(t), Rejoin(Runs(t), '-');
    post' := post;
    if StartsSlug(t) {
      RejoinFront(c, Runs(t));
      assert "" + joined + post == joined + post;
      assert [c] + (joined + post) == [c] + joined + post;
    } else if Runs(t) == [] {
      OnePart([c]);
      NoParts();
      assert [[c]] + Runs(t) == [[c]];
      assert t != "" ==> d == "-";
      post' := d;
    } else {
      RejoinCons(c, Runs(t));
      assert [c] + ("-" + joined + post) == [c] + "-" + joined + post;
    }
    RunsFirst(s);
    SlugFirst(s, post');
  }

  lemma DashedIs(s: string, post: string)
    requires DashedAs(s, post)
    ensures (post == "" || post == "-") && (Runs(s) == [] ==> post == "")
    ensures Dashed(s) == (if s != "" && !StartsSlug(s) then "-" else "") + Rejoin(Runs(s), '-') + post
  {
  }

  lemma OtherCharDashed(s: string, post: string)
    requires s != "" && !IsSlugChar(LowerChar(s[0])) && DashedAs(s[1..], post)
    ensures DashedAs(s, post)
  {
    DashedStep(s);
    NoParts();
    var t, joined := s[1..], Rejoin(Runs(s[1..]), '-');
    assert !StartsSlug(s);
    hide Dashed, Runs, Rejoin, IsSlugChar, StartsSlug;
    if t == "" {
      assert Dashed(s) == "-";
    } else if StartsSlug(t) {
      assert Dashed(t) == joined + post;
      assert "-" + (joined + post) == "-" + joined + post;
    } else {
      assert Dashed(s) == Dashed(t);
    }
  }

  lemma {:induction false} DashedRuns(s: string) returns (post: string)
    ensures DashedAs(s, post)
  {
    if s == "" {
      NoParts();
      post := "";
    } else {
      post := DashedRuns(s[1..]);
      hide *;
      if IsSlugChar(LowerChar(s[0])) {
        post := SlugCharDashed(s, post);
      } else {
        OtherCharDashed(s, post);
      }
    }
  }

  lemma NoParts()
    ensures Rejoin([], '-') == ""
  {
  }

  lemma OnePart(s: string)
    ensures Rejoin([s], '-') == s
  {
  }

  lemma TrimEnds(pre: string, body: string, post: string)
    requires (pre == "" || pre == "-") && (post == "" || post == "-")
    requires body != "" ==> body[0] != '-' && body[|body| - 1] != '-'
    ensures TrimDashes(pre + body + post) == body
  {
    var s := pre + body + post;
    if pre == "-" {
      assert s[1..] == body + post;
    } else {
      assert s == body + post;
    }
    TrimEnd(body, post);
  }

  lemma TrimEnd(body: string, post: string)
    requires (post == "" || post == "-") && (body != "" ==> body[0] != '-' && body[|body| - 1] != '-')
    ensures TrimDashes(body + post) == body
  {
    if post == "-" && body != "" {
      assert (body + post)[..|body|] == body;
    } else if post == "-" {
      assert (body + post)[1..] == "";
    } else {
      assert body + post == body;
    }
  }

  lemma {:induction false} RejoinEnds(parts: seq<string>)
    requires parts != [] && forall i :: 0 <= i < |parts| ==> parts[i] != "" && forall c :: c in parts[i] ==> c != '-'
    ensures var s := Rejoin(parts, '-'); s != "" && s[0] != '-' && s[|s| - 1] != '-'
  {
    var last := parts[|parts| - 1];
    assert parts[0][0] in parts[0] && last[|last| - 1] in last;
    if |parts| > 1 {
      RejoinEnds(parts[1..]);
      assert Rejoin(parts, '-') == parts[0] + ['-'] + Rejoin(parts[1..], '-');
      hide Rejoin;
    }
  }

  /** The slug of a name is its runs of letters and digits, in small letters, with a dash between them. */
  lemma SlugIsRuns(name: string)
    ensures Slugify(name) == if Runs(name) == [] then "vlan" else Rejoin(Runs(name), '-')
  {
    var post := DashedRuns(name);
    RunsShape(name);
    var body := Rejoin(Runs(name), '-');
    if Runs(name) != [] {
      RejoinEnds(Runs(name));
    } else {
      NoParts();
    }
    hide Dashed, Rejoin, Runs, TrimDashes;
    TrimEnds(if name != "" && !StartsSlug(name) then "-" else "", body, post);
  }

  function Numbered(base: string, n: nat): string
  {
    base + "-" + NatText(n)
  }

  ghost predicate FirstFreeNumber(base: string, existing: set<string>, n: nat)
  {
    n >= 2 && Numbered(base, n) !in existing && forall m: nat :: 2 <= m < n ==> Numbered(base, m) in existing
  }

  lemma NumberedDiffer(base: string, m: nat, n: nat)
    requires Numbered(base, m) == Numbered(base, n)
    ensures m == n
  {
    assert Numbered(base, m)[|base| + 1..] == NatText(m) && Numbered(base, n)[|base| + 1..] == NatText(n);
    NatTextInjective(m, n);
  }

  /** The first free id: the base, or the base with the smallest number from 2 on. The loop ends
      because the numbered ids it has tried are all different and all taken. */
  method FreshId(base: string, existing: set<string>) returns (id: string)
    ensures FreshFrom(id, base, existing)
  {
    id := base;
    var n := 2;
    ghost var tried: set<string> := {};
    while id in existing
      invariant n >= 2
      invariant id == base || (base in existing && n > 2 && id == Numbered(base, n - 1))
      invariant n > 2 ==> id == Numbered(base, n - 1)
      invariant tried <= existing && forall x :: x in tried <==> exists m: nat :: 2 <= m < n - 1 && x == Numbered(base, m)
      invariant forall m: nat :: 2 <= m < n - 1 ==> Numbered(base, m) in existing
      decreases |existing| - |tried|, 3 - n
    {
      if n > 2 {
        if id in tried {
          var m: nat :| 2 <= m < n - 1 && id == Numbered(base, m);
          NumberedDiffer(base, m, n - 1);
        }
        SubsetGrows(tried, id, existing);
        tried := tried + {id};
      }
      id := Numbered(base, n);
      n := n + 1;
    }
    assert n > 2 ==> FirstFreeNumber(base, existing, n - 1);
  }

  lemma SubsetGrows(s: set<string>, x: string, t: set<string>)
    requires s <= t && x in t && x !in s
    ensures |s + {x}| == |s| + 1 <= |t|
  {
    assert t == (s + {x}) + (t - (s + {x}));
  }

  // --- Operations ---

  /** The fields of a new VLAN as submitted; the prefix is None where it is not a number. */
  datatype NewVlan = NewVlan(name: string, vlanTag: Option<int>, subnet: string, prefix: Option<int>, gateway: string,
                             rangeStart: string, rangeEnd: string, leaseTime: string, cfDomain: string, groupName: string)

  /** The fields of an update; None for a field that is not submitted. */
  datatype Changes = Changes(name: Option<string>, vlanTag: Option<int>, gateway: Option<string>, rangeStart: Option<string>,
                             rangeEnd: Option<string>, leaseTime: Option<string>, cfDomain: Option<string>, groupName: Option<string>)

  /** A submitted value replaces the old one unless it is empty. */
  function Submitted(new_: Option<string>, old_: string): string
  {
    if new_.Some? && new_.value != "" then new_.value else old_
  }

  /** Six fields take a submitted value that is not empty, the domain and the group any that is submitted;
      the id, the block and the hosts stay. */
  ghost predicate ChangedBy(v: Vlan, c: Changes, w: Vlan)
  {
    && w.id == v.id && w.isPrimary == v.isPrimary && w.subnet == v.subnet && w.prefix == v.prefix && w.hosts == v.hosts
    && w.name == (if c.name in {None, Some("")} then v.name else c.name.value)
    && w.vlanTag == (if c.vlanTag == None then v.vlanTag else c.vlanTag)
    && w.gateway == (if c.gateway in {None, Some("")} then v.gateway else c.gateway.value)
    && w.rangeStart == (if c.rangeStart in {None, Some("")} then v.rangeStart else c.rangeStart.value)
    && w.rangeEnd == (if c.rangeEnd in {None, Some("")} then v.rangeEnd else c.rangeEnd.value)
    && w.leaseTime == (if c.leaseTime in {None, Some("")} then v.leaseTime else c.leaseTime.value)
    && w.cfDomain == (if c.cfDomain == None then v.cfDomain else c.cfDomain.value)
    && w.groupName == (if c.groupName == None then v.groupName else c.groupName.value)
  }

  function Updated(v: Vlan, c: Changes): Vlan
  {
    v.(name := Submitted(c.name, v.name), vlanTag := if c.vlanTag.Some? then c.vlanTag else v.vlanTag,
       gateway := Submitted(c.gateway, v.gateway), rangeStart := Submitted(c.rangeStart, v.rangeStart),
       rangeEnd := Submitted(c.rangeEnd, v.rangeEnd), leaseTime := Submitted(c.leaseTime, v.leaseTime),
       cfDomain := c.cfDomain.GetOr(v.cfDomain), groupName := c.groupName.GetOr(v.groupName))
  }

  lemma UpdatedIs(v: Vlan, c: Changes)
    ensures ChangedBy(v, c, Updated(v, c))
  {
  }

  lemma UpdatedSubnet(v: Vlan, c: Changes)
    ensures var w := Updated(v, c); w.id == v.id && w.subnet == v.subnet && w.prefix == v.prefix && w.isPrimary == v.isPrimary && w.hosts == v.hosts
  {
  }

  /** The submitted VLAN, stripped, before it has an id. */
  function Draft(f: NewVlan): Vlan
  {
    Vlan("", Strip(f.name), f.vlanTag, false, Strip(f.subnet), f.prefix.GetOr(-1), Strip(f.gateway), Strip(f.rangeStart),
         Strip(f.rangeEnd), Strip(if f.leaseTime == "" then "12h" else f.leaseTime), Strip(f.cfDomain), Strip(f.groupName), [])
  }

  predicate TagTaken(tag: Option<int>, v: Vlan)
  {
    tag.Some? && tag.value != 0 && v.vlanTag == tag
  }

  ghost predicate FormOk(d: Vlan)
    ensures FormOk(d) ==> NetworkOf(d).Some?
  {
    && d.name != "" && NetworkOf(d).Some?
    && Inside(d.gateway, d) && Inside(d.rangeStart, d) && Inside(d.rangeEnd, d)
    && (d.cfDomain == "" || ValidDomain(d.cfDomain))
  }

  /** No extra VLAN shares an address with it or has its tag. */
  ghost predicate Undisturbed(d: Vlan, vlans: seq<Vlan>)
    requires SubnetsApart(vlans) && NetworkOf(d).Some?
  {
    forall i :: 0 <= i < |vlans| && !vlans[i].isPrimary ==> ShareNoAddress(d, vlans[i]) && !(d.vlanTag.GetOr(0) != 0 && vlans[i].vlanTag == d.vlanTag)
  }

  /** A new VLAN is taken exactly when it is well formed by itself and disturbs no extra VLAN. */
  ghost predicate Creatable(d: Vlan, vlans: seq<Vlan>)
    requires SubnetsApart(vlans)
  {
    FormOk(d) && Undisturbed(d, vlans)
  }

  lemma UndisturbedApart(d: Vlan, v: Vlan, vlans: seq<Vlan>)
    requires SubnetsApart(vlans) && NetworkOf(d).Some? && Undisturbed(d, vlans) && NetworkOf(v) == NetworkOf(d)
    requires forall i :: 0 <= i < |vlans| ==> ShareNoAddress(v, vlans[i]) == ShareNoAddress(d, vlans[i])
    ensures forall i :: 0 <= i < |vlans| && !vlans[i].isPrimary ==> ShareNoAddress(v, vlans[i])
  {
    hide ShareNoAddress, NetworkOf;
  }

  /** A valid address in the block. */
  ghost predicate InNet(n: Net, ip: string)
    requires n.prefix <= 32
  {
    ValidIp(ip) && n.Has(ParseAddress(ip).value)
  }

  /** What is submitted is taken exactly when it has a name, a block, its three addresses in the block, a
      domain that is one or none, and when no extra VLAN shares an address or has the tag. */
  ghost predicate Acceptable(f: NewVlan, vlans: seq<Vlan>)
    requires SubnetsApart(vlans)
  {
    && Strip(f.name) != "" && f.prefix.Some? && ParseNet(Strip(f.subnet), f.prefix.value).Some?
    && var n := ParseNet(Strip(f.subnet), f.prefix.value).value;
    && InNet(n, Strip(f.gateway)) && InNet(n, Strip(f.rangeStart)) && InNet(n, Strip(f.rangeEnd))
    && (Strip(f.cfDomain) == "" || ValidDomain(Strip(f.cfDomain)))
    && forall i :: 0 <= i < |vlans| && !vlans[i].isPrimary ==>
         && (forall a: nat :: !(n.Has(a) && NetworkOf(vlans[i]).value.Has(a)))
         && !(f.vlanTag.Some? && f.vlanTag.value != 0 && vlans[i].vlanTag == f.vlanTag)
  }

  lemma AcceptableIff(f: NewVlan, vlans: seq<Vlan>)
    requires SubnetsApart(vlans)
    ensures Acceptable(f, vlans) <==> Creatable(Draft(f), vlans)
  {
    hide Strip, ValidDomain, ValidIp, ParseAddress, ParseNet;
    var d := Draft(f);
    if NetworkOf(d).Some? {
      var n := NetworkOf(d).value;
      assert f.prefix.Some? && n == ParseNet(Strip(f.subnet), f.prefix.value).value;
      forall i | 0 <= i < |vlans|
        ensures ShareNoAddress(d, vlans[i]) <==> forall a: nat :: !(n.Has(a) && NetworkOf(vlans[i]).value.Has(a))
      {
        hide NetworkOf;
      }
    }
  }

  /** The slug itself, or where it is taken the slug with the first free number from 2 on. */
  ghost predicate IdFrom(id: string, slug: string, ids: set<string>)
  {
    id !in ids
    && (id == slug
        || (slug in ids && exists n: nat ::
              n >= 2 && id == slug + "-" + NatText(n) && forall m: nat :: 2 <= m < n ==> slug + "-" + NatText(m) in ids))
  }

  lemma FreshIsFrom(id: string, slug: string, ids: set<string>)
    requires FreshFrom(id, slug, ids)
    ensures IdFrom(id, slug, ids)
  {
    if id != slug {
      var n: nat :| FirstFreeNumber(slug, ids, n) && id == Numbered(slug, n);
      assert id == slug + "-" + NatText(n);
      forall m: nat | 2 <= m < n ensures slug + "-" + NatText(m) in ids {
        assert Numbered(slug, m) in ids;
      }
    }
  }

  /** The record that is stored: what was submitted, without blanks around it, under the network address of
      its block and an id made of its name. */
  ghost predicate MadeFrom(v: Vlan, f: NewVlan, ids: set<string>)
  {
    && v.name == Strip(f.name) && v.vlanTag == f.vlanTag && !v.isPrimary && v.hosts == []
    && v.gateway == Strip(f.gateway) && v.rangeStart == Strip(f.rangeStart) && v.rangeEnd == Strip(f.rangeEnd)
    && v.leaseTime == Strip(if f.leaseTime == "" then "12h" else f.leaseTime)
    && v.cfDomain == Strip(f.cfDomain) && v.groupName == Strip(f.groupName)
    && f.prefix == Some(v.prefix) && ParseNet(Strip(f.subnet), v.prefix).Some?
    && ParseAddress(v.subnet) == Some(ParseNet(Strip(f.subnet), v.prefix).value.Base())
    && var slug := if Runs(v.name) == [] then "vlan" else Rejoin(Runs(v.name), '-');
       IdFrom(v.id, slug, ids)
  }

  lemma DraftMade(f: NewVlan, v: Vlan, ids: set<string>)
    requires var d := Draft(f); NetworkOf(d).Some? && v == d.(id := v.id, subnet := SubnetBase(d))
    requires FreshFrom(v.id, Slugify(Draft(f).name), ids)
    ensures MadeFrom(v, f, ids)
  {
    hide FreshFrom, IdFrom, Strip, ParseAddress, ParseNet, Slugify, Runs, Rejoin, SubnetBase, AddressText, FirstFreeNumber;
    var d := Draft(f);
    BaseIsAddress(d);
    SlugIsRuns(d.name);
    FreshIsFrom(v.id, Slugify(d.name), ids);
    assert f.prefix.Some? by {
      if f.prefix.None? {
        NoNegativePrefix(d);
      }
    }
  }

  lemma NoNegativePrefix(d: Vlan)
    requires d.prefix < 0
    ensures NetworkOf(d).None?
  {
  }

  lemma BaseIsAddress(v: Vlan)
    requires NetworkOf(v).Some?
    ensures ParseAddress(SubnetBase(v)) == Some(NetworkOf(v).value.Base())
  {
    BlockFits(NetworkOf(v).value);
    hide ParseAddress, AddressText;
    ParseAddressText(NetworkOf(v).value.Base());
  }

  ghost predicate Importable(v: Vlan, vlans: seq<Vlan>)
    requires SubnetsApart(vlans)
  {
    && Find(vlans, v.id).None? && NetworkOf(v).Some?
    && forall i :: 0 <= i < |vlans| && !vlans[i].isPrimary ==> ShareNoAddress(v, vlans[i])
  }

  /** The address lies in the VLAN's subnet, no other VLAN has it, and in this one only the mac itself. */
  ghost predicate Reservable(vlans: seq<Vlan>, i: nat, mac: string, ip: string)
    requires i < |vlans|
  {
    && Inside(ip, vlans[i])
    && (forall j, k :: 0 <= j < |vlans| && j != i && 0 <= k < |vlans[j].hosts| ==> vlans[j].hosts[k].ip != ip)
    && (forall k :: 0 <= k < |vlans[i].hosts| && vlans[i].hosts[k].ip == ip ==> vlans[i].hosts[k].mac == mac)
  }

  /** The index of the VLAN with an id. */
  function Find(vlans: seq<Vlan>, id: string): (i: Option<nat>)
    ensures i.Some? ==> i.value < |vlans| && vlans[i.value].id == id
    ensures i.None? ==> forall j :: 0 <= j < |vlans| ==> vlans[j].id != id
  {
    if vlans == [] then None
    else if vlans[0].id == id then Some(0)
    else
      match Find(vlans[1..], id)
      case None => None
      case Some(i) => Some(i + 1)
  }

  function FindHost(hosts: seq<Host>, ip: string): (i: Option<nat>)
    ensures i.Some? ==> i.value < |hosts| && hosts[i.value].ip == ip
    ensures i.None? ==> forall j :: 0 <= j < |hosts| ==> hosts[j].ip != ip
  {
    if hosts == [] then None
    else if hosts[0].ip == ip then Some(0)
    else
      match FindHost(hosts[1..], ip)
      case None => None
      case Some(i) => Some(i + 1)
  }

  function SubnetBase(v: Vlan): string
    requires NetworkOf(v).Some?
  {
    BlockFits(NetworkOf(v).value);
    AddressText(NetworkOf(v).value.Base())
  }

  /** A block's own network address names the same block. */
  lemma SubnetBaseSame(v: Vlan)
    requires NetworkOf(v).Some?
    ensures ParseNet(SubnetBase(v), v.prefix) == NetworkOf(v)
  {
    hide ParseNet;
    NetOfBase(NetworkOf(v).value);
  }

  /** `net.overlaps(other)` */
  predicate Overlap(a: Vlan, b: Vlan)
    requires NetworkOf(a).Some? && NetworkOf(b).Some?
  {
    NetworkOf(a).value.Overlaps(NetworkOf(b).value)
  }

  lemma OverlapMeans(a: Vlan, b: Vlan)
    requires NetworkOf(a).Some? && NetworkOf(b).Some?
    ensures Overlap(a, b) <==> !ShareNoAddress(a, b)
  {
    OverlapsIff(NetworkOf(a).value, NetworkOf(b).value);
  }

  ghost predicate CollidesBy(d: Vlan, v: Vlan, e: Error)
    requires NetworkOf(d).Some?
  {
    || (e == Overlapping(v.name) && NetworkOf(v).Some? && !ShareNoAddress(d, v))
    || (e == TagUsed(v.name) && d.vlanTag.GetOr(0) != 0 && v.vlanTag == d.vlanTag)
  }

  /** The first extra VLAN that a new subnet or tag collides with. */
  method FirstCollision(d: Vlan, vlans: seq<Vlan>) returns (e: Option<Error>)
    requires SubnetsApart(vlans) && NetworkOf(d).Some?
    ensures e.None? <==> Undisturbed(d, vlans)
    ensures e.Some? ==> exists i :: 0 <= i < |vlans| && !vlans[i].isPrimary && CollidesBy(d, vlans[i], e.value) && Undisturbed(d, vlans[..i])
  {
    hide NetworkOf, ShareNoAddress, Overlap;
    for i := 0 to |vlans|
      invariant forall j :: 0 <= j < i && !vlans[j].isPrimary ==> ShareNoAddress(d, vlans[j]) && !TagTaken(d.vlanTag, vlans[j])
    {
      var v := vlans[i];
      if !v.isPrimary {
        OverlapMeans(d, v);
        if Overlap(d, v) {
          assert CollidesBy(d, vlans[i], Overlapping(v.name)) && Undisturbed(d, vlans[..i]);
          return Some(Overlapping(v.name));
        }
        if TagTaken(d.vlanTag, v) {
          assert CollidesBy(d, vlans[i], TagUsed(v.name)) && Undisturbed(d, vlans[..i]);
          return Some(TagUsed(v.name));
        }
      }
    }
    e := None;
  }

  /** The gateway and both ends of the range, in order. */
  method CheckFields(d: Vlan) returns (e: Option<Error>)
    requires NetworkOf(d).Some?
    ensures e.None? <==> Inside(d.gateway, d) && Inside(d.rangeStart, d) && Inside(d.rangeEnd, d)
  {
    hide NetworkOf, Inside, ValidIp;
    var fields := [("gateway", d.gateway), ("range_start", d.rangeStart), ("range_end", d.rangeEnd)];
    for i := 0 to 3
      invariant forall j :: 0 <= j < i ==> Inside(fields[j].1, d)
    {
      InsideIsValid(fields[i].1, d);
      if !ValidIp(fields[i].1) {
        return Some(BadAddress(fields[i].0));
      }
      if !Inside(fields[i].1, d) {
        return Some(OutsideSubnet(fields[i].0));
      }
    }
    assert Inside(fields[0].1, d) && Inside(fields[1].1, d) && Inside(fields[2].1, d);
    e := None;
  }

  /** The checks of a new VLAN by itself, in order. */
  method CheckForm(d: Vlan) returns (e: Option<Error>)
    ensures e.None? <==> FormOk(d)
  {
    hide NetworkOf, Inside, ValidDomain;
    if d.name == "" { return Some(NameRequired); }
    if NetworkOf(d).None? { return Some(BadSubnet); }
    var bad := CheckFields(d);
    if bad.Some? { return bad; }
    if d.cfDomain != "" && !ValidDomain(d.cfDomain) { return Some(BadDomain); }
    e := None;
  }

  /** The name of the first extra VLAN whose subnet shares an address. */
  method FirstOverlap(v: Vlan, vlans: seq<Vlan>) returns (name: Option<string>)
    requires SubnetsApart(vlans) && NetworkOf(v).Some?
    ensures name.None? <==> forall i :: 0 <= i < |vlans| && !vlans[i].isPrimary ==> ShareNoAddress(v, vlans[i])
  {
    hide NetworkOf, ShareNoAddress, Overlap;
    for i := 0 to |vlans|
      invariant forall j :: 0 <= j < i && !vlans[j].isPrimary ==> ShareNoAddress(v, vlans[j])
    {
      if !vlans[i].isPrimary {
        OverlapMeans(v, vlans[i]);
        if Overlap(v, vlans[i]) {
          return Some(vlans[i].name);
        }
      }
    }
    name := None;
  }

  /** Another VLAN that has the address reserved. */
  method OtherOwner(vlans: seq<Vlan>, i: nat, ip: string) returns (owner: Option<string>)
    requires i < |vlans| && UniqueIds(vlans)
    ensures owner.None? <==>
      forall j, k :: 0 <= j < |vlans| && j != i && 0 <= k < |vlans[j].hosts| ==> vlans[j].hosts[k].ip != ip
  {
    for j := 0 to |vlans|
      invariant forall m, k :: 0 <= m < j && m != i && 0 <= k < |vlans[m].hosts| ==> vlans[m].hosts[k].ip != ip
    {
      if vlans[j].id != vlans[i].id {
        var h := FindHost(vlans[j].hosts, ip);
        if h.Some? {
          return Some(vlans[j].name);
        }
      }
    }
    owner := None;
  }

  lemma InvalidIsOutside(ip: string, vlans: seq<Vlan>)
    requires !ValidIp(ip)
    ensures forall i :: 0 <= i < |vlans| ==> !Inside(ip, vlans[i])
  {
  }

  lemma InsideIsValid(ip: string, v: Vlan)
    ensures Inside(ip, v) ==> ValidIp(ip)
  {
  }

  lemma NoHostsFit(v: Vlan)
    requires v.hosts == []
    ensures HostsFit(v)
  {
  }

  lemma EachFits(vlans: seq<Vlan>, i: nat)
    requires i < |vlans|
    ensures AllHostsFit(vlans) ==> HostsFit(vlans[i])
  {
  }

  lemma RenamedFits(v: Vlan, k: nat, mac: string)
    requires k < |v.hosts|
    ensures HostsFit(v) ==> HostsFit(v.(hosts := v.hosts[k := v.hosts[k].(mac := mac)]))
  {
    assert NetworkOf(v.(hosts := v.hosts[k := v.hosts[k].(mac := mac)])) == NetworkOf(v);
  }

  lemma BasedVlanSame(d: Vlan, v: Vlan, vlans: seq<Vlan>)
    requires NetworkOf(d).Some? && v.subnet == SubnetBase(d) && v.prefix == d.prefix && SubnetsApart(vlans)
    ensures NetworkOf(v) == NetworkOf(d)
    ensures forall i :: 0 <= i < |vlans| ==> ShareNoAddress(v, vlans[i]) == ShareNoAddress(d, vlans[i])
  {
    SubnetBaseSame(d);
    assert NetworkOf(v) == NetworkOf(d);
  }

  // --- How each kind of edit keeps the store consistent ---

  lemma AppendKeeps(vlans: seq<Vlan>, v: Vlan)
    requires UniqueIds(vlans) && SubnetsApart(vlans) && NetworkOf(v).Some?
    requires forall i :: 0 <= i < |vlans| ==> vlans[i].id != v.id
    requires forall i :: 0 <= i < |vlans| && !vlans[i].isPrimary ==> ShareNoAddress(v, vlans[i])
    ensures UniqueIds(vlans + [v]) && SubnetsApart(vlans + [v])
    ensures AllHostsFit(vlans) && HostsFit(v) ==> AllHostsFit(vlans + [v])
  {
    hide NetworkOf, HostsFit;
  }

  lemma PrependKeeps(vlans: seq<Vlan>, v: Vlan)
    requires UniqueIds(vlans) && SubnetsApart(vlans) && NetworkOf(v).Some? && v.isPrimary
    requires forall i :: 0 <= i < |vlans| ==> vlans[i].id != v.id
    ensures UniqueIds([v] + vlans) && SubnetsApart([v] + vlans)
    ensures AllHostsFit(vlans) && HostsFit(v) ==> AllHostsFit([v] + vlans)
  {
    hide NetworkOf, HostsFit, ShareNoAddress;
  }

  lemma ReplaceKeeps(vlans: seq<Vlan>, i: nat, w: Vlan)
    requires UniqueIds(vlans) && SubnetsApart(vlans) && i < |vlans|
    requires w.id == vlans[i].id && w.isPrimary == vlans[i].isPrimary && w.subnet == vlans[i].subnet && w.prefix == vlans[i].prefix
    ensures UniqueIds(vlans[i := w]) && SubnetsApart(vlans[i := w])
    ensures AllHostsFit(vlans) && HostsFit(w) ==> AllHostsFit(vlans[i := w])
  {
    hide HostsFit;
    assert NetworkOf(w) == NetworkOf(vlans[i]);
    var r := vlans[i := w];
    forall a, b | 0 <= a < b < |r| && !r[a].isPrimary && !r[b].isPrimary ensures ShareNoAddress(r[a], r[b]) {
      assert ShareNoAddress(vlans[a], vlans[b]);
    }
  }

  lemma SameSubnet(v: Vlan, w: Vlan)
    requires w.subnet == v.subnet && w.prefix == v.prefix && w.hosts == v.hosts
    ensures HostsFit(v) ==> HostsFit(w)
  {
    assert NetworkOf(w) == NetworkOf(v);
  }

  lemma RemoveKeeps(vlans: seq<Vlan>, i: nat)
    requires UniqueIds(vlans) && SubnetsApart(vlans) && i < |vlans|
    ensures UniqueIds(vlans[..i] + vlans[i + 1..]) && SubnetsApart(vlans[..i] + vlans[i + 1..])
    ensures AllHostsFit(vlans) ==> AllHostsFit(vlans[..i] + vlans[i + 1..])
  {
    hide NetworkOf, HostsFit, ShareNoAddress;
    var r := vlans[..i] + vlans[i + 1..];
    assert forall a :: 0 <= a < |r| ==> r[a] == vlans[if a < i then a else a + 1];
  }

  /** Ids that no VLAN has. */
  function Ids(vlans: seq<Vlan>): set<string>
  {
    set i | 0 <= i < |vlans| :: vlans[i].id
  }

  lemma IdsAsSet(vlans: seq<Vlan>, id: string)
    requires id !in Ids(vlans)
    ensures forall i :: 0 <= i < |vlans| ==> vlans[i].id != id
  {
    forall i | 0 <= i < |vlans| ensures vlans[i].id != id {
      assert vlans[i].id in Ids(vlans);
    }
  }

  lemma DraftHosts(f: NewVlan)
    ensures Draft(f).hosts == []
  {
  }

  /** An id as the loop leaves it. */
  ghost predicate FreshFrom(id: string, base: string, ids: set<string>)
  {
    id !in ids && (id == base || (base in ids && exists n: nat :: FirstFreeNumber(base, ids, n) && id == Numbered(base, n)))
  }

  lemma FreshIsNew(id: string, base: string, ids: set<string>)
    requires FreshFrom(id, base, ids)
    ensures id !in ids
  {
  }

  class VlanStore {
    var vlans: seq<Vlan>

    ghost predicate Valid()
      reads this
    {
      UniqueIds(vlans) && SubnetsApart(vlans)
    }

    constructor ()
      ensures Valid() && vlans == []
    {
      vlans := [];
    }

    /** `ensure_primary_vlan`: mirrors the existing scope once, at the front. */
    method EnsurePrimary(v: Vlan) returns (added: bool)
      requires Valid() && v.id == "primary" && v.isPrimary && v.hosts == [] && NetworkOf(v).Some?
      modifies this
      ensures Valid() && (old(AllHostsFit(vlans)) ==> AllHostsFit(vlans))
      ensures added == old(Find(vlans, "primary").None?)
      ensures vlans == if added then [v] + old(vlans) else old(vlans)
    {
      hide UniqueIds, SubnetsApart, AllHostsFit, HostsFit, NetworkOf, Inside, ShareNoAddress;
      added := Find(vlans, "primary").None?;
      if added {
        PrependKeeps(vlans, v);
        NoHostsFit(v);
        vlans := [v] + vlans;
      }
    }

    method CreateVlan(f: NewVlan) returns (r: Result<Vlan, Error>)
      requires Valid()
      modifies this
      ensures Valid() && (old(AllHostsFit(vlans)) ==> AllHostsFit(vlans))
      ensures r.Ok? <==> old(Acceptable(f, vlans))
      ensures r.Err? ==> vlans == old(vlans)
      ensures r.Ok? ==> vlans == old(vlans) + [r.value]
      ensures r.Ok? ==> MadeFrom(r.value, f, Ids(old(vlans)))
    {
      AcceptableIff(f, vlans);
      var d := Draft(f);
      hide UniqueIds, SubnetsApart, AllHostsFit, HostsFit, NetworkOf, Inside, ShareNoAddress, Acceptable, MadeFrom, Draft, Find, Ids, FreshFrom, Undisturbed, FormOk, SubnetBase, Slugify;
      var bad := CheckForm(d);
      if bad.Some? { return Err(bad.value); }
      var id := FreshId(Slugify(d.name), Ids(vlans));
      var collision := FirstCollision(d, vlans);
      if collision.Some? { return Err(collision.value); }
      assert id !in Ids(vlans) by { FreshIsNew(id, Slugify(d.name), Ids(vlans)); }
      var v := d.(id := id, subnet := SubnetBase(d));
      IdsAsSet(vlans, id);
      DraftMade(f, v, Ids(vlans));
      DraftHosts(f);
      BasedVlanSame(d, v, vlans);
      UndisturbedApart(d, v, vlans);
      AppendKeeps(vlans, v);
      NoHostsFit(v);
      vlans := vlans + [v];
      r := Ok(v);
    }

    /** A VLAN read back from a node: the id and overlap rules apply, the form checks do not. */
    method ImportVlan(v: Vlan) returns (r: Result<Vlan, Error>)
      requires Valid()
      modifies this
      ensures Valid() && (old(AllHostsFit(vlans)) && HostsFit(v) ==> AllHostsFit(vlans))
      ensures r.Ok? <==> old(Importable(v, vlans))
      ensures vlans == if r.Ok? then old(vlans) + [v] else old(vlans)
    {
      hide UniqueIds, SubnetsApart, AllHostsFit, HostsFit, NetworkOf, Inside, ShareNoAddress;
      if Find(vlans, v.id).Some? { return Err(AlreadyExists); }
      if NetworkOf(v).None? { return Err(BadSubnet); }
      var overlap := FirstOverlap(v, vlans);
      if overlap.Some? { return Err(Overlapping(overlap.value)); }
      AppendKeeps(vlans, v);
      vlans := vlans + [v];
      r := Ok(v);
    }

    method UpdateVlan(id: string, c: Changes) returns (r: Result<Vlan, Error>)
      requires Valid()
      modifies this
      ensures Valid() && (old(AllHostsFit(vlans)) ==> AllHostsFit(vlans))
      ensures
        var i := old(Find(vlans, id));
        if i.Some? && (c.cfDomain.GetOr("") == "" || ValidDomain(c.cfDomain.value))
        then r.Ok? && vlans == old(vlans)[i.value := r.value] && ChangedBy(old(vlans)[i.value], c, r.value)
        else r.Err? && vlans == old(vlans)
    {
      hide UniqueIds, SubnetsApart, AllHostsFit, HostsFit, NetworkOf, Inside, ShareNoAddress, ChangedBy, Updated;
      var i := Find(vlans, id);
      if i.None? { return Err(VlanNotFound); }
      if c.cfDomain.GetOr("") != "" && !ValidDomain(c.cfDomain.value) { return Err(BadDomain); }
      var v := Updated(vlans[i.value], c);
      UpdatedIs(vlans[i.value], c);
      ReplaceKeeps(vlans, i.value, v);
      UpdatedSubnet(vlans[i.value], c);
      SameSubnet(vlans[i.value], v);
      EachFits(vlans, i.value);
      vlans := vlans[i.value := v];
      r := Ok(v);
    }

    method DeleteVlan(id: string) returns (r: Result<(), Error>)
      requires Valid()
      modifies this
      ensures Valid() && (old(AllHostsFit(vlans)) ==> AllHostsFit(vlans))
      ensures r.Ok? <==> id != "primary" && old(Find(vlans, id).Some?)
      ensures
        var i := old(Find(vlans, id));
        vlans == if r.Ok? then old(vlans)[..i.value] + old(vlans)[i.value + 1..] else old(vlans)
    {
      hide UniqueIds, SubnetsApart, AllHostsFit, HostsFit, NetworkOf, Inside, ShareNoAddress;
      if id == "primary" { return Err(PrimaryIsFixed); }
      var i := Find(vlans, id);
      if i.None? { return Err(VlanNotFound); }
      OnlyOneGoes(vlans, id, i.value);
      RemoveKeeps(vlans, i.value);
      vlans := Filter(vlans, (v: Vlan) => v.id != id);
      r := Ok(());
    }

    /** Reserve an address for a mac, moving the mac's reservation if it has one. */
    method AddOrUpdateHost(id: string, rawMac: string, rawIp: string, rawName: string) returns (r: Result<Vlan, Error>)
      requires Valid()
      modifies this
      ensures Valid() && (old(AllHostsFit(vlans)) ==> AllHostsFit(vlans))
      ensures
        var mac, ip := Upper(Strip(rawMac)), Strip(rawIp);
        r.Ok? <==> ValidMac(mac) && old(Find(vlans, id).Some? && Reservable(vlans, Find(vlans, id).value, mac, ip))
      ensures
        var mac, ip, i := Upper(Strip(rawMac)), Strip(rawIp), old(Find(vlans, id));
        if r.Ok? then
          var v, added := old(vlans)[i.value], Host(mac, ip, Strip(rawName), false);
          r.value == v.(hosts := Filter(v.hosts, (x: Host) => x.mac != mac) + [added]) && vlans == old(vlans)[i.value := r.value]
        else vlans == old(vlans)
    {
      hide UniqueIds, SubnetsApart, AllHostsFit, HostsFit, NetworkOf, Inside, ShareNoAddress, ValidMac, ValidIp, Upper, Strip, Moved;
      var mac, ip := Upper(Strip(rawMac)), Strip(rawIp);
      if !ValidMac(mac) { return Err(BadMac); }
      if !ValidIp(ip) {
        InvalidIsOutside(ip, vlans);
        return Err(BadAddress("ip"));
      }
      var i := Find(vlans, id);
      if i.None? { return Err(VlanNotFound); }
      var v := vlans[i.value];
      if !Inside(ip, v) { return Err(OutsideSubnet("ip")); }
      var owner := OtherOwner(vlans, i.value, ip);
      if owner.Some? { return Err(AddressTaken(owner.value)); }
      for k := 0 to |v.hosts|
        invariant vlans == old(vlans)
        invariant forall m :: 0 <= m < k && v.hosts[m].ip == ip ==> v.hosts[m].mac == mac
      {
        if v.hosts[k].ip == ip && v.hosts[k].mac != mac {
          return Err(AddressTaken(v.hosts[k].mac));
        }
      }
      var h := Host(mac, ip, Strip(rawName), false);
      var w := v.(hosts := Moved(v.hosts, h));
      MovedIs(v.hosts, h, mac);
      EachFits(vlans, i.value);
      if HostsFit(v) {
        MovedFits(v, h);
      }
      ReplaceKeeps(vlans, i.value, w);
      vlans := vlans[i.value := w];
      r := Ok(w);
    }

    method DeleteHost(id: string, ip: string) returns (r: Result<(), Error>)
      requires Valid()
      modifies this
      ensures Valid() && (old(AllHostsFit(vlans)) ==> AllHostsFit(vlans))
      ensures
        var i := old(Find(vlans, id));
        && (r.Ok? <==> i.Some? && FindHost(old(vlans)[i.value].hosts, ip).Some?)
        && vlans == (if r.Ok? then
                       var v := old(vlans)[i.value];
                       old(vlans)[i.value := v.(hosts := Filter(v.hosts, (h: Host) => h.ip != ip))]
                     else old(vlans))
    {
      hide UniqueIds, SubnetsApart, AllHostsFit, HostsFit, NetworkOf, Inside, ShareNoAddress;
      var i := Find(vlans, id);
      if i.None? { return Err(VlanNotFound); }
      var v := vlans[i.value];
      var w := WithoutIp(v, ip);
      WithoutIpShrinks(v.hosts, ip);
      if |w.hosts| == |v.hosts| { return Err(HostNotFound); }
      EachFits(vlans, i.value);
      if HostsFit(v) {
        FilterFits(v, (h: Host) => h.ip != ip);
      }
      ReplaceKeeps(vlans, i.value, w);
      vlans := vlans[i.value := w];
      r := Ok(());
    }

    method UpdateHostMac(id: string, ip: string, rawMac: string) returns (r: Result<Vlan, Error>)
      requires Valid()
      modifies this
      ensures Valid() && (old(AllHostsFit(vlans)) ==> AllHostsFit(vlans))
      ensures
        var mac, i := Upper(Strip(rawMac)), old(Find(vlans, id));
        var k := if i.Some? then FindHost(old(vlans)[i.value].hosts, ip) else None;
        if ValidMac(mac) && k.Some?
        then var v := old(vlans)[i.value];
             r == Ok(v.(hosts := v.hosts[k.value := v.hosts[k.value].(mac := mac)])) && vlans == old(vlans)[i.value := r.value]
        else r.Err? && vlans == old(vlans)
    {
      hide UniqueIds, SubnetsApart, AllHostsFit, HostsFit, NetworkOf, Inside, ShareNoAddress;
      var mac := Upper(Strip(rawMac));
      if !ValidMac(mac) { return Err(BadMac); }
      var i := Find(vlans, id);
      if i.None? { return Err(VlanNotFound); }
      var v := vlans[i.value];
      var k := FindHost(v.hosts, ip);
      if k.None? { return Err(HostNotFound); }
      var w := v.(hosts := v.hosts[k.value := v.hosts[k.value].(mac := mac)]);
      EachFits(vlans, i.value);
      RenamedFits(v, k.value, mac);
      ReplaceKeeps(vlans, i.value, w);
      vlans := vlans[i.value := w];
      r := Ok(w);
    }
  }

  /** The hosts with the mac's old reservation gone and the new one last. */
  function Moved(hosts: seq<Host>, h: Host): seq<Host>
  {
    Filter(hosts, (x: Host) => x.mac != h.mac) + [h]
  }

  lemma MovedIs(hosts: seq<Host>, h: Host, mac: string)
    requires mac == h.mac
    ensures Moved(hosts, h) == Filter(hosts, (x: Host) => x.mac != mac) + [h]
  {
    FilterSame(hosts, (x: Host) => x.mac != h.mac, (x: Host) => x.mac != mac);
  }

  function WithoutIp(v: Vlan, ip: string): Vlan
  {
    v.(hosts := Filter(v.hosts, (h: Host) => h.ip != ip))
  }

  lemma {:induction false} OnlyOneGoes(vlans: seq<Vlan>, id: string, i: nat)
    requires UniqueIds(vlans) && i < |vlans| && vlans[i].id == id
    ensures Filter(vlans, (v: Vlan) => v.id != id) == vlans[..i] + vlans[i + 1..]
    decreases |vlans|
  {
    var keep := (v: Vlan) => v.id != id;
    var rest := vlans[1..];
    if i == 0 {
      assert forall v :: v in rest ==> keep(v);
      FilterAll(rest, keep);
    } else {
      OnlyOneGoes(rest, id, i - 1);
      assert vlans[..i] == [vlans[0]] + rest[..i - 1] && vlans[i + 1..] == rest[i..];
    }
  }

  ghost predicate UniqueIps(hosts: seq<Host>)
  {
    forall i, j :: 0 <= i < j < |hosts| ==> hosts[i].ip != hosts[j].ip
  }

  lemma {:induction false} FilterUniqueIps(hosts: seq<Host>, p: Host -> bool)
    requires UniqueIps(hosts)
    ensures UniqueIps(Filter(hosts, p))
  {
    if hosts != [] {
      FilterUniqueIps(hosts[1..], p);
      forall h | h in Filter(hosts[1..], p) ensures h.ip != hosts[0].ip {
        assert h in hosts[1..];
      }
    }
  }

  lemma FilterFits(v: Vlan, p: Host -> bool)
    requires HostsFit(v)
    ensures HostsFit(v.(hosts := Filter(v.hosts, p)))
  {
    FilterUniqueIps(v.hosts, p);
    var w := v.(hosts := Filter(v.hosts, p));
    assert NetworkOf(w) == NetworkOf(v);
    forall i | 0 <= i < |w.hosts| ensures Inside(w.hosts[i].ip, w) {
      assert w.hosts[i] in v.hosts;
    }
  }

  lemma OneMoreHostFits(v: Vlan, kept: seq<Host>, h: Host)
    requires HostsFit(v.(hosts := kept)) && Inside(h.ip, v) && forall x :: x in kept ==> x.ip != h.ip
    ensures HostsFit(v.(hosts := kept + [h]))
  {
    var a, b := v.(hosts := kept), v.(hosts := kept + [h]);
    assert NetworkOf(a) == NetworkOf(v) == NetworkOf(b);
    hide NetworkOf;
    forall i | 0 <= i < |b.hosts| ensures Inside(b.hosts[i].ip, b) {
      assert i < |kept| ==> Inside(a.hosts[i].ip, a);
    }
  }

  /** Moving a mac to an address that nobody else holds keeps the addresses unique. */
  lemma MovedFits(v: Vlan, h: Host)
    requires HostsFit(v) && Inside(h.ip, v)
    requires forall k :: 0 <= k < |v.hosts| && v.hosts[k].ip == h.ip ==> v.hosts[k].mac == h.mac
    ensures HostsFit(v.(hosts := Moved(v.hosts, h)))
  {
    hide HostsFit, Inside;
    var keep := (x: Host) => x.mac != h.mac;
    FilterFits(v, keep);
    var kept := Filter(v.hosts, keep);
    forall x | x in kept ensures x.ip != h.ip {
      assert x in v.hosts && keep(x);
    }
    OneMoreHostFits(v, kept, h);
  }

  lemma {:induction false} WithoutIpShrinks(hosts: seq<Host>, ip: string)
    ensures |Filter(hosts, (h: Host) => h.ip != ip)| == |hosts| <==> FindHost(hosts, ip).None?
  {
    var keep := (h: Host) => h.ip != ip;
    if FindHost(hosts, ip).None? {
      FilterAll(hosts, keep);
    } else {
      var i := FindHost(hosts, ip).value;
      assert hosts == hosts[..i] + ([hosts[i]] + hosts[i + 1..]);
      FilterAppend(hosts[..i], [hosts[i]] + hosts[i + 1..], keep);
      FilterAppend([hosts[i]], hosts[i + 1..], keep);
    }
  }

  // --- Every sequence of operations ---

  datatype Op =
    | EnsurePrimary(v: Vlan) | Create(f: NewVlan) | Import(v: Vlan) | Update(id: string, c: Changes) | Delete(id: string)
    | Reserve(id: string, mac: string, ip: string, hostname: string) | Release(id: string, ip: string)
    | ChangeMac(id: string, ip: string, mac: string)

  /** Whatever is submitted, in whatever order: ids stay unique and extra subnets apart; and if every
      imported VLAN had fitting hosts, every host of the store fits. */
  method RunAll(ops: seq<Op>) returns (s: VlanStore)
    requires forall i :: 0 <= i < |ops| && ops[i].EnsurePrimary? ==>
      var v := ops[i].v; v.id == "primary" && v.isPrimary && v.hosts == [] && NetworkOf(v).Some?
    ensures s.Valid()
    ensures (forall i :: 0 <= i < |ops| && ops[i].Import? ==> HostsFit(ops[i].v)) ==> AllHostsFit(s.vlans)
  {
    s := new VlanStore();
    for i := 0 to |ops|
      invariant fresh(s) && s.Valid()
      invariant (forall j :: 0 <= j < i && ops[j].Import? ==> HostsFit(ops[j].v)) ==> AllHostsFit(s.vlans)
    {
      match ops[i] {
        case EnsurePrimary(v) => var _ := s.EnsurePrimary(v);
        case Create(f) => var _ := s.CreateVlan(f);
        case Import(v) => var _ := s.ImportVlan(v);
        case Update(id, c) => var _ := s.UpdateVlan(id, c);
        case Delete(id) => var _ := s.DeleteVlan(id);
        case Reserve(id, mac, ip, hostname) => var _ := s.AddOrUpdateHost(id, mac, ip, hostname);
        case Release(id, ip) => var _ := s.DeleteHost(id, ip);
        case ChangeMac(id, ip, mac) => var _ := s.UpdateHostMac(id, ip, mac);
      }
    }
  }

  /** With fitting hosts and subnets apart, no address is reserved in two extra VLANs. */
  lemma AddressesAreUnique(vlans: seq<Vlan>, i: nat, j: nat, k: nat, m: nat)
    requires SubnetsApart(vlans) && AllHostsFit(vlans) && i < j < |vlans| && !vlans[i].isPrimary && !vlans[j].isPrimary
    requires k < |vlans[i].hosts| && m < |vlans[j].hosts|
    ensures vlans[i].hosts[k].ip != vlans[j].hosts[m].ip
  {
    assert ShareNoAddress(vlans[i], vlans[j]) && HostsFit(vlans[i]) && HostsFit(vlans[j]);
    assert Inside(vlans[i].hosts[k].ip, vlans[i]) && Inside(vlans[j].hosts[m].ip, vlans[j]);
  }
}
