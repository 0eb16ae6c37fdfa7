/** The gate before a push: every scope is checked by itself and against every other. */
module Validate {
  import opened Common
  import opened Ipv4
  import opened Vlans
  import opened Store

  datatype Problem =
    | InvalidSubnet(v: Vlan)
    | InvalidField(v: Vlan, field: string)
    | FieldOutside(v: Vlan, field: string)
    | InvalidHost(v: Vlan, h: Host)
    | HostOutside(v: Vlan, h: Host)
    | OverlappingPair(a: Vlan, b: Vlan)

  function FieldsOf(v: Vlan): seq<(string, string)>
  {
    [("gateway", v.gateway), ("range_start", v.rangeStart), ("range_end", v.rangeEnd)]
  }

  // --- What the checks look at, one by one ---

  function FieldVerdict(v: Vlan, f: (string, string)): Option<Problem>
  {
    if !ValidIp(f.1) then Some(InvalidField(v, f.0))
    else if !Inside(f.1, v) then Some(FieldOutside(v, f.0))
    else None
  }

  function HostVerdict(v: Vlan, h: Host): Option<Problem>
  {
    if !ValidIp(h.ip) then Some(InvalidHost(v, h))
    else if !Inside(h.ip, v) then Some(HostOutside(v, h))
    else None
  }

  /** A pair with a malformed subnet is passed over: it is reported on its own. */
  function PairVerdict(a: Vlan, b: Vlan): Option<Problem>
  {
    if NetworkOf(a).Some? && NetworkOf(b).Some? && Overlap(a, b) then Some(OverlappingPair(a, b)) else None
  }

  function ScopeProblems(v: Vlan): seq<Problem>
  {
    if NetworkOf(v).None? then [InvalidSubnet(v)]
    else FilterMap(FieldsOf(v), f => FieldVerdict(v, f)) + FilterMap(v.hosts, h => HostVerdict(v, h))
  }

  function EachProblems(extra: seq<Vlan>): seq<Problem>
  {
    if extra == [] then [] else EachProblems(extra[..|extra| - 1]) + ScopeProblems(extra[|extra| - 1])
  }

  /** The problems of one scope with each of these. */
  function PairsWith(a: Vlan, others: seq<Vlan>): seq<Problem>
  {
    FilterMap(others, b => PairVerdict(a, b))
  }

  function PairProblems(extra: seq<Vlan>): seq<Problem>
  {
    if extra == [] then [] else PairsWith(extra[0], extra[1..]) + PairProblems(extra[1..])
  }

  function Problems(vlans: seq<Vlan>): seq<Problem>
  {
    EachProblems(Extra(vlans)) + PairProblems(Extra(vlans))
  }

  // --- The gate ---

  method CheckScope(v: Vlan) returns (errors: seq<Problem>)
    ensures errors == ScopeProblems(v)
  {
    hide FilterMap, NetworkOf, Inside, ValidIp;
    if NetworkOf(v).None? {
      return [InvalidSubnet(v)];
    }
    errors := [];
    var fields := FieldsOf(v);
    var field, host := f => FieldVerdict(v, f), h => HostVerdict(v, h);
    FilterMapStep(fields, 0, field);
    for i := 0 to |fields|
      invariant errors == FilterMap(fields[..i], field)
    {
      FilterMapStep(fields, i, field);
      if !ValidIp(fields[i].1) {
        errors := errors + [InvalidField(v, fields[i].0)];
      } else if !Inside(fields[i].1, v) {
        errors := errors + [FieldOutside(v, fields[i].0)];
      }
    }
    assert fields[..|fields|] == fields;
    NothingCollected(v.hosts, host);
    for i := 0 to |v.hosts|
      invariant errors == FilterMap(fields, field) + FilterMap(v.hosts[..i], host)
    {
      var h := v.hosts[i];
      FilterMapStep(v.hosts, i, host);
      if !ValidIp(h.ip) {
        errors := errors + [InvalidHost(v, h)];
      } else if !Inside(h.ip, v) {
        errors := errors + [HostOutside(v, h)];
      }
    }
    assert v.hosts[..|v.hosts|] == v.hosts;
  }

  lemma PairsWithStep(a: Vlan, others: seq<Vlan>, j: nat)
    requires j <= |others|
    ensures PairsWith(a, others[..0]) == [] && others[..|others|] == others
    ensures j < |others| ==>
      PairsWith(a, others[..j + 1]) == PairsWith(a, others[..j]) + match PairVerdict(a, others[j]) case Some(p) => [p] case None => []
  {
    if j < |others| {
      FilterMapStep(others, j, b => PairVerdict(a, b));
    }
  }

  /** Scope by scope, then pair by pair. */
  method ValidateVlans(vlans: seq<Vlan>) returns (errors: seq<Problem>)
    ensures errors == Problems(vlans)
  {
    hide ScopeProblems, FilterMap, NetworkOf, Overlap, Extra, PairsWith;
    errors := [];
    var extra := Extra(vlans);
    for i := 0 to |extra|
      invariant errors == EachProblems(extra[..i])
    {
      assert extra[..i + 1][..i] == extra[..i];
      var e := CheckScope(extra[i]);
      errors := errors + e;
    }
    assert extra[..|extra|] == extra;
    for i := 0 to |extra|
      invariant errors + PairProblems(extra[i..]) == Problems(vlans)
    {
      var a, others := extra[i], extra[i + 1..];
      ghost var before := errors;
      assert extra[i..][0] == a && extra[i..][1..] == others;
      PairsWithStep(a, others, 0);
      for j := 0 to |others|
        invariant errors == before + PairsWith(a, others[..j])
      {
        var b := others[j];
        PairsWithStep(a, others, j);
        if NetworkOf(a).Some? && NetworkOf(b).Some? && Overlap(a, b) {
          errors := errors + [OverlappingPair(a, b)];
        }
      }
    }
    assert extra[|extra|..] == [];
  }

  // --- What passing the gate means ---

  /** Addresses inside their own subnets, and no address in two of the subnets. */
  ghost predicate Sound(extra: seq<Vlan>)
  {
    EachSound(extra) && Apart(extra)
  }

  ghost predicate SoundScope(v: Vlan)
    ensures SoundScope(v) ==> NetworkOf(v).Some?
  {
    && NetworkOf(v).Some?
    && Inside(v.gateway, v) && Inside(v.rangeStart, v) && Inside(v.rangeEnd, v)
    && forall i :: 0 <= i < |v.hosts| ==> Inside(v.hosts[i].ip, v)
  }

  lemma FieldPasses(v: Vlan, f: (string, string))
    ensures FieldVerdict(v, f).None? <==> Inside(f.1, v)
  {
    hide NetworkOf, ParseAddress;
  }

  lemma HostPasses(v: Vlan, h: Host)
    ensures HostVerdict(v, h).None? <==> Inside(h.ip, v)
  {
    hide NetworkOf, ParseAddress;
  }

  /** A loop that collects verdicts collects none exactly when every verdict is None. */
  lemma NoneCollected<A, B>(s: seq<A>, f: A -> Option<B>)
    ensures FilterMap(s, f) == [] <==> forall i :: 0 <= i < |s| ==> f(s[i]).None?
  {
    if FilterMap(s, f) != [] {
      assert FilterMap(s, f)[0] in FilterMap(s, f);
    }
    forall i | 0 <= i < |s| && f(s[i]).Some? ensures FilterMap(s, f) != [] {
      assert f(s[i]).value in FilterMap(s, f);
    }
  }

  lemma FieldsPass(v: Vlan)
    ensures FilterMap(FieldsOf(v), f => FieldVerdict(v, f)) == [] <==>
      Inside(v.gateway, v) && Inside(v.rangeStart, v) && Inside(v.rangeEnd, v)
  {
    hide *;
    var fields := FieldsOf(v);
    assert fields == [("gateway", v.gateway), ("range_start", v.rangeStart), ("range_end", v.rangeEnd)] by {
      FieldsAre(v);
    }
    NoneCollected(fields, f => FieldVerdict(v, f));
    FieldPasses(v, fields[0]);
    FieldPasses(v, fields[1]);
    FieldPasses(v, fields[2]);
  }

  lemma FieldsAre(v: Vlan)
    ensures FieldsOf(v) == [("gateway", v.gateway), ("range_start", v.rangeStart), ("range_end", v.rangeEnd)]
  {
  }

  lemma HostsPass(v: Vlan)
    ensures FilterMap(v.hosts, h => HostVerdict(v, h)) == [] <==> forall i :: 0 <= i < |v.hosts| ==> Inside(v.hosts[i].ip, v)
  {
    hide *;
    NoneCollected(v.hosts, h => HostVerdict(v, h));
    forall i | 0 <= i < |v.hosts| ensures HostVerdict(v, v.hosts[i]).None? <==> Inside(v.hosts[i].ip, v) {
      HostPasses(v, v.hosts[i]);
    }
  }

  lemma ScopePasses(v: Vlan)
    ensures ScopeProblems(v) == [] <==> SoundScope(v)
  {
    hide FilterMap, NetworkOf, Inside, ValidIp, FieldVerdict, HostVerdict, FieldsOf;
    FieldsPass(v);
    HostsPass(v);
  }

  ghost predicate EachSound(extra: seq<Vlan>)
  {
    forall i :: 0 <= i < |extra| ==> SoundScope(extra[i])
  }

  lemma {:induction false} EachPasses(extra: seq<Vlan>)
    ensures EachProblems(extra) == [] <==> EachSound(extra)
  {
    if extra != [] {
      hide *;
      var init, last := extra[..|extra| - 1], extra[|extra| - 1];
      EachPasses(init);
      ScopePasses(last);
      EachProblemsStep(extra);
      EachSoundStep(extra);
    }
  }

  lemma EachProblemsStep(extra: seq<Vlan>)
    requires extra != []
    ensures EachProblems(extra) == EachProblems(extra[..|extra| - 1]) + ScopeProblems(extra[|extra| - 1])
  {
    hide ScopeProblems;
  }

  lemma EachSoundStep(extra: seq<Vlan>)
    requires extra != []
    ensures EachSound(extra) <==> EachSound(extra[..|extra| - 1]) && SoundScope(extra[|extra| - 1])
  {
    hide SoundScope;
    var init := extra[..|extra| - 1];
    assert forall i :: 0 <= i < |init| ==> init[i] == extra[i];
  }

  ghost predicate Apart(s: seq<Vlan>)
    requires forall i :: 0 <= i < |s| ==> NetworkOf(s[i]).Some?
  {
    forall i, j :: 0 <= i < j < |s| ==> ShareNoAddress(s[i], s[j])
  }

  lemma ApartStep(s: seq<Vlan>)
    requires forall i :: 0 <= i < |s| ==> NetworkOf(s[i]).Some?
    requires s != []
    ensures Apart(s) <==> (forall j :: 0 <= j < |s[1..]| ==> ShareNoAddress(s[0], s[1..][j])) && Apart(s[1..])
  {
    hide NetworkOf, ShareNoAddress;
    var rest := s[1..];
    if (forall j :: 0 <= j < |rest| ==> ShareNoAddress(s[0], rest[j])) && Apart(rest) {
      forall i, j | 0 <= i < j < |s| ensures ShareNoAddress(s[i], s[j]) {
        assert s[j] == rest[j - 1];
        if i > 0 {
          assert s[i] == rest[i - 1];
        }
      }
    }
  }

  lemma {:induction false} PairsPass(extra: seq<Vlan>)
    requires forall i :: 0 <= i < |extra| ==> NetworkOf(extra[i]).Some?
    ensures PairProblems(extra) == [] <==> Apart(extra)
  {
    if extra != [] {
      hide NetworkOf, Overlap, ShareNoAddress, FilterMap, Apart;
      var a, rest := extra[0], extra[1..];
      PairsPass(rest);
      ApartStep(extra);
      NoneCollected(rest, b => PairVerdict(a, b));
      forall j | 0 <= j < |rest| ensures PairVerdict(a, rest[j]).None? <==> ShareNoAddress(a, rest[j]) {
        OverlapMeans(a, rest[j]);
      }
    }
  }

  /** The gate opens exactly for a sound set: every gateway, range end and host of an extra scope lies
      in its subnet, and no address belongs to two of the subnets. */
  lemma GateIffSound(vlans: seq<Vlan>)
    ensures Problems(vlans) == [] <==> Sound(Extra(vlans))
  {
    hide ScopeProblems, SoundScope, NetworkOf, ShareNoAddress, EachProblems, PairProblems, Extra;
    var extra := Extra(vlans);
    EachPasses(extra);
    if EachSound(extra) {
      PairsPass(extra);
    }
  }

  // --- What is reported ---

  ghost predicate ExtraOf(vlans: seq<Vlan>, v: Vlan)
  {
    v in vlans && !v.isPrimary
  }

  /** The field of a scope by its name. */
  ghost predicate FieldIs(v: Vlan, field: string, ip: string)
  {
    (field == "gateway" && ip == v.gateway) || (field == "range_start" && ip == v.rangeStart) || (field == "range_end" && ip == v.rangeEnd)
  }

  /** Whether a problem is one of this scope, and which. */
  ghost predicate ProblemOf(v: Vlan, p: Problem)
  {
    match p
    case InvalidSubnet(u) => u == v && NetworkOf(v).None?
    case InvalidField(u, field) => u == v && NetworkOf(v).Some? && exists ip :: FieldIs(v, field, ip) && !ValidIp(ip)
    case FieldOutside(u, field) =>
      u == v && NetworkOf(v).Some? && exists ip :: FieldIs(v, field, ip) && ValidIp(ip) && !NetworkOf(v).value.Has(ParseAddress(ip).value)
    case InvalidHost(u, h) => u == v && NetworkOf(v).Some? && h in v.hosts && !ValidIp(h.ip)
    case HostOutside(u, h) =>
      u == v && NetworkOf(v).Some? && h in v.hosts && ValidIp(h.ip) && !NetworkOf(v).value.Has(ParseAddress(h.ip).value)
    case OverlappingPair(_, _) => false
  }

  lemma FieldsHave(v: Vlan, field: string, ip: string)
    ensures (field, ip) in FieldsOf(v) <==> FieldIs(v, field, ip)
  {
    var fields := FieldsOf(v);
    assert fields[0] == ("gateway", v.gateway) && fields[1] == ("range_start", v.rangeStart) && fields[2] == ("range_end", v.rangeEnd);
  }

  lemma FieldVerdictIs(v: Vlan, field: string, ip: string, p: Problem)
    requires NetworkOf(v).Some?
    ensures FieldVerdict(v, (field, ip)) == Some(p)
       <==> (p == InvalidField(v, field) && !ValidIp(ip))
            || (p == FieldOutside(v, field) && ValidIp(ip) && !NetworkOf(v).value.Has(ParseAddress(ip).value))
  {
    hide NetworkOf, ParseAddress;
  }

  lemma FieldProblem(v: Vlan, p: Problem)
    requires NetworkOf(v).Some?
    ensures p in FilterMap(FieldsOf(v), f => FieldVerdict(v, f)) <==> (p.InvalidField? || p.FieldOutside?) && ProblemOf(v, p)
  {
    var fields := FieldsOf(v);
    hide ParseAddress, FilterMap, FieldsOf, FieldVerdict, FieldIs;
    if (p.InvalidField? || p.FieldOutside?) && ProblemOf(v, p) {
      var ip :| FieldIs(v, p.field, ip) && (p.InvalidField? ==> !ValidIp(ip))
        && (p.FieldOutside? ==> ValidIp(ip) && !NetworkOf(v).value.Has(ParseAddress(ip).value));
      FieldsHave(v, p.field, ip);
      FieldVerdictIs(v, p.field, ip, p);
    }
    if p in FilterMap(fields, f => FieldVerdict(v, f)) {
      var f :| f in fields && FieldVerdict(v, f) == Some(p);
      FieldsHave(v, f.0, f.1);
      FieldVerdictIs(v, f.0, f.1, p);
    }
  }

  lemma HostProblem(v: Vlan, p: Problem)
    requires NetworkOf(v).Some?
    ensures p in FilterMap(v.hosts, h => HostVerdict(v, h)) <==> (p.InvalidHost? || p.HostOutside?) && ProblemOf(v, p)
  {
    hide NetworkOf, ParseAddress, FilterMap;
    if (p.InvalidHost? || p.HostOutside?) && ProblemOf(v, p) {
      assert HostVerdict(v, p.h) == Some(p);
    }
    if p in FilterMap(v.hosts, h => HostVerdict(v, h)) {
      var h :| h in v.hosts && HostVerdict(v, h) == Some(p);
    }
  }

  lemma ScopeProblem(v: Vlan, p: Problem)
    ensures p in ScopeProblems(v) <==> ProblemOf(v, p)
  {
    hide NetworkOf, ParseAddress, FilterMap, FieldVerdict, HostVerdict, FieldsOf, FieldIs;
    if NetworkOf(v).Some? {
      FieldProblem(v, p);
      HostProblem(v, p);
    }
  }

  lemma {:induction false} EachProblem(extra: seq<Vlan>, p: Problem)
    ensures p in EachProblems(extra) <==> exists v :: v in extra && ProblemOf(v, p)
  {
    hide ScopeProblems, ProblemOf;
    if extra != [] {
      var init, last := extra[..|extra| - 1], extra[|extra| - 1];
      EachProblem(init, p);
      ScopeProblem(last, p);
      assert forall v :: v in extra <==> v in init || v == last;
    }
  }

  /** Two scopes in order, both well formed, that share an address. */
  ghost predicate PairOf(extra: seq<Vlan>, p: Problem, i: int, j: int)
  {
    && 0 <= i < j < |extra| && p == OverlappingPair(extra[i], extra[j]) && NetworkOf(extra[i]).Some? && NetworkOf(extra[j]).Some?
    && !ShareNoAddress(extra[i], extra[j])
  }

  lemma PairVerdictIs(a: Vlan, b: Vlan, p: Problem)
    ensures PairVerdict(a, b) == Some(p)
       <==> p == OverlappingPair(a, b) && NetworkOf(a).Some? && NetworkOf(b).Some? && !ShareNoAddress(a, b)
  {
    hide NetworkOf, Overlap, ShareNoAddress;
    if NetworkOf(a).Some? && NetworkOf(b).Some? {
      OverlapMeans(a, b);
    }
  }

  lemma PairsOfFirst(extra: seq<Vlan>, p: Problem)
    requires extra != []
    ensures p in PairsWith(extra[0], extra[1..]) <==> exists j :: PairOf(extra, p, 0, j)
  {
    hide *;
    if p in PairsWith(extra[0], extra[1..]) {
      var j := PairsWithAt(extra, p);
      PairIs(extra, p, j);
    }
    if j :| PairOf(extra, p, 0, j) {
      PairIs(extra, p, j);
      PairsWithHas(extra, j, p);
    }
  }

  lemma PairsWithAt(extra: seq<Vlan>, p: Problem) returns (j: nat)
    requires extra != [] && p in PairsWith(extra[0], extra[1..])
    ensures 0 < j < |extra| && PairVerdict(extra[0], extra[j]) == Some(p)
  {
    hide FilterMap, PairVerdict;
    var others := extra[1..];
    var b :| b in others && PairVerdict(extra[0], b) == Some(p);
    var k :| 0 <= k < |others| && others[k] == b;
    j := k + 1;
  }

  lemma PairsWithHas(extra: seq<Vlan>, j: int, p: Problem)
    requires 0 < j < |extra| && PairVerdict(extra[0], extra[j]) == Some(p)
    ensures p in PairsWith(extra[0], extra[1..])
  {
    hide FilterMap, PairVerdict;
    var a, others := extra[0], extra[1..];
    var f := b => PairVerdict(a, b);
    assert others[j - 1] in others && f(others[j - 1]) == Some(p);
  }

  lemma PairIs(extra: seq<Vlan>, p: Problem, j: int)
    ensures PairOf(extra, p, 0, j) <==> 0 < j < |extra| && PairVerdict(extra[0], extra[j]) == Some(p)
  {
    hide NetworkOf, ShareNoAddress, PairVerdict;
    if 0 < j < |extra| {
      PairVerdictIs(extra[0], extra[j], p);
    }
  }

  lemma PairsOfRest(extra: seq<Vlan>, p: Problem)
    requires extra != []
    ensures (exists i, j :: PairOf(extra, p, i, j)) <==> (exists j :: PairOf(extra, p, 0, j)) || exists i, j :: PairOf(extra[1..], p, i, j)
  {
    hide NetworkOf, ShareNoAddress;
    var rest := extra[1..];
    if i, j :| PairOf(rest, p, i, j) {
      assert PairOf(extra, p, i + 1, j + 1);
    }
    if i, j :| PairOf(extra, p, i, j) && i > 0 {
      assert PairOf(rest, p, i - 1, j - 1);
    }
  }

  lemma {:induction false} PairProblem(extra: seq<Vlan>, p: Problem)
    ensures p in PairProblems(extra) <==> exists i, j :: PairOf(extra, p, i, j)
  {
    if extra != [] {
      PairProblem(extra[1..], p);
      PairsOfFirst(extra, p);
      PairsOfRest(extra, p);
      hide PairsWith, PairOf;
    }
  }

  /** Each problem of an extra scope is reported and nothing else: a malformed subnet alone, or every field and
      host that is no address or outside; and every pair of extra scopes that share an address. */
  lemma ProblemsAre(vlans: seq<Vlan>, p: Problem)
    ensures p in Problems(vlans) <==> (exists v :: ExtraOf(vlans, v) && ProblemOf(v, p)) || exists i, j :: PairOf(Extra(vlans), p, i, j)
  {
    hide EachProblems, PairProblems, ProblemOf, PairOf;
    EachProblem(Extra(vlans), p);
    PairProblem(Extra(vlans), p);
    forall v ensures v in Extra(vlans) <==> ExtraOf(vlans, v) {
    }
  }
}
