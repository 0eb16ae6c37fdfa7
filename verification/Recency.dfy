/** Last-writer-wins over whole histories: windows of edits, each closed by a replication run,
    on a fixed list of reachable nodes, with any pushes failing. */
module Recency {
  import opened Common
  import opened Ledger

  datatype Edit<V> = Edit(ip: Ip, value: Option<V>)

  /** The edits users make between two runs, and then the run: its time and who accepts a push. */
  datatype Window<V> = Window(edits: seq<Edit<V>>, now: int, accepts: set<Ip>)

  type History<V> = seq<Window<V>>

  function ApplyEdits<V>(values: Values<V>, edits: seq<Edit<V>>): (r: Values<V>)
    ensures values.Keys <= r.Keys
    decreases |edits|
  {
    if edits == [] then values
    else ApplyEdits(values[edits[0].ip := edits[0].value], edits[1..])
  }

  /** The fleet and the ledger after a history, from an empty ledger. */
  function After<V(==)>(nodes: seq<Ip>, start: Values<V>, h: History<V>): (s: Site<V>)
    requires nodes != [] && Covers(nodes, start)
    ensures Covers(nodes, s.values)
    decreases |h|, 1
  {
    if h == [] then Site(start, map[])
    else Round(nodes, AtRun(nodes, start, h), h[|h| - 1].now, h[|h| - 1].accepts)
  }

  /** What the last run of the history finds, before it pushes. */
  function AtRun<V(==)>(nodes: seq<Ip>, start: Values<V>, h: History<V>): (s: Site<V>)
    requires nodes != [] && Covers(nodes, start) && h != []
    ensures Covers(nodes, s.values)
    decreases |h|, 0
  {
    var before := After(nodes, start, h[..|h| - 1]);
    before.(values := ApplyEdits(before.values, h[|h| - 1].edits))
  }

  function LastWinner<V(==)>(nodes: seq<Ip>, start: Values<V>, h: History<V>): Entry<V>
    requires nodes != [] && Covers(nodes, start) && h != []
  {
    Winner(nodes, SeenAtRun(nodes, start, h))
  }

  /** Some edit of window k shows at the node: when run k looks, it holds something else than run
      k - 1 left there. The first run has seen nothing before, so it sees every node as edited. */
  ghost predicate EditShows<V>(nodes: seq<Ip>, start: Values<V>, h: History<V>, k: int, ip: Ip)
    requires nodes != [] && Covers(nodes, start) && 0 <= k < |h|
  {
    && ip in nodes
    && (k == 0 || AtRun(nodes, start, h[..k + 1]).values[ip] != After(nodes, start, h[..k]).values[ip])
  }

  /** Window k authored the value: an edit that shows in it put the value on some node. */
  ghost predicate Authored<V>(nodes: seq<Ip>, start: Values<V>, h: History<V>, k: int, v: Option<V>)
    requires nodes != [] && Covers(nodes, start) && 0 <= k < |h|
  {
    exists ip :: EditShows(nodes, start, h, k, ip) && AtRun(nodes, start, h[..k + 1]).values[ip] == v
  }

  ghost predicate AnyEditShows<V>(nodes: seq<Ip>, start: Values<V>, h: History<V>, k: int)
    requires nodes != [] && Covers(nodes, start) && 0 <= k < |h|
  {
    exists ip :: EditShows(nodes, start, h, k, ip)
  }

  lemma FirstWindowShows<V>(nodes: seq<Ip>, start: Values<V>, h: History<V>)
    requires nodes != [] && Covers(nodes, start) && h != []
    ensures AnyEditShows(nodes, start, h, 0)
  {
    assert EditShows(nodes, start, h, 0, nodes[0]);
  }

  /** Window k is the latest in which any edit shows at any node. */
  ghost predicate IsLatest<V>(nodes: seq<Ip>, start: Values<V>, h: History<V>, k: int, n: nat)
    requires nodes != [] && Covers(nodes, start) && n <= |h|
  {
    && 0 <= k < n && AnyEditShows(nodes, start, h, k)
    && forall j :: k < j < n ==> !AnyEditShows(nodes, start, h, j)
  }

  lemma {:induction false} LatestExists<V>(nodes: seq<Ip>, start: Values<V>, h: History<V>, n: nat)
    requires nodes != [] && Covers(nodes, start) && 0 < n <= |h|
    ensures exists k :: IsLatest(nodes, start, h, k, n)
  {
    hide AnyEditShows, Covers;
    FirstWindowShows(nodes, start, h);
    if AnyEditShows(nodes, start, h, n - 1) {
      assert IsLatest(nodes, start, h, n - 1, n);
    } else {
      assert n - 1 != 0;
      LatestExists(nodes, start, h, n - 1);
      var k :| IsLatest(nodes, start, h, k, n - 1);
      assert IsLatest(nodes, start, h, k, n);
    }
  }

  ghost function LatestWindow<V>(nodes: seq<Ip>, start: Values<V>, h: History<V>): (k: nat)
    requires nodes != [] && Covers(nodes, start) && h != []
    ensures IsLatest(nodes, start, h, k, |h|)
  {
    LatestExists(nodes, start, h, |h|);
    var k :| IsLatest(nodes, start, h, k, |h|);
    k
  }

  ghost predicate Increasing<V>(h: History<V>)
  {
    forall i, j :: 0 <= i < j < |h| ==> h[i].now < h[j].now
  }

  /** The stamp of a node is the time of a run, and that run's window authored the value. */
  ghost predicate StampIsAuthor<V>(nodes: seq<Ip>, start: Values<V>, h: History<V>, e: Entry<V>, k: int)
    requires nodes != [] && Covers(nodes, start)
  {
    0 <= k < |h| && e.changedAt == h[k].now && Authored(nodes, start, h, k, e.value)
  }

  ghost predicate HasAuthor<V>(nodes: seq<Ip>, start: Values<V>, h: History<V>, e: Entry<V>)
    requires nodes != [] && Covers(nodes, start)
  {
    exists k :: StampIsAuthor(nodes, start, h, e, k)
  }

  /** What the last run stamps and sees. */
  function SeenAtRun<V(==)>(nodes: seq<Ip>, start: Values<V>, h: History<V>): (seen: Stamps<V>)
    requires nodes != [] && Covers(nodes, start) && h != []
    ensures Covers(nodes, seen)
  {
    var s := AtRun(nodes, start, h);
    Observe(nodes, s.values, s.ledger, h[|h| - 1].now)
  }

  /** The ledger knows exactly the nodes of the run and the values they were left with. */
  ghost predicate Recorded<V>(nodes: seq<Ip>, s: Site<V>)
  {
    && Covers(nodes, s.values)
    && s.ledger.Keys == (set ip | ip in nodes)
    && (forall ip :: ip in nodes ==> s.ledger[ip].value == s.values[ip])
  }

  /** A round leaves the ledger matching the fleet, with entries it saw and no others. */
  lemma RoundRecords<V>(nodes: seq<Ip>, s: Site<V>, now: int, accepts: set<Ip>)
    requires nodes != [] && Covers(nodes, s.values)
    ensures Recorded(nodes, Round(nodes, s, now, accepts))
    ensures
      var seen := Observe(nodes, s.values, s.ledger, now);
      forall ip :: ip in nodes ==> Round(nodes, s, now, accepts).ledger[ip] in {seen[ip], Winner(nodes, seen)}
  {
  }

  /** A window of the past means the same however the history goes on. */
  lemma PastIsFixed<V>(nodes: seq<Ip>, start: Values<V>, h: History<V>, w: Window<V>, k: int)
    requires nodes != [] && Covers(nodes, start) && 0 <= k < |h|
    ensures forall ip :: EditShows(nodes, start, h + [w], k, ip) <==> EditShows(nodes, start, h, k, ip)
    ensures forall v :: Authored(nodes, start, h + [w], k, v) <==> Authored(nodes, start, h, k, v)
  {
    assert (h + [w])[..k + 1] == h[..k + 1] && (h + [w])[..k] == h[..k];
    forall ip ensures EditShows(nodes, start, h + [w], k, ip) <==> EditShows(nodes, start, h, k, ip) {
    }
    forall v ensures Authored(nodes, start, h + [w], k, v) <==> Authored(nodes, start, h, k, v) {
      if ip :| EditShows(nodes, start, h + [w], k, ip) && AtRun(nodes, start, (h + [w])[..k + 1]).values[ip] == v {
        assert EditShows(nodes, start, h, k, ip);
      }
      if ip :| EditShows(nodes, start, h, k, ip) && AtRun(nodes, start, h[..k + 1]).values[ip] == v {
        assert EditShows(nodes, start, h + [w], k, ip);
      }
    }
  }

  /** What the run of w sees at a node is either what the ledger knew there, or a value this
      window authored, stamped now. */
  lemma SeenNowOrBefore<V>(nodes: seq<Ip>, start: Values<V>, g: History<V>, w: Window<V>, ip: Ip)
    requires nodes != [] && Covers(nodes, start) && ip in nodes
    requires g != [] ==> Recorded(nodes, After(nodes, start, g))
    ensures
      var e := SeenAtRun(nodes, start, g + [w])[ip];
      if EditShows(nodes, start, g + [w], |g|, ip)
      then e.changedAt == w.now && StampIsAuthor(nodes, start, g + [w], e, |g|)
      else g != [] && e == After(nodes, start, g).ledger[ip]
  {
    var h := g + [w];
    assert h[..|g|] == g && h[..|g| + 1] == h;
    var before, s := After(nodes, start, g), AtRun(nodes, start, h);
    assert s.ledger == before.ledger;
    var e := SeenAtRun(nodes, start, h)[ip];
    if EditShows(nodes, start, h, |g|, ip) {
      assert g == [] || s.values[ip] != before.ledger[ip].value;
      assert e == Entry(s.values[ip], w.now);
      assert Authored(nodes, start, h, |g|, e.value);
    }
  }

  /** Every stamp in the ledger is the time of the run that saw the window which authored the value
      the node holds now: a push copies a stamp and never makes one. */
  lemma {:induction false} StampsHaveAuthors<V>(nodes: seq<Ip>, start: Values<V>, h: History<V>)
    requires nodes != [] && Covers(nodes, start) && h != []
    ensures Recorded(nodes, After(nodes, start, h))
    ensures forall ip :: ip in nodes ==> HasAuthor(nodes, start, h, After(nodes, start, h).ledger[ip])
    decreases |h|, 1
  {
    RoundRecords(nodes, AtRun(nodes, start, h), h[|h| - 1].now, h[|h| - 1].accepts);
    var seen := SeenAtRun(nodes, start, h);
    var w := nodes[Leader(nodes, seen, |nodes|)];
    SeenHasAuthor(nodes, start, h, w);
    forall ip | ip in nodes ensures HasAuthor(nodes, start, h, After(nodes, start, h).ledger[ip]) {
      SeenHasAuthor(nodes, start, h, ip);
      assert After(nodes, start, h).ledger[ip] in {seen[ip], seen[w]};
    }
  }

  lemma {:induction false} SeenHasAuthor<V>(nodes: seq<Ip>, start: Values<V>, h: History<V>, ip: Ip)
    requires nodes != [] && Covers(nodes, start) && h != [] && ip in nodes
    ensures HasAuthor(nodes, start, h, SeenAtRun(nodes, start, h)[ip])
    decreases |h|, 0
  {
    var g, w := h[..|h| - 1], h[|h| - 1];
    assert h == g + [w];
    if g != [] {
      StampsHaveAuthors(nodes, start, g);
    }
    SeenNowOrBefore(nodes, start, g, w, ip);
    var e := SeenAtRun(nodes, start, h)[ip];
    if EditShows(nodes, start, h, |g|, ip) {
      assert StampIsAuthor(nodes, start, h, e, |g|);
    } else {
      var k :| StampIsAuthor(nodes, start, g, e, k);
      PastIsFixed(nodes, start, g, w, k);
      assert StampIsAuthor(nodes, start, h, e, k);
    }
  }

  lemma QuietKeepsLatest<V>(nodes: seq<Ip>, start: Values<V>, g: History<V>, w: Window<V>)
    requires nodes != [] && Covers(nodes, start)
    requires !AnyEditShows(nodes, start, g + [w], |g|)
    ensures g != [] && LatestWindow(nodes, start, g + [w]) == LatestWindow(nodes, start, g)
  {
    var h := g + [w];
    if g == [] {
      assert EditShows(nodes, start, h, 0, nodes[0]);
    } else {
      forall k | 0 <= k < |g| ensures AnyEditShows(nodes, start, h, k) <==> AnyEditShows(nodes, start, g, k) {
        PastIsFixed(nodes, start, g, w, k);
      }
    }
  }

  lemma WinnerHasAuthor<V>(nodes: seq<Ip>, start: Values<V>, h: History<V>)
    requires nodes != [] && Covers(nodes, start) && h != []
    ensures HasAuthor(nodes, start, h, LastWinner(nodes, start, h))
  {
    hide HasAuthor, SeenAtRun;
    SeenHasAuthor(nodes, start, h, nodes[Leader(nodes, SeenAtRun(nodes, start, h), |nodes|)]);
  }

  /** Last writer wins, over every history: the winner of the last run carries the stamp of the
      latest window in which any edit shows, and that window authored its value, whichever pushes
      failed on the way. */
  lemma LatestEditWins<V>(nodes: seq<Ip>, start: Values<V>, h: History<V>)
    requires nodes != [] && Covers(nodes, start) && h != [] && Increasing(h)
    ensures
      var k := LatestWindow(nodes, start, h);
      var w := LastWinner(nodes, start, h);
      w.changedAt == h[k].now && Authored(nodes, start, h, k, w.value)
  {
    hide LastWinner, Authored, LatestWindow, Covers, AnyEditShows;
    var latest := LatestWindow(nodes, start, h);
    var e := LastWinner(nodes, start, h);
    WinnerHasAuthor(nodes, start, h);
    var k :| StampIsAuthor(nodes, start, h, e, k);
    WinnerIsAsRecent(nodes, start, h);
    AuthorsAreNotLater(nodes, start, h, k, e.value);
    assert h[k].now >= h[latest].now;
  }

  lemma AuthorsAreNotLater<V>(nodes: seq<Ip>, start: Values<V>, h: History<V>, k: int, v: Option<V>)
    requires nodes != [] && Covers(nodes, start) && 0 <= k < |h| && Authored(nodes, start, h, k, v)
    ensures k <= LatestWindow(nodes, start, h)
  {
    assert AnyEditShows(nodes, start, h, k);
  }

  lemma {:induction false} WinnerIsAsRecent<V>(nodes: seq<Ip>, start: Values<V>, h: History<V>)
    requires nodes != [] && Covers(nodes, start) && h != [] && Increasing(h)
    ensures LastWinner(nodes, start, h).changedAt >= h[LatestWindow(nodes, start, h)].now
    decreases |h|
  {
    var g, w := h[..|h| - 1], h[|h| - 1];
    assert h == g + [w];
    if AnyEditShows(nodes, start, g + [w], |g|) {
      WinnerAfterEdit(nodes, start, g, w);
    } else {
      QuietKeepsLatest(nodes, start, g, w);
      WinnerIsAsRecent(nodes, start, g);
      WinnerAfterQuiet(nodes, start, g, w);
    }
  }

  lemma AfterIsRecorded<V>(nodes: seq<Ip>, start: Values<V>, h: History<V>)
    requires nodes != [] && Covers(nodes, start) && h != []
    ensures Recorded(nodes, After(nodes, start, h))
  {
    RoundRecords(nodes, AtRun(nodes, start, h), h[|h| - 1].now, h[|h| - 1].accepts);
  }

  lemma WinnerAfterEdit<V>(nodes: seq<Ip>, start: Values<V>, g: History<V>, w: Window<V>)
    requires nodes != [] && Covers(nodes, start) && AnyEditShows(nodes, start, g + [w], |g|)
    ensures LastWinner(nodes, start, g + [w]).changedAt >= w.now
  {
    if g != [] {
      AfterIsRecorded(nodes, start, g);
    }
    var ip :| EditShows(nodes, start, g + [w], |g|, ip);
    SeenNowOrBefore(nodes, start, g, w, ip);
    hide After, AtRun, Observe, Winner;
    WinnerTops(nodes, SeenAtRun(nodes, start, g + [w]), ip);
  }

  lemma WinnerAfterQuiet<V>(nodes: seq<Ip>, start: Values<V>, g: History<V>, w: Window<V>)
    requires nodes != [] && Covers(nodes, start) && g != [] && !AnyEditShows(nodes, start, g + [w], |g|)
    ensures LastWinner(nodes, start, g + [w]).changedAt >= LastWinner(nodes, start, g).changedAt
  {
    AfterIsRecorded(nodes, start, g);
    var ip := WinnerKeepsItsEntry(nodes, start, g);
    assert !EditShows(nodes, start, g + [w], |g|, ip);
    SeenNowOrBefore(nodes, start, g, w, ip);
    WinnerTops(nodes, SeenAtRun(nodes, start, g + [w]), ip);
  }

  lemma WinnerKeepsItsEntry<V>(nodes: seq<Ip>, start: Values<V>, h: History<V>) returns (ip: Ip)
    requires nodes != [] && Covers(nodes, start) && h != []
    requires Recorded(nodes, After(nodes, start, h))
    ensures ip in nodes && After(nodes, start, h).ledger[ip] == LastWinner(nodes, start, h)
  {
    var seen := SeenAtRun(nodes, start, h);
    ip := nodes[Leader(nodes, seen, |nodes|)];
    var s := AtRun(nodes, start, h);
    assert seen[ip].value == s.values[ip];
    assert After(nodes, start, h) == Round(nodes, s, h[|h| - 1].now, h[|h| - 1].accepts);
  }

  // --- Convergence: no further edits ---

  /** Runs with nothing edited in between, given by their times and who accepts. */
  function QuietRuns<V(==)>(nodes: seq<Ip>, s: Site<V>, runs: seq<(int, set<Ip>)>): (r: Site<V>)
    requires nodes != [] && Covers(nodes, s.values)
    ensures Covers(nodes, r.values)
    decreases |runs|
  {
    if runs == [] then s
    else QuietRuns(nodes, Round(nodes, s, runs[0].0, runs[0].1), runs[1..])
  }

  ghost function Behind<V>(nodes: seq<Ip>, s: Site<V>, now: int): set<Ip>
    requires nodes != [] && Covers(nodes, s.values)
  {
    set ip | ip in nodes && s.values[ip] != Pick(nodes, s, now).value
  }

  ghost function EverAccepted(runs: seq<(int, set<Ip>)>): set<Ip>
    decreases |runs|
  {
    if runs == [] then {} else runs[0].1 + EverAccepted(runs[1..])
  }

  /** After a run, the next one without edits picks the same entry and is behind on exactly the
      nodes that refused. */
  lemma WinnerIsStable<V>(nodes: seq<Ip>, s: Site<V>, now: int, accepts: set<Ip>, next: int)
    requires nodes != [] && Covers(nodes, s.values)
    ensures
      var r := Round(nodes, s, now, accepts);
      && Pick(nodes, r, next) == Pick(nodes, s, now)
      && Behind(nodes, r, next) == Behind(nodes, s, now) - accepts
  {
    var r := Round(nodes, s, now, accepts);
    var seen := Observe(nodes, s.values, s.ledger, now);
    var again := Observe(nodes, r.values, r.ledger, next);
    var k, k' := Leader(nodes, seen, |nodes|), Leader(nodes, again, |nodes|);
    var w := seen[nodes[k]];
    assert again == r.ledger;
    assert forall ip :: ip in nodes ==> r.ledger[ip] == w || r.ledger[ip] == seen[ip];
    assert r.ledger[nodes[k]] == w;
  }

  /** Without edits the same value wins in every later run, whichever pushes fail, and a node stays
      behind exactly until it has accepted one push. */
  lemma {:induction false} QuietRunsConverge<V>(nodes: seq<Ip>, s: Site<V>, now: int, accepts: set<Ip>,
                                                runs: seq<(int, set<Ip>)>, next: int)
    requires nodes != [] && Covers(nodes, s.values)
    ensures
      var r := QuietRuns(nodes, Round(nodes, s, now, accepts), runs);
      && Recorded(nodes, r)
      && Pick(nodes, r, next) == Pick(nodes, s, now)
      && Behind(nodes, r, next) == Behind(nodes, s, now) - accepts - EverAccepted(runs)
    decreases |runs|
  {
    RoundRecords(nodes, s, now, accepts);
    if runs == [] {
      WinnerIsStable(nodes, s, now, accepts, next);
    } else {
      var t := Round(nodes, s, now, accepts);
      WinnerIsStable(nodes, s, now, accepts, runs[0].0);
      QuietRunsConverge(nodes, t, runs[0].0, runs[0].1, runs[1..], next);
    }
  }

  /** Once every stale node has accepted one push, all nodes hold the winner, and the next run
      pushes nothing and leaves fleet and ledger as they are. */
  lemma ConvergedRunIsIdle<V>(nodes: seq<Ip>, s: Site<V>, now: int, accepts: set<Ip>,
                              runs: seq<(int, set<Ip>)>, next: int, accepts': set<Ip>)
    requires nodes != [] && Covers(nodes, s.values)
    requires Behind(nodes, s, now) <= accepts + EverAccepted(runs)
    ensures
      var r := QuietRuns(nodes, Round(nodes, s, now, accepts), runs);
      && (forall ip :: ip in nodes ==> r.values[ip] == Pick(nodes, s, now).value)
      && Stale(nodes, r.values, Pick(nodes, r, next)) == []
      && Round(nodes, r, next, accepts') == r
  {
    QuietRunsConverge(nodes, s, now, accepts, runs, next);
    var r := QuietRuns(nodes, Round(nodes, s, now, accepts), runs);
    var w := Pick(nodes, r, next);
    assert forall ip :: ip in nodes ==> ip !in Behind(nodes, r, next);
    AgreedRoundIsIdle(nodes, r, next, accepts');
  }

  lemma AgreedRoundIsIdle<V>(nodes: seq<Ip>, r: Site<V>, now: int, accepts: set<Ip>)
    requires nodes != [] && Recorded(nodes, r)
    requires forall ip :: ip in nodes ==> r.values[ip] == Pick(nodes, r, now).value
    ensures Stale(nodes, r.values, Pick(nodes, r, now)) == []
    ensures Round(nodes, r, now, accepts) == r
  {
    var w := Pick(nodes, r, now);
    FilterNone(nodes, ip => ip in r.values && r.values[ip] != w.value);
    assert Observe(nodes, r.values, r.ledger, now) == r.ledger;
    assert Round(nodes, r, now, accepts).values == r.values;
    assert Round(nodes, r, now, accepts).ledger == r.ledger;
  }

  // --- Where recency stops: a node that missed a run ---

  /** The ledger keeps only the nodes of the latest run: a run over other nodes forgets the rest. A
      forgotten node is stamped as new when it returns, so the value it still holds, however old,
      wins over every edit the others saw since. */
  lemma ReturningNodeWins<V>(nodes: seq<Ip>, fleet: seq<Ip>, s: Site<V>, now: int, accepts: set<Ip>, back: Ip, next: int)
    requires nodes != [] && Covers(nodes, s.values) && back !in nodes
    requires fleet != [] && Covers(fleet, s.values) && back in fleet
    requires forall ip :: ip in fleet ==> ip == back || ip in nodes
    requires now < next && forall ip :: ip in nodes && ip in s.ledger ==> s.ledger[ip].changedAt <= now
    ensures Pick(fleet, Round(nodes, s, now, accepts), next) == Entry(s.values[back], next)
  {
    LoneChangeWins(fleet, Round(nodes, s, now, accepts), next, back);
  }
}
