/** Variables written back to the host's `.env` file, in place. */
module HostEnv {
  import opened Common
  import opened Text

  /** One `KEY=value` pair; a dictionary is its pairs in insertion order. */
  type Var = (string, string)

  // --- The file as lines ---

  /** Text mode reads "\r\n" and a lone "\r" as "\n". */
  function Translate(text: string): (r: string)
    ensures '\r' !in r
    ensures '\r' !in text ==> r == text
  {
    if text == "" then ""
    else if text[0] != '\r' then [text[0]] + Translate(text[1..])
    else if |text| > 1 && text[1] == '\n' then "\n" + Translate(text[2..])
    else "\n" + Translate(text[1..])
  }

  /** Both breaks become one line feed, and nothing else changes. */
  lemma {:induction false} TranslateBreaks(a: string, b: string)
    requires '\r' !in a
    ensures Translate(a + "\r\n" + b) == a + "\n" + Translate(b)
    ensures b == "" || b[0] != '\n' ==> Translate(a + "\r" + b) == a + "\n" + Translate(b)
  {
    hide *;
    var s, t := a + "\r\n" + b, a + "\r" + b;
    if a == "" {
      BreakFirst(b);
      assert s == "\r\n" + b && t == "\r" + b;
    } else {
      OtherFirst(a[0], a[1..] + "\r\n" + b);
      OtherFirst(a[0], a[1..] + "\r" + b);
      assert a == [a[0]] + a[1..];
      assert s == [a[0]] + (a[1..] + "\r\n" + b) && t == [a[0]] + (a[1..] + "\r" + b);
      TranslateBreaks(a[1..], b);
      var rest := Translate(b);
      assert [a[0]] + (a[1..] + "\n" + rest) == a + "\n" + rest;
    }
  }

  lemma BreakFirst(b: string)
    ensures Translate("\r\n" + b) == "\n" + Translate(b)
    ensures b == "" || b[0] != '\n' ==> Translate("\r" + b) == "\n" + Translate(b)
  {
    assert ("\r\n" + b)[2..] == b && ("\r" + b)[1..] == b;
  }

  lemma OtherFirst(c: char, s: string)
    requires c != '\r'
    ensures Translate([c] + s) == [c] + Translate(s)
  {
    assert ([c] + s)[1..] == s;
  }

  /** `readlines()`: each line with its line break; the last one may lack it. */
  function ReadLines(text: string): seq<string>
  {
    if text == "" then []
    else
      var k := IndexOf(text, '\n');
      if k == |text| then [text] else [text[..k + 1]] + ReadLines(text[k + 1..])
  }

  /** `writelines(lines)` */
  function Joined(lines: seq<string>): string
  {
    if lines == [] then "" else lines[0] + Joined(lines[1..])
  }

  predicate Ended(line: string)
  {
    line != "" && line[|line| - 1] == '\n'
  }

  /** A line break only at the end. */
  predicate IsLine(line: string)
  {
    line != "" && '\n' !in line[..|line| - 1]
  }

  ghost predicate AreLines(lines: seq<string>)
  {
    && (forall i :: 0 <= i < |lines| ==> IsLine(lines[i]))
    && (forall i :: 0 <= i < |lines| - 1 ==> Ended(lines[i]))
  }

  lemma {:induction false} ReadChars(text: string, c: char)
    requires c !in text
    ensures forall i :: 0 <= i < |ReadLines(text)| ==> c !in ReadLines(text)[i]
  {
    if text != "" {
      var k := IndexOf(text, '\n');
      if k < |text| {
        ReadChars(text[k + 1..], c);
      }
    }
  }

  lemma {:induction false} ReadsLines(text: string)
    ensures AreLines(ReadLines(text))
  {
    if text != "" {
      var k := IndexOf(text, '\n');
      if k < |text| {
        var l, rest := text[..k + 1], text[k + 1..];
        ReadsLines(rest);
        assert l[..|l| - 1] == text[..k];
        LinesCons(l, ReadLines(rest));
      } else {
        assert text[..|text|] == text;
      }
    }
  }

  lemma LinesCons(l: string, lines: seq<string>)
    requires IsLine(l) && Ended(l) && AreLines(lines)
    ensures AreLines([l] + lines)
  {
    hide IsLine, Ended;
    var r := [l] + lines;
    forall i | 0 <= i < |r| ensures IsLine(r[i]) && (i < |r| - 1 ==> Ended(r[i])) {
      if i > 0 {
        assert r[i] == lines[i - 1];
      }
    }
  }

  lemma ReadOne(l: string, text: string)
    requires IsLine(l)
    ensures Ended(l) ==> ReadLines(l + text) == [l] + ReadLines(text)
    ensures !Ended(l) ==> ReadLines(l) == [l]
  {
    if Ended(l) {
      var a := l[..|l| - 1];
      assert l + text == a + ['\n'] + text;
      IndexAfter(a, '\n', text);
      assert (l + text)[..|a| + 1] == l && (l + text)[|a| + 1..] == text;
    } else {
      assert l == l[..|l| - 1] + [l[|l| - 1]];
      IndexNone(l, '\n');
    }
  }

  lemma AreLinesTail(lines: seq<string>)
    requires AreLines(lines) && lines != []
    ensures IsLine(lines[0]) && AreLines(lines[1..]) && (lines[1..] != [] ==> Ended(lines[0]))
  {
    hide IsLine, Ended;
  }

  lemma {:induction false} ReadJoined(lines: seq<string>)
    requires AreLines(lines)
    ensures ReadLines(Joined(lines)) == lines
  {
    if lines != [] {
      hide AreLines, IsLine, Ended, ReadLines;
      var l, rest := lines[0], lines[1..];
      AreLinesTail(lines);
      ReadJoined(rest);
      ReadOne(l, Joined(rest));
      assert lines == [l] + rest;
      if !Ended(l) {
        assert rest == [] && l + Joined(rest) == l;
      }
    } else {
      assert ReadLines("") == [];
    }
  }

  lemma {:induction false} JoinedChars(lines: seq<string>, c: char)
    requires forall i :: 0 <= i < |lines| ==> c !in lines[i]
    ensures c !in Joined(lines)
  {
    if lines != [] {
      JoinedChars(lines[1..], c);
    }
  }

  // --- The update ---

  function KeyOf(line: string): string
  {
    line[..IndexOf(line, '=')]
  }

  predicate HasKey(line: string, key: string)
  {
    '=' in line && KeyOf(line) == key
  }

  function Assignment(u: Var): string
  {
    u.0 + "=" + u.1 + "\n"
  }

  function Without(vars: seq<Var>, key: string): seq<Var>
  {
    Filter(vars, (u: Var) => u.0 != key)
  }

  /** The value of a key among the remaining ones. */
  function Lookup(vars: seq<Var>, key: string): (r: Option<string>)
    ensures r.Some? ==> (key, r.value) in vars
    ensures r.None? ==> forall u :: u in vars ==> u.0 != key
  {
    if vars == [] then None else if vars[0].0 == key then Some(vars[0].1) else Lookup(vars[1..], key)
  }

  /** The lines after one pass, and the variables no line had. */
  function Rewrite(lines: seq<string>, vars: seq<Var>): (r: (seq<string>, seq<Var>))
    ensures |r.0| == |lines|
  {
    if lines == [] then ([], vars)
    else
      var rest, key := lines[1..], KeyOf(lines[0]);
      if '=' in lines[0] && Lookup(vars, key).Some? then
        var r := Rewrite(rest, Without(vars, key));
        ([Assignment((key, Lookup(vars, key).value))] + r.0, r.1)
      else
        var r := Rewrite(rest, vars);
        ([lines[0]] + r.0, r.1)
  }

  function Terminated(lines: seq<string>): (r: seq<string>)
    ensures |r| == |lines|
  {
    if lines == [] || Ended(lines[|lines| - 1]) then lines else lines[|lines| - 1 := lines[|lines| - 1] + "\n"]
  }

  function Written(lines: seq<string>, vars: seq<Var>): seq<string>
  {
    var (l, missing) := Rewrite(lines, vars);
    if missing == [] then l else Terminated(l) + Map(missing, Assignment)
  }

  /** The text of the file after an update. */
  function Updated(text: string, vars: seq<Var>): string
  {
    Joined(Written(ReadLines(Translate(text)), vars))
  }

  lemma RewriteStep(lines: seq<string>, vars: seq<Var>)
    requires lines != []
    ensures
      var line, key := lines[0], KeyOf(lines[0]);
      var found := if '=' in line then Lookup(vars, key) else None;
      && (found.Some? ==>
            && Rewrite(lines, vars).0 == [key + "=" + found.value + "\n"] + Rewrite(lines[1..], Without(vars, key)).0
            && Rewrite(lines, vars).1 == Rewrite(lines[1..], Without(vars, key)).1)
      && (found.None? ==>
            && Rewrite(lines, vars).0 == [line] + Rewrite(lines[1..], vars).0
            && Rewrite(lines, vars).1 == Rewrite(lines[1..], vars).1)
  {
    hide Lookup, KeyOf, Without;
  }

  lemma AssignmentIs(u: Var)
    ensures Assignment(u) == u.0 + "=" + u.1 + "\n"
  {
  }

  class EnvFile {
    /** None where the file is not mounted. */
    var text: Option<string>

    constructor (text: Option<string>)
      ensures this.text == text
    {
      this.text := text;
    }

    method WriteVars(updates: seq<Var>)
      modifies this
      ensures text == if old(text).None? || updates == [] then old(text) else Some(Updated(old(text).value, updates))
    {
      hide Rewrite, ReadLines, Translate, KeyOf, Lookup, Assignment, Joined, Ended, Without;
      if text.None? || updates == [] {
        return;
      }
      ghost var read := ReadLines(Translate(text.value));
      var lines, remaining := ReadLines(Translate(text.value)), updates;
      assert read[0..] == read;
      for i := 0 to |lines|
        invariant |lines| == |read| && lines[i..] == read[i..]
        invariant lines[..i] + Rewrite(read[i..], remaining).0 == Rewrite(read, updates).0
        invariant Rewrite(read[i..], remaining).1 == Rewrite(read, updates).1
        invariant text == old(text)
      {
        var line := lines[i];
        ghost var done, rest := lines[..i], read[i + 1..];
        assert read[i..][0] == line && read[i..][1..] == rest;
        RewriteStep(read[i..], remaining);
        if '=' !in line {
          assert lines[..i + 1] == done + [line];
          continue;
        }
        var key := KeyOf(line);
        var val := Lookup(remaining, key);
        if val.Some? {
          lines := lines[i := key + "=" + val.value + "\n"];
          remaining := Without(remaining, key);
        }
        assert lines[i + 1..] == rest;
        assert lines[..i + 1] == done + [lines[i]];
      }
      assert lines[..|lines|] == lines;
      assert Rewrite(read[|lines|..], remaining) == ([], remaining) by { RewriteNothing(remaining); }
      assert lines == Rewrite(read, updates).0 && remaining == Rewrite(read, updates).1;
      if remaining != [] {
        if lines != [] && !Ended(lines[|lines| - 1]) {
          lines := lines[|lines| - 1 := lines[|lines| - 1] + "\n"];
        }
        ghost var ended := lines;
        assert ended == Terminated(Rewrite(read, updates).0);
        assert Map(remaining[..0], Assignment) == [];
        for i := 0 to |remaining|
          invariant lines == ended + Map(remaining[..i], Assignment)
          invariant text == old(text)
        {
          MapStep(remaining, i, Assignment);
          AssignmentIs(remaining[i]);
          lines := lines + [remaining[i].0 + "=" + remaining[i].1 + "\n"];
        }
        assert remaining[..|remaining|] == remaining;
      }
      assert lines == Written(read, updates);
      text := Some(Joined(lines));
    }
  }

  lemma RewriteNothing(vars: seq<Var>)
    ensures Rewrite([], vars) == ([], vars)
  {
  }

  // --- What the update does to each line ---

  ghost predicate FirstLineOf(lines: seq<string>, key: string, i: nat)
  {
    && i < |lines| && HasKey(lines[i], key)
    && forall j :: 0 <= j < i ==> !HasKey(lines[j], key)
  }

  predicate NoLineHas(lines: seq<string>, key: string)
  {
    forall j | 0 <= j < |lines| :: !HasKey(lines[j], key)
  }

  function Missing(lines: seq<string>, vars: seq<Var>): seq<Var>
  {
    Filter(vars, (u: Var) => NoLineHas(lines, u.0))
  }

  lemma {:induction false} RewriteMissing(lines: seq<string>, vars: seq<Var>)
    ensures Rewrite(lines, vars).1 == Missing(lines, vars)
  {
    hide HasKey, KeyOf;
    if lines == [] {
      FilterAll(vars, (u: Var) => NoLineHas(lines, u.0));
    } else {
      var rest, key := lines[1..], KeyOf(lines[0]);
      var noLine, noRest := (u: Var) => NoLineHas(lines, u.0), (u: Var) => NoLineHas(rest, u.0);
      assert forall k :: NoLineHas(lines, k) <==> !HasKey(lines[0], k) && NoLineHas(rest, k) by {
        forall k ensures NoLineHas(lines, k) <==> !HasKey(lines[0], k) && NoLineHas(rest, k) {
          NoLineStep(lines, k);
        }
      }
      assert forall k :: HasKey(lines[0], k) <==> '=' in lines[0] && k == key by {
        HasKeyIs(lines[0]);
      }
      if '=' in lines[0] && Lookup(vars, key).Some? {
        RewriteMissing(rest, Without(vars, key));
        FilterTwice(vars, (u: Var) => u.0 != key, noRest, noLine);
      } else {
        RewriteMissing(rest, vars);
        FilterSame(vars, noRest, noLine);
      }
    }
  }

  lemma NoLineStep(lines: seq<string>, k: string)
    requires lines != []
    ensures NoLineHas(lines, k) <==> !HasKey(lines[0], k) && NoLineHas(lines[1..], k)
  {
    hide HasKey;
    if !HasKey(lines[0], k) && NoLineHas(lines[1..], k) {
      forall j | 0 <= j < |lines| ensures !HasKey(lines[j], k) {
        if j > 0 {
          assert lines[j] == lines[1..][j - 1];
        }
      }
    }
    if NoLineHas(lines, k) {
      forall j | 0 <= j < |lines[1..]| ensures !HasKey(lines[1..][j], k) {
        assert lines[1..][j] == lines[j + 1];
      }
    }
  }

  lemma HasKeyIs(line: string)
    ensures forall k :: HasKey(line, k) <==> '=' in line && k == KeyOf(line)
  {
  }

  lemma FirstLineStep(lines: seq<string>, key: string, i: nat)
    requires 0 < i < |lines|
    ensures FirstLineOf(lines, key, i) <==> !HasKey(lines[0], key) && FirstLineOf(lines[1..], key, i - 1)
  {
    hide HasKey;
    if !HasKey(lines[0], key) && FirstLineOf(lines[1..], key, i - 1) {
      forall j | 0 <= j < i ensures !HasKey(lines[j], key) {
        if j > 0 {
          assert lines[j] == lines[1..][j - 1];
        }
      }
    }
    if FirstLineOf(lines, key, i) {
      forall j | 0 <= j < i - 1 ensures !HasKey(lines[1..][j], key) {
        assert lines[1..][j] == lines[j + 1];
      }
    }
  }

  /** The first line of an updated key gets its new value; every other line stays. */
  lemma {:induction false} RewriteLine(lines: seq<string>, vars: seq<Var>, i: nat)
    requires DistinctKeys(vars) && i < |lines|
    ensures forall u :: u in vars && FirstLineOf(lines, u.0, i) ==> Rewrite(lines, vars).0[i] == Assignment(u)
    ensures (forall u :: u in vars ==> !FirstLineOf(lines, u.0, i)) ==> Rewrite(lines, vars).0[i] == lines[i]
  {
    hide KeyOf, HasKey, Assignment;
    HasKeyIs(lines[0]);
    var rest, key := lines[1..], KeyOf(lines[0]);
    if i == 0 {
      assert forall k :: FirstLineOf(lines, k, 0) <==> HasKey(lines[0], k);
      forall u | u in vars && FirstLineOf(lines, u.0, 0) ensures Rewrite(lines, vars).0[0] == Assignment(u) {
        SameKeySameVar(vars, u, (key, Lookup(vars, key).value));
      }
      if Lookup(vars, key).Some? && '=' in lines[0] {
        assert FirstLineOf(lines, (key, Lookup(vars, key).value).0, 0);
      }
    } else {
      forall k ensures FirstLineOf(lines, k, i) <==> !HasKey(lines[0], k) && FirstLineOf(rest, k, i - 1) {
        FirstLineStep(lines, k, i);
      }
      hide FirstLineOf;
      if '=' in lines[0] && Lookup(vars, key).Some? {
        DistinctWithout(vars, key);
        RewriteLine(rest, Without(vars, key), i - 1);
      } else {
        RewriteLine(rest, vars, i - 1);
      }
    }
  }

  lemma SameKeySameVar(vars: seq<Var>, u: Var, v: Var)
    requires DistinctKeys(vars) && u in vars && v in vars && u.0 == v.0
    ensures u == v
  {
  }

  lemma {:induction false} DistinctFilter(vars: seq<Var>, p: Var -> bool)
    requires DistinctKeys(vars)
    ensures DistinctKeys(Filter(vars, p))
  {
    if vars != [] {
      DistinctFilter(vars[1..], p);
      assert forall u :: u in Filter(vars[1..], p) ==> u in vars[1..] && u.0 != vars[0].0;
    }
  }

  lemma DistinctWithout(vars: seq<Var>, key: string)
    requires DistinctKeys(vars)
    ensures DistinctKeys(Without(vars, key))
  {
    DistinctFilter(vars, (u: Var) => u.0 != key);
  }

  /** Every line keeps its place: the first line of an updated key holds its new value, the other
      lines are as they were (an unterminated last line is ended when something follows it), and the
      keys without a line are appended once each, in their order. */
  lemma WrittenLines(lines: seq<string>, vars: seq<Var>)
    requires DistinctKeys(vars)
    ensures
      var r, missing := Written(lines, vars), Missing(lines, vars);
      && |r| == |lines| + |missing| && r[|lines|..] == Map(missing, Assignment)
      && forall i :: 0 <= i < |lines| ==>
           && (forall u :: u in vars && FirstLineOf(lines, u.0, i) ==> r[i] == Assignment(u))
           && ((forall u :: u in vars ==> !FirstLineOf(lines, u.0, i)) ==>
                 r[i] == Terminate(lines[i], i == |lines| - 1 && missing != []))
  {
    hide Rewrite, Missing, FirstLineOf;
    RewriteMissing(lines, vars);
    forall i | 0 <= i < |lines|
      ensures forall u :: u in vars && FirstLineOf(lines, u.0, i) ==> Written(lines, vars)[i] == Assignment(u)
      ensures (forall u :: u in vars ==> !FirstLineOf(lines, u.0, i)) ==>
        Written(lines, vars)[i] == Terminate(lines[i], i == |lines| - 1 && Missing(lines, vars) != [])
    {
      RewriteLine(lines, vars, i);
      assert forall u: Var :: Ended(Assignment(u));
    }
  }

  /** A line, ended if it was not and must be. */
  function Terminate(line: string, must: bool): string
  {
    if must && !Ended(line) then line + "\n" else line
  }

  // --- The same update again ---

  lemma KeyBeforeSign(key: string, rest: string)
    requires '=' !in key
    ensures HasKey(key + "=" + rest, key) && KeyOf(key + "=" + rest) == key
  {
    IndexAfter(key, '=', rest);
    assert key + "=" + rest == key + ['='] + rest;
    assert (key + "=" + rest)[|key|] == '=';
  }

  lemma AssignmentKey(u: Var)
    requires '=' !in u.0
    ensures forall k :: HasKey(Assignment(u), k) <==> k == u.0
  {
    KeyBeforeSign(u.0, u.1 + "\n");
    assert Assignment(u) == u.0 + "=" + (u.1 + "\n");
    HasKeyIs(Assignment(u));
  }

  lemma EndingKeepsKey(line: string)
    ensures forall k :: HasKey(line + "\n", k) <==> HasKey(line, k)
  {
    if '=' in line {
      var i := IndexOf(line, '=');
      assert line[..|line|] == line;
      var a, b := line[..i], line[i + 1..];
      assert line == a + ['='] + b && line + "\n" == a + ['='] + (b + "\n");
      IndexAfter(a, '=', b);
      IndexAfter(a, '=', b + "\n");
    }
  }

  /** The first line of the key in these lines is its assignment. */
  ghost predicate Settled(lines: seq<string>, u: Var, i: nat)
  {
    FirstLineOf(lines, u.0, i) && lines[i] == Assignment(u)
  }

  /** Where every variable is settled, an update finds nothing to change and nothing to append. */
  lemma SettledIsFixed(lines: seq<string>, vars: seq<Var>)
    requires DistinctKeys(vars) && forall u :: u in vars ==> exists i: nat :: Settled(lines, u, i)
    ensures Written(lines, vars) == lines
  {
    hide HasKey, Assignment, Rewrite;
    RewriteMissing(lines, vars);
    FilterNone(vars, (u: Var) => NoLineHas(lines, u.0));
    forall i | 0 <= i < |lines| ensures Rewrite(lines, vars).0[i] == lines[i] {
      RewriteLine(lines, vars, i);
      if u :| u in vars && FirstLineOf(lines, u.0, i) {
        var j: nat :| Settled(lines, u, j);
        assert !(i < j) && !(j < i);
      }
    }
  }

  /** A line of the result, from which key it has. */
  lemma WrittenKey(lines: seq<string>, vars: seq<Var>, i: nat, key: string)
    requires DistinctKeys(vars) && i < |lines|
    requires forall u :: u in vars ==> '=' !in u.0
    requires HasKey(Written(lines, vars)[i], key)
    ensures |Written(lines, vars)| >= |lines| && HasKey(lines[i], key)
  {
    hide HasKey, Assignment, Written, FirstLineOf;
    WrittenLines(lines, vars);
    if u :| u in vars && FirstLineOf(lines, u.0, i) {
      AssignmentKey(u);
      FirstHasKey(lines, u.0, i);
    } else {
      EndingKeepsKey(lines[i]);
    }
  }

  lemma FirstHasKey(lines: seq<string>, key: string, i: nat)
    requires FirstLineOf(lines, key, i)
    ensures i < |lines| && HasKey(lines[i], key)
  {
  }

  lemma FirstLine(lines: seq<string>, key: string) returns (i: nat)
    requires !NoLineHas(lines, key)
    ensures FirstLineOf(lines, key, i)
  {
    hide HasKey;
    var j :| 0 <= j < |lines| && HasKey(lines[j], key);
    i := 0;
    while !HasKey(lines[i], key)
      invariant i <= j && forall k :: 0 <= k < i ==> !HasKey(lines[k], key)
      decreases j - i
    {
      i := i + 1;
    }
  }

  /** After an update every one of its variables is settled. */
  lemma WrittenSettles(lines: seq<string>, vars: seq<Var>, u: Var)
    requires DistinctKeys(vars) && u in vars && forall x :: x in vars ==> '=' !in x.0
    ensures exists i: nat :: Settled(Written(lines, vars), u, i)
  {
    hide HasKey, Assignment, Written, NoLineHas, Missing;
    var r, missing := Written(lines, vars), Missing(lines, vars);
    WrittenLines(lines, vars);
    AssignmentKey(u);
    if !NoLineHas(lines, u.0) {
      var i := FirstLine(lines, u.0);
      assert r[i] == Assignment(u);
      forall j | 0 <= j < i ensures !HasKey(r[j], u.0) {
        if HasKey(r[j], u.0) {
          WrittenKey(lines, vars, j, u.0);
        }
      }
      assert Settled(r, u, i);
    } else {
      assert u in missing by { MissingHas(lines, vars, u); }
      var k :| 0 <= k < |missing| && missing[k] == u;
      var i := |lines| + k;
      assert r[i] == r[|lines|..][k] == Assignment(u);
      forall j | 0 <= j < i ensures !HasKey(r[j], u.0) {
        if j < |lines| {
          if HasKey(r[j], u.0) {
            WrittenKey(lines, vars, j, u.0);
            NoLineIs(lines, u.0, j);
          }
        } else {
          var x := missing[j - |lines|];
          assert r[j] == r[|lines|..][j - |lines|] == Assignment(x);
          assert x in vars by { MissingHas(lines, vars, x); }
          AssignmentKey(x);
          assert x.0 != u.0 by { MissingDistinct(lines, vars); }
        }
      }
      assert Settled(r, u, i);
    }
  }

  lemma MissingHas(lines: seq<string>, vars: seq<Var>, u: Var)
    ensures u in Missing(lines, vars) <==> u in vars && NoLineHas(lines, u.0)
  {
  }

  lemma MissingDistinct(lines: seq<string>, vars: seq<Var>)
    requires DistinctKeys(vars)
    ensures DistinctKeys(Missing(lines, vars))
  {
    DistinctFilter(vars, (u: Var) => NoLineHas(lines, u.0));
  }

  lemma NoLineIs(lines: seq<string>, key: string, j: nat)
    requires NoLineHas(lines, key) && j < |lines|
    ensures !HasKey(lines[j], key)
  {
  }

  /** Line breaks and carriage returns stay out of keys and values. */
  ghost predicate OneLine(u: Var)
  {
    '\n' !in u.0 && '\n' !in u.1 && '\r' !in u.0 && '\r' !in u.1
  }

  lemma AssignmentIsLine(u: Var)
    requires OneLine(u)
    ensures IsLine(Assignment(u)) && Ended(Assignment(u)) && '\r' !in Assignment(u)
  {
    assert Assignment(u)[..|Assignment(u)| - 1] == u.0 + "=" + u.1;
  }

  lemma TerminateIsLine(line: string, must: bool)
    requires IsLine(line) && '\r' !in line
    ensures IsLine(Terminate(line, must)) && '\r' !in Terminate(line, must) && (must || Ended(line) ==> Ended(Terminate(line, must)))
  {
    if must && !Ended(line) {
      assert (line + "\n")[..|line|] == line == line[..|line| - 1] + [line[|line| - 1]];
    }
  }

  /** One line of the result, as a line of the file. */
  lemma WrittenLine(lines: seq<string>, vars: seq<Var>, i: nat)
    requires DistinctKeys(vars) && AreLines(lines) && forall u :: u in vars ==> OneLine(u)
    requires forall j :: 0 <= j < |lines| ==> '\r' !in lines[j]
    requires i < |Written(lines, vars)|
    ensures
      var l := Written(lines, vars)[i];
      IsLine(l) && '\r' !in l && (i < |Written(lines, vars)| - 1 ==> Ended(l))
  {
    var r, missing := Written(lines, vars), Missing(lines, vars);
    hide HasKey, Assignment, Written, FirstLineOf, Missing, Terminate, OneLine, IsLine, Ended;
    WrittenLines(lines, vars);
    if i >= |lines| {
      var x := missing[i - |lines|];
      assert r[i] == r[|lines|..][i - |lines|] == Assignment(x);
      assert x in vars by { MissingHas(lines, vars, x); }
      AssignmentIsLine(x);
    } else if u :| u in vars && FirstLineOf(lines, u.0, i) {
      AssignmentIsLine(u);
    } else {
      TerminateIsLine(lines[i], i == |lines| - 1 && missing != []);
    }
  }

  lemma WrittenAreLines(lines: seq<string>, vars: seq<Var>)
    requires DistinctKeys(vars) && AreLines(lines) && forall u :: u in vars ==> OneLine(u)
    requires forall j :: 0 <= j < |lines| ==> '\r' !in lines[j]
    ensures AreLines(Written(lines, vars)) && '\r' !in Joined(Written(lines, vars))
  {
    hide Written, IsLine, Ended, OneLine;
    forall i | 0 <= i < |Written(lines, vars)|
      ensures IsLine(Written(lines, vars)[i]) && '\r' !in Written(lines, vars)[i]
      ensures i < |Written(lines, vars)| - 1 ==> Ended(Written(lines, vars)[i])
    {
      WrittenLine(lines, vars, i);
    }
    JoinedChars(Written(lines, vars), '\r');
  }

  /** What the next update reads is what this one wrote, line by line. */
  lemma ReadsBack(text: string, vars: seq<Var>)
    requires DistinctKeys(vars) && forall u :: u in vars ==> OneLine(u)
    ensures ReadLines(Translate(Updated(text, vars))) == Written(ReadLines(Translate(text)), vars)
  {
    hide Written, OneLine, ReadLines, Joined;
    var lines := ReadLines(Translate(text));
    ReadsLines(Translate(text));
    ReadChars(Translate(text), '\r');
    WrittenAreLines(lines, vars);
    ReadJoined(Written(lines, vars));
  }

  /** A second identical update leaves the file as it is exactly when no key contains '='. */
  lemma UpdateIsIdempotent(text: string, vars: seq<Var>)
    requires DistinctKeys(vars) && forall u :: u in vars ==> OneLine(u)
    ensures Updated(Updated(text, vars), vars) == Updated(text, vars) <==> forall u :: u in vars ==> '=' !in u.0
  {
    hide Written, OneLine, ReadLines, Translate, Joined, Settled;
    var lines := ReadLines(Translate(text));
    var once := Written(lines, vars);
    ReadsBack(text, vars);
    if forall u :: u in vars ==> '=' !in u.0 {
      forall u | u in vars ensures exists i: nat :: Settled(once, u, i) {
        WrittenSettles(lines, vars, u);
      }
      SettledIsFixed(once, vars);
    } else {
      var u :| u in vars && '=' in u.0;
      SignGrows(once, vars, u);
      ReadsBack(Updated(text, vars), vars);
    }
  }

  /** A key with a sign is never found in a line, so it is appended again. */
  lemma SignGrows(lines: seq<string>, vars: seq<Var>, u: Var)
    requires DistinctKeys(vars) && u in vars && '=' in u.0
    ensures |Written(lines, vars)| > |lines|
  {
    forall j | 0 <= j < |lines| ensures !HasKey(lines[j], u.0) {
    }
    hide HasKey, Written;
    WrittenLines(lines, vars);
    MissingHas(lines, vars, u);
  }
}
