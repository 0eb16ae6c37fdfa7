/** Strings as the source uses them: splitting, stripping, upper case, decimal numbers. */
module Text {

  /** White space as `str.strip` and `str.split(None)` see it. */
  predicate IsSpace(c: char)
  {
    || '\t' <= c <= '\r' || '\U{1c}' <= c <= ' ' || c == '\U{85}' || c == '\U{a0}' || c == '\U{1680}'
    || '\U{2000}' <= c <= '\U{200a}' || c in {'\U{2028}', '\U{2029}', '\U{202f}', '\U{205f}', '\U{3000}'}
  }

  /** These 29 characters are blanks. */
  lemma Blanks(c: char)
    ensures IsSpace(c) <==> c in {
      '\t', '\n', '\U{0b}', '\U{0c}', '\r', '\U{1c}', '\U{1d}', '\U{1e}', '\U{1f}', ' ', '\U{85}', '\U{a0}', '\U{1680}',
      '\U{2000}', '\U{2001}', '\U{2002}', '\U{2003}', '\U{2004}', '\U{2005}', '\U{2006}', '\U{2007}', '\U{2008}', '\U{2009}', '\U{200a}',
      '\U{2028}', '\U{2029}', '\U{202f}', '\U{205f}', '\U{3000}'}
  {
  }

  predicate IsDigit(c: char)
  {
    '0' <= c <= '9'
  }

  function LStrip(s: string): (r: string)
    ensures r != "" ==> !IsSpace(r[0])
    ensures forall c :: c in r ==> c in s
    ensures |r| <= |s|
  {
    if s != "" && IsSpace(s[0]) then LStrip(s[1..]) else s
  }

  function RStrip(s: string): (r: string)
    ensures r != "" ==> !IsSpace(r[|r| - 1])
    ensures r <= s
  {
    if s != "" && IsSpace(s[|s| - 1]) then RStrip(s[..|s| - 1]) else s
  }

  function Strip(s: string): (r: string)
    ensures Stripped(r)
    ensures forall c :: c in r ==> c in s
  {
    RStrip(LStrip(s))
  }

  /** No white space at either end. */
  predicate Stripped(s: string)
  {
    s != "" ==> !IsSpace(s[0]) && !IsSpace(s[|s| - 1])
  }

  lemma StripStripped(s: string)
    requires Stripped(s)
    ensures Strip(s) == s
  {
  }

  /** The text with blanks around it, whatever blanks they are. */
  ghost predicate Padded(s: string, core: string)
  {
    exists a, b :: Blank(a) && Blank(b) && s == a + core + b
  }

  ghost predicate Blank(s: string)
  {
    forall c :: c in s ==> IsSpace(c)
  }

  /** Blanks around a text are cut, and none within it. */
  lemma StripPadded(s: string, core: string)
    requires Padded(s, core) && Stripped(core)
    ensures Strip(s) == core
  {
    var a, b :| Blank(a) && Blank(b) && s == a + core + b;
    if core == "" {
      assert s == a + b;
      AllBlank(s);
    } else {
      assert s == a + (core + b);
      LStripBlanks(a, core + b);
      RStripBlanks(core, b);
    }
  }

  lemma {:induction false} AllBlank(s: string)
    requires forall c :: c in s ==> IsSpace(c)
    ensures LStrip(s) == ""
  {
    if s != "" {
      AllBlank(s[1..]);
    }
  }

  lemma {:induction false} LStripCuts(s: string) returns (a: string)
    ensures Blank(a) && s == a + LStrip(s)
  {
    a := "";
    if s != "" && IsSpace(s[0]) {
      a := LStripCuts(s[1..]);
      a := [s[0]] + a;
    }
  }

  lemma {:induction false} RStripCuts(s: string) returns (b: string)
    ensures Blank(b) && s == RStrip(s) + b
  {
    b := "";
    if s != "" && IsSpace(s[|s| - 1]) {
      b := RStripCuts(s[..|s| - 1]);
      b := b + [s[|s| - 1]];
    }
  }

  /** Only blanks are cut. */
  lemma StripCuts(s: string)
    ensures Padded(s, Strip(s)) && (Strip(s) == "" <==> Blank(s))
  {
    var a := LStripCuts(s);
    var b := RStripCuts(LStrip(s));
    assert s == a + Strip(s) + b;
    if Strip(s) == "" {
      assert forall c :: c in s ==> c in a || c in b;
    }
    if Blank(s) {
      AllBlank(s);
    }
  }

  lemma {:induction false} LStripBlanks(a: string, s: string)
    requires (forall c :: c in a ==> IsSpace(c)) && s != "" && !IsSpace(s[0])
    ensures LStrip(a + s) == s
  {
    if a == "" {
      assert a + s == s;
    } else {
      assert (a + s)[1..] == a[1..] + s;
      LStripBlanks(a[1..], s);
    }
  }

  lemma {:induction false} RStripBlanks(s: string, b: string)
    requires (forall c :: c in b ==> IsSpace(c)) && s != "" && !IsSpace(s[|s| - 1])
    ensures RStrip(s + b) == s
  {
    if b == "" {
      assert s + b == s;
    } else {
      var t := b[..|b| - 1];
      assert (s + b)[..|s + b| - 1] == s + t;
      RStripBlanks(s, t);
    }
  }

  function UpperChar(c: char): (u: char)
    ensures 'a' <= c <= 'z' ==> u as int == c as int - 32
    ensures !('a' <= c <= 'z') ==> u == c
  {
    if 'a' <= c <= 'z' then c - 'a' + 'A' else c
  }

  function Upper(s: string): (r: string)
    ensures |r| == |s| && forall i :: 0 <= i < |s| ==> r[i] == UpperChar(s[i])
    ensures Stripped(s) ==> Stripped(r)
    ensures Upper?(r)
    ensures forall c :: c in r && !('A' <= c <= 'Z') ==> c in s
  {
    seq(|s|, i requires 0 <= i < |s| => UpperChar(s[i]))
  }

  predicate Upper?(s: string)
  {
    forall i :: 0 <= i < |s| ==> UpperChar(s[i]) == s[i]
  }

  /** `s.split(sep)` */
  function Split(s: string, sep: char): (r: seq<string>)
    ensures |r| > 0
    ensures forall x, c :: x in r && c in x ==> c in s && c != sep
  {
    if s == "" then [""]
    else if s[0] == sep then [""] + Split(s[1..], sep)
    else
      var r := Split(s[1..], sep);
      [[s[0]] + r[0]] + r[1..]
  }

  lemma {:induction false} SplitWhole(s: string, sep: char)
    requires sep !in s
    ensures Split(s, sep) == [s]
  {
    if s != "" {
      SplitWhole(s[1..], sep);
      assert [s[0]] + s[1..] == s;
    }
  }

  lemma {:induction false} SplitFirst(a: string, sep: char, b: string)
    requires sep !in a
    ensures Split(a + [sep] + b, sep) == [a] + Split(b, sep)
  {
    if a == "" {
      assert a + [sep] + b == [sep] + b;
    } else {
      assert (a + [sep] + b)[1..] == a[1..] + [sep] + b;
      SplitFirst(a[1..], sep, b);
      assert [a[0]] + a[1..] == a;
    }
  }

  lemma {:induction false} SplitLast(a: string, sep: char, b: string)
    requires sep !in b
    ensures Split(a + [sep] + b, sep) == Split(a, sep) + [b]
  {
    if a == "" {
      SplitFirst("", sep, b);
      SplitWhole(b, sep);
    } else {
      assert (a + [sep] + b)[1..] == a[1..] + [sep] + b;
      SplitLast(a[1..], sep, b);
    }
  }

  function Rejoin(parts: seq<string>, sep: char): string
  {
    if |parts| == 0 then "" else if |parts| == 1 then parts[0] else parts[0] + [sep] + Rejoin(parts[1..], sep)
  }

  lemma {:induction false} SplitRejoins(s: string, sep: char)
    ensures Rejoin(Split(s, sep), sep) == s
  {
    if s != "" {
      SplitRejoins(s[1..], sep);
      var r := Split(s[1..], sep);
      assert Split(s, sep)[1..] == if s[0] == sep then r else r[1..];
    }
  }

  /** Splitting gives these parts exactly when joining them gives the text. */
  lemma SplitIff(s: string, sep: char, parts: seq<string>)
    requires parts != []
    ensures Split(s, sep) == parts <==> Rejoin(parts, sep) == s && forall i :: 0 <= i < |parts| ==> sep !in parts[i]
  {
    SplitRejoins(s, sep);
    if Rejoin(parts, sep) == s && forall i :: 0 <= i < |parts| ==> sep !in parts[i] {
      RejoinSplits(parts, sep);
    }
    if Split(s, sep) == parts {
      assert forall i :: 0 <= i < |parts| ==> parts[i] in Split(s, sep);
    }
  }

  lemma {:induction false} RejoinSplits(parts: seq<string>, sep: char)
    requires parts != [] && forall i :: 0 <= i < |parts| ==> sep !in parts[i]
    ensures Split(Rejoin(parts, sep), sep) == parts
  {
    if |parts| == 1 {
      SplitWhole(parts[0], sep);
    } else {
      RejoinSplits(parts[1..], sep);
      SplitFirst(parts[0], sep, Rejoin(parts[1..], sep));
    }
  }

  /** The index of the first occurrence, or the length. */
  function IndexOf(s: string, c: char): (i: nat)
    ensures i <= |s| && c !in s[..i]
    ensures i < |s| ==> s[i] == c
  {
    if s == "" || s[0] == c then 0 else 1 + IndexOf(s[1..], c)
  }

  lemma {:induction false} IndexAfter(a: string, c: char, b: string)
    requires c !in a
    ensures IndexOf(a + [c] + b, c) == |a|
    ensures (a + [c] + b)[..|a|] == a && (a + [c] + b)[|a| + 1..] == b
  {
    if a == "" {
      assert a + [c] + b == [c] + b;
    } else {
      assert (a + [c] + b)[1..] == a[1..] + [c] + b;
      IndexAfter(a[1..], c, b);
    }
  }

  lemma IndexNone(a: string, c: char)
    requires c !in a
    ensures IndexOf(a, c) == |a|
  {
  }

  /** The first word: `s.split(None, 1)[0]`, or nothing when there is no word. */
  function FirstWord(s: string): string
  {
    Word(LStrip(s))
  }

  function Word(s: string): string
  {
    if s == "" || IsSpace(s[0]) then "" else [s[0]] + Word(s[1..])
  }

  lemma {:induction false} WordThen(a: string, rest: string)
    requires (forall c :: c in a ==> !IsSpace(c)) && (rest != "" ==> IsSpace(rest[0]))
    ensures Word(a + rest) == a
  {
    if a == "" {
      assert a + rest == rest;
    } else {
      assert (a + rest)[1..] == a[1..] + rest;
      WordThen(a[1..], rest);
    }
  }

  /** The first word stands behind any blanks and ends before the next one. */
  lemma FirstWordIs(before: string, a: string, rest: string)
    requires Blank(before) && a != "" && (forall c :: c in a ==> !IsSpace(c)) && (rest != "" ==> IsSpace(rest[0]))
    ensures FirstWord(before + a + rest) == a && FirstWord(before) == ""
  {
    assert before + a + rest == before + (a + rest) && (a + rest)[0] == a[0];
    LStripBlanks(before, a + rest);
    WordThen(a, rest);
    AllBlank(before);
  }

  lemma FirstWordOf(a: string, b: string)
    requires a != "" && forall c :: c in a ==> !IsSpace(c)
    ensures FirstWord(a + " " + b) == a
  {
    FirstWordIs("", a, " " + b);
    assert "" + a + (" " + b) == a + " " + b;
  }

  // --- Decimal numbers ---

  function Digit(d: nat): char
    requires d < 10
  {
    '0' + d as char
  }

  function DigitValue(c: char): (d: nat)
    requires IsDigit(c)
    ensures d < 10 && Digit(d) == c
  {
    c as nat - '0' as nat
  }

  /** `str(n)` */
  function NatText(n: nat): (s: string)
    ensures s != "" && forall c :: c in s ==> IsDigit(c)
    ensures |s| > 1 ==> s[0] != '0'
  {
    if n < 10 then [Digit(n)] else NatText(n / 10) + [Digit(n % 10)]
  }

  /** `int(s)` of a string of decimal digits. */
  function ParseNat(s: string): nat
    requires forall c :: c in s ==> IsDigit(c)
  {
    if s == "" then 0 else 10 * ParseNat(s[..|s| - 1]) + DigitValue(s[|s| - 1])
  }

  lemma {:induction false} ParseNatText(n: nat)
    ensures ParseNat(NatText(n)) == n
  {
    if n >= 10 {
      ParseNatText(n / 10);
      assert NatText(n)[..|NatText(n)| - 1] == NatText(n / 10);
    } else {
      assert NatText(n)[..0] == "";
    }
  }

  lemma {:induction false} ParsePositive(s: string)
    requires s != "" && (forall c :: c in s ==> IsDigit(c)) && s[0] != '0'
    ensures ParseNat(s) > 0
  {
    var t := s[..|s| - 1];
    if t != "" {
      assert t[0] == s[0];
      ParsePositive(t);
    }
  }

  /** A number has one canonical decimal text. */
  lemma {:induction false} NatTextParse(s: string)
    requires s != "" && (forall c :: c in s ==> IsDigit(c)) && (|s| > 1 ==> s[0] != '0')
    ensures NatText(ParseNat(s)) == s
    decreases |s|
  {
    var t, d := s[..|s| - 1], DigitValue(s[|s| - 1]);
    assert s == t + [Digit(d)] && forall c :: c in t ==> c in s;
    if |s| == 1 {
      assert t == "";
    } else {
      assert t[0] == s[0];
      ParsePositive(t);
      NatTextParse(t);
      NatTextStep(ParseNat(t), d);
    }
  }

  lemma NatTextStep(n: nat, d: nat)
    requires n > 0 && d < 10
    ensures NatText(10 * n + d) == NatText(n) + [Digit(d)]
  {
  }

  lemma NatTextInjective(m: nat, n: nat)
    requires NatText(m) == NatText(n)
    ensures m == n
  {
    ParseNatText(m);
    ParseNatText(n);
  }
}
