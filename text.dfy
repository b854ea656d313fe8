/** The few Python `str` operations the core relies on: `isspace`, `strip`,
    `lstrip`, `rstrip`, `join` and `split` with a one-character separator. */
module Text {

  /** Python's `str.isspace` for one character; Python's regex `\s` on a `str`
      pattern matches exactly these characters as well. */
  predicate IsSpace(c: char)
  {
    ('\t' <= c <= '\r') || ('\U{1C}' <= c <= '\U{1F}') || c == ' ' ||
    c == '\U{85}' || c == '\U{A0}' || c == '\U{1680}' ||
    ('\U{2000}' <= c <= '\U{200A}') || c == '\U{2028}' || c == '\U{2029}' ||
    c == '\U{202F}' || c == '\U{205F}' || c == '\U{3000}'
  }

  predicate AllSpace(s: string)
  {
    forall i :: 0 <= i < |s| ==> IsSpace(s[i])
  }

  /** `s.lstrip()`. */
  function LStrip(s: string): (r: string)
    ensures |r| <= |s|
  {
    if s != [] && IsSpace(s[0]) then LStrip(s[1..]) else s
  }

  /** `s.rstrip()`. */
  function RStrip(s: string): (r: string)
    ensures |r| <= |s|
  {
    if s != [] && IsSpace(s[|s| - 1]) then RStrip(s[..|s| - 1]) else s
  }

  /** `lstrip` removes exactly the leading whitespace run: what it keeps is a
      suffix that does not start with whitespace, and what it drops is blank. */
  lemma {:induction false} LStripSpec(s: string)
    ensures var r := LStrip(s);
      && r == s[|s| - |r|..]
      && (r == [] || !IsSpace(r[0]))
      && AllSpace(s[..|s| - |r|])
  {
    if s != [] && IsSpace(s[0]) {
      LStripSpec(s[1..]);
      var r := LStrip(s);
      assert s[..|s| - |r|] == [s[0]] + s[1..][..|s| - 1 - |r|];
    }
  }

  /** A text split into its leading whitespace run and the rest: what a greedy
      regex `\s*` consumes and what it leaves. */
  function SplitSpace(s: string): (p: (string, string))
    ensures s == p.0 + p.1 && AllSpace(p.0)
    ensures p.1 == [] || !IsSpace(p.1[0])
  {
    if s != [] && IsSpace(s[0]) then
      var q := SplitSpace(s[1..]);
      ([s[0]] + q.0, q.1)
    else ([], s)
  }

  /** The split is the only one into a blank run and a rest that does not
      start blank. */
  lemma {:induction false} SplitSpaceUnique(s: string, g: string, t: string)
    requires s == g + t && AllSpace(g) && (t == [] || !IsSpace(t[0]))
    ensures SplitSpace(s) == (g, t)
    decreases |g|
  {
    if g != [] {
      assert s[0] == g[0] && IsSpace(s[0]);
      assert s[1..] == g[1..] + t;
      assert AllSpace(g[1..]) by {
        forall i | 0 <= i < |g[1..]| ensures IsSpace(g[1..][i]) {
          assert g[1..][i] == g[i + 1];
        }
      }
      SplitSpaceUnique(s[1..], g[1..], t);
      assert g == [g[0]] + g[1..];
    } else {
      assert s == t;
    }
  }

  /** `lstrip` removes exactly the leading blank run. */
  lemma {:induction false} LStripUnique(s: string, g: string, t: string)
    requires s == g + t && AllSpace(g) && (t == [] || !IsSpace(t[0]))
    ensures LStrip(s) == t
    decreases |g|
  {
    if g != [] {
      assert s[0] == g[0] && IsSpace(s[0]);
      assert s[1..] == g[1..] + t;
      assert AllSpace(g[1..]) by {
        forall i | 0 <= i < |g[1..]| ensures IsSpace(g[1..][i]) {
          assert g[1..][i] == g[i + 1];
        }
      }
      LStripUnique(s[1..], g[1..], t);
    } else {
      assert s == t;
    }
  }

  /** `rstrip` removes exactly the trailing blank run. */
  lemma RStripUnique(s: string, t: string, g: string)
    requires s == t + g && AllSpace(g) && (t == [] || !IsSpace(t[|t| - 1]))
    ensures RStrip(s) == t
  {
    RStripSpec(s);
    assert s[..|t|] == t;
  }

  /** A text is its leading whitespace followed by its `lstrip`. */
  lemma LStripSplit(s: string)
    ensures var r := LStrip(s);
      s == s[..|s| - |r|] + r && AllSpace(s[..|s| - |r|])
  {
    LStripSpec(s);
  }

  /** `rstrip` removes exactly the trailing whitespace run. */
  lemma {:induction false} RStripSpec(s: string)
    ensures var r := RStrip(s);
      && r == s[..|r|]
      && (r == [] || !IsSpace(r[|r| - 1]))
      && AllSpace(s[|r|..])
  {
    if s != [] && IsSpace(s[|s| - 1]) {
      RStripSpec(s[..|s| - 1]);
      var r := RStrip(s);
      assert s[|r|..] == s[..|s| - 1][|r|..] + [s[|s| - 1]];
    }
  }

  /** `s.strip()`. */
  function Strip(s: string): string
  {
    RStrip(LStrip(s))
  }

  lemma LStripNoLeadingSpace(s: string)
    requires s == [] || !IsSpace(s[0])
    ensures LStrip(s) == s
  {
  }

  lemma RStripNoTrailingSpace(s: string)
    requires s == [] || !IsSpace(s[|s| - 1])
    ensures RStrip(s) == s
  {
  }

  /** Stripping keeps a non-blank first character in place. */
  lemma StripKeepsFirst(s: string)
    requires s != [] && !IsSpace(s[0])
    ensures Strip(s) != [] && Strip(s)[0] == s[0]
  {
    LStripNoLeadingSpace(s);
    RStripSpec(s);
  }

  /** Stripping keeps a non-blank last character in place. */
  lemma StripKeepsLast(s: string)
    requires s != [] && !IsSpace(s[|s| - 1])
    ensures Strip(s) != [] && Strip(s)[|Strip(s)| - 1] == s[|s| - 1]
  {
    var l := LStrip(s);
    LStripSpec(s);
    assert l != [] && l[|l| - 1] == s[|s| - 1];
    RStripNoTrailingSpace(l);
  }

  lemma LStripChars(s: string)
    ensures forall c :: c in LStrip(s) ==> c in s
  {
    var r := LStrip(s);
    LStripSpec(s);
    forall c | c in r ensures c in s {
      var i :| 0 <= i < |r| && r[i] == c;
      assert s[|s| - |r| + i] == c;
    }
  }

  lemma RStripChars(s: string)
    ensures forall c :: c in RStrip(s) ==> c in s
  {
    var r := RStrip(s);
    RStripSpec(s);
    forall c | c in r ensures c in s {
      var i :| 0 <= i < |r| && r[i] == c;
      assert s[i] == c;
    }
  }

  /** Every character of the stripped text occurs in the text. */
  lemma StripChars(s: string)
    ensures forall c :: c in Strip(s) ==> c in s
  {
    LStripChars(s);
    RStripChars(LStrip(s));
  }

  /** A stripped text is empty or ends with a character that is not blank. */
  lemma StripLast(s: string)
    ensures Strip(s) == [] || !IsSpace(Strip(s)[|Strip(s)| - 1])
  {
    RStripSpec(LStrip(s));
  }

  /** Concatenation regrouped; the solver finds this faster as a lemma of
      its own than inside a larger proof. */
  lemma Concat3(a: string, b: string, c: string)
    ensures a + b + c == a + (b + c)
  {
  }

  /** `sep.join(xs)`. */
  function Join(sep: string, xs: seq<string>): string
  {
    if |xs| == 0 then ""
    else if |xs| == 1 then xs[0]
    else xs[0] + sep + Join(sep, xs[1..])
  }

  /** Position of the first occurrence of `c` in `s`, if any. */
  function IndexOf(s: string, c: char): (r: nat)
    requires c in s
    ensures r < |s| && s[r] == c && c !in s[..r]
  {
    if s[0] == c then 0 else 1 + IndexOf(s[1..], c)
  }

  /** `s.split(c)` for a one-character separator: the pieces between the
      separators, so always at least one piece. */
  function Split(s: string, c: char): (r: seq<string>)
    ensures |r| >= 1
    decreases |s|
  {
    if c !in s then [s]
    else
      var i := IndexOf(s, c);
      [s[..i]] + Split(s[i + 1..], c)
  }

  /** The first separator after a separator-free prefix is the one right after it. */
  lemma {:induction false} IndexOfAfter(a: string, c: char, b: string)
    requires c !in a
    ensures c in a + [c] + b && IndexOf(a + [c] + b, c) == |a|
  {
    var s := a + [c] + b;
    assert s[|a|] == c;
    if a != [] {
      IndexOfAfter(a[1..], c, b);
      assert s[1..] == a[1..] + [c] + b;
    }
  }

  /** Splitting on a separator that no piece contains undoes `Join`. */
  lemma {:induction false} SplitJoin(xs: seq<string>, c: char)
    requires |xs| >= 1
    requires forall i :: 0 <= i < |xs| ==> c !in xs[i]
    ensures Split(Join([c], xs), c) == xs
  {
    if |xs| > 1 {
      var tail := Join([c], xs[1..]);
      var s := xs[0] + [c] + tail;
      assert Join([c], xs) == s;
      IndexOfAfter(xs[0], c, tail);
      assert s[..|xs[0]|] == xs[0];
      assert s[|xs[0]| + 1..] == tail;
      SplitJoin(xs[1..], c);
      assert Split(s, c) == [xs[0]] + xs[1..];
    }
  }

  /** Appending one more piece adds one separator and that piece. */
  lemma {:induction false} JoinAppend(sep: string, xs: seq<string>, x: string)
    requires |xs| >= 1
    ensures Join(sep, xs + [x]) == Join(sep, xs) + sep + x
  {
    if |xs| == 1 {
      assert (xs + [x])[1..] == [x];
    } else {
      JoinAppend(sep, xs[1..], x);
      assert (xs + [x])[1..] == xs[1..] + [x];
    }
  }

  predicate IsDigit(c: char)
  {
    '0' <= c <= '9'
  }

  predicate AllDigits(s: string)
  {
    forall i :: 0 <= i < |s| ==> IsDigit(s[i])
  }

  /** The value of a string of ASCII decimal digits, as `int(s)`. */
  function DigitsValue(s: string): nat
    requires AllDigits(s)
  {
    if s == [] then 0
    else DigitsValue(s[..|s| - 1]) * 10 + (s[|s| - 1] as int - '0' as int)
  }

  function DigitChar(d: nat): (c: char)
    requires d < 10
    ensures IsDigit(c) && c as int - '0' as int == d
  {
    ('0' as int + d) as char
  }

  /** The decimal rendering of a natural number, as `f"{n}"`. */
  function NatToString(n: nat): (r: string)
    ensures r != [] && AllDigits(r)
    ensures r[0] != '0' || r == "0"
  {
    if n < 10 then [DigitChar(n)]
    else NatToString(n / 10) + [DigitChar(n % 10)]
  }

  /** Reading the rendering back gives the number. */
  lemma {:induction false} NatToStringValue(n: nat)
    ensures DigitsValue(NatToString(n)) == n
  {
    var r := NatToString(n);
    if n >= 10 {
      NatToStringValue(n / 10);
      assert r[..|r| - 1] == NatToString(n / 10);
    } else {
      assert r[..|r| - 1] == [];
    }
  }
}
