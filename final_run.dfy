/** The report file names of `rag/final_run.py`: a company name and a section
    title are each sanitised and joined into `<company>_<section>.json`.
    Python's `str.isalnum` (Unicode letters and digits) is the parameter
    `isAlnum`. */
module FinalRun {
  import opened Text

  /** The characters `_sanitize` keeps as they are. */
  predicate Kept(c: char, isAlnum: char -> bool)
  {
    isAlnum(c) || c == ' ' || c == '_' || c == '-'
  }

  /** The generator-expression join: kept characters stay, every other
      character becomes one `_`. */
  function KeepOrUnderscore(s: string, isAlnum: char -> bool): (r: string)
    ensures |r| == |s|
    ensures forall i :: 0 <= i < |s| ==> r[i] == if Kept(s[i], isAlnum) then s[i] else '_'
  {
    if s == [] then [] else [if Kept(s[0], isAlnum) then s[0] else '_'] + KeepOrUnderscore(s[1..], isAlnum)
  }

  /** `s.replace(" ", "_")`: every space, one for one. */
  function ReplaceSpaces(s: string): (r: string)
    ensures |r| == |s|
    ensures forall i :: 0 <= i < |s| ==> r[i] == if s[i] == ' ' then '_' else s[i]
  {
    if s == [] then [] else [if s[0] == ' ' then '_' else s[0]] + ReplaceSpaces(s[1..])
  }

  /** `_sanitize`. */
  function Sanitise(s: string, isAlnum: char -> bool): (r: string)
    ensures |r| <= |s|
  {
    ReplaceSpaces(Strip(KeepOrUnderscore(s, isAlnum)))
  }

  /** `_get_safe_filename`. */
  function SafeFilename(company: string, section: string, isAlnum: char -> bool): (name: string)
    ensures |name| >= 6 && name[|name| - 5..] == ".json"
  {
    Sanitise(company, isAlnum) + "_" + Sanitise(section, isAlnum) + ".json"
  }

  /** A sanitised text holds only alphanumerics, `_` and `-`. */
  lemma SanitiseCharset(s: string, isAlnum: char -> bool)
    ensures forall c :: c in Sanitise(s, isAlnum) ==> isAlnum(c) || c == '_' || c == '-'
  {
    var m := KeepOrUnderscore(s, isAlnum);
    var t := Strip(m);
    StripChars(m);
    forall c | c in Sanitise(s, isAlnum) ensures isAlnum(c) || c == '_' || c == '-' {
      var i :| 0 <= i < |t| && ReplaceSpaces(t)[i] == c;
      assert t[i] in m;
    }
  }

  /** Stripping leaves a text empty or starting with a non-blank character. */
  lemma StripFirst(s: string)
    ensures Strip(s) == [] || !IsSpace(Strip(s)[0])
  {
    LStripSpec(s);
    RStripSpec(LStrip(s));
  }

  /** A sanitised text has no space left and neither starts nor ends with
      whitespace. */
  lemma SanitiseShape(s: string, isAlnum: char -> bool)
    ensures ' ' !in Sanitise(s, isAlnum)
    ensures var r := Sanitise(s, isAlnum);
      r == [] || (!IsSpace(r[0]) && !IsSpace(r[|r| - 1]))
  {
    var t := Strip(KeepOrUnderscore(s, isAlnum));
    StripFirst(KeepOrUnderscore(s, isAlnum));
    StripLast(KeepOrUnderscore(s, isAlnum));
    var r := ReplaceSpaces(t);
    assert ' ' !in r by {
      forall i | 0 <= i < |r| ensures r[i] != ' ' {
      }
    }
  }

  /** A text of kept characters with no space and no whitespace at either
      end comes back unchanged from every step. */
  lemma SanitiseFixed(s: string, isAlnum: char -> bool)
    requires forall c :: c in s ==> Kept(c, isAlnum)
    requires ' ' !in s
    requires s == [] || (!IsSpace(s[0]) && !IsSpace(s[|s| - 1]))
    ensures Sanitise(s, isAlnum) == s
  {
    var m := KeepOrUnderscore(s, isAlnum);
    assert m == s by {
      forall i | 0 <= i < |s| ensures m[i] == s[i] {
        assert s[i] in s;
      }
    }
    LStripNoLeadingSpace(s);
    RStripNoTrailingSpace(s);
    var r := ReplaceSpaces(s);
    forall i | 0 <= i < |s| ensures r[i] == s[i] {
      assert s[i] in s;
    }
  }

  /** Sanitising twice is sanitising once. */
  lemma SanitiseIdempotent(s: string, isAlnum: char -> bool)
    ensures Sanitise(Sanitise(s, isAlnum), isAlnum) == Sanitise(s, isAlnum)
  {
    SanitiseCharset(s, isAlnum);
    SanitiseShape(s, isAlnum);
    SanitiseFixed(Sanitise(s, isAlnum), isAlnum);
  }

  /** Inner spaces each become one `_`; a run of them is not collapsed. */
  lemma InnerSpacesKept(x: string, spaces: nat, y: string, isAlnum: char -> bool)
    requires forall c :: c in x ==> isAlnum(c) && !IsSpace(c)
    requires forall c :: c in y ==> isAlnum(c) && !IsSpace(c)
    requires x != [] && y != []
    ensures Sanitise(x + Repeat(' ', spaces) + y, isAlnum) == x + Repeat('_', spaces) + y
  {
    var s := x + Repeat(' ', spaces) + y;
    var m := KeepOrUnderscore(s, isAlnum);
    assert m == s by {
      forall i | 0 <= i < |s| ensures m[i] == s[i] {
        if i < |x| {
          assert s[i] == x[i] && x[i] in x;
        } else if i < |x| + spaces {
          assert s[i] == Repeat(' ', spaces)[i - |x|] == ' ';
        } else {
          assert s[i] == y[i - |x| - spaces] && y[i - |x| - spaces] in y;
        }
      }
    }
    assert s[0] == x[0] && x[0] in x;
    assert s[|s| - 1] == y[|y| - 1] && y[|y| - 1] in y;
    LStripNoLeadingSpace(s);
    RStripNoTrailingSpace(s);
    var r := ReplaceSpaces(s);
    var e := x + Repeat('_', spaces) + y;
    forall i | 0 <= i < |s| ensures r[i] == e[i] {
      if i < |x| {
        assert s[i] == x[i] && x[i] in x && e[i] == x[i];
      } else if i < |x| + spaces {
        assert s[i] == Repeat(' ', spaces)[i - |x|];
        assert e[i] == Repeat('_', spaces)[i - |x|];
      } else {
        assert s[i] == y[i - |x| - spaces] && y[i - |x| - spaces] in y;
        assert e[i] == y[i - |x| - spaces];
      }
    }
  }

  /** `n` copies of `c`. */
  function Repeat(c: char, n: nat): (r: string)
    ensures |r| == n && forall i :: 0 <= i < n ==> r[i] == c
  {
    if n == 0 then [] else [c] + Repeat(c, n - 1)
  }

  /** `"a  b"` becomes `"a__b"`. */
  lemma DoubleSpaceExample(isAlnum: char -> bool)
    requires isAlnum('a') && isAlnum('b')
    ensures Sanitise("a  b", isAlnum) == "a__b"
  {
    InnerSpacesKept("a", 2, "b", isAlnum);
    assert "a" + Repeat(' ', 2) + "b" == "a  b";
    assert "a" + Repeat('_', 2) + "b" == "a__b";
  }

  /** Before its `.json` suffix the file name holds only alphanumerics, `_`
      and `-`: with no directory separator among the alphanumerics, it names
      a file inside the reports directory. */
  lemma SafeFilenameChars(company: string, section: string, isAlnum: char -> bool)
    requires !isAlnum('/')
    ensures var name := SafeFilename(company, section, isAlnum);
      forall i :: 0 <= i < |name| - 5 ==> isAlnum(name[i]) || name[i] == '_' || name[i] == '-'
    ensures '/' !in SafeFilename(company, section, isAlnum)
  {
    SanitiseCharset(company, isAlnum);
    SanitiseCharset(section, isAlnum);
    var a := Sanitise(company, isAlnum);
    var b := Sanitise(section, isAlnum);
    var name := SafeFilename(company, section, isAlnum);
    assert name == a + "_" + b + ".json";
    forall i | 0 <= i < |name| - 5 ensures isAlnum(name[i]) || name[i] == '_' || name[i] == '-' {
      if i < |a| {
        assert name[i] == a[i] && a[i] in a;
      } else if i > |a| {
        assert name[i] == b[i - |a| - 1] && b[i - |a| - 1] in b;
      }
    }
    forall i | |name| - 5 <= i < |name| ensures name[i] != '/' {
      assert name[i] == ".json"[i - (|name| - 5)];
    }
  }
}
