/** The JSON salvage step applied to every model response before it is
    parsed (`clean_json_string` in rag/final/utils.py): a fixed chain of
    rewrites that drops code fences, normalises typographic quotes, collapses
    escaped apostrophes, strips, cuts the text down to the outermost braces,
    re-escapes the free-text `"evaluation"` value and finally appends a closing
    brace to a text that opens with one but does not close. */
module JsonRepair {
  import opened Wrappers
  import opened Text

  const JsonFence := "```json"
  const Fence := "```"

  // ---------------------------------------------------------------------
  // Step 1: fences. `re.sub(marker + r'\s*', '', text)` for a literal marker:
  // scanning left to right, every occurrence of the marker is removed
  // together with the whitespace run after it.
  // ---------------------------------------------------------------------

  function DropMarker(s: string, marker: string): (r: string)
    requires marker != []
    ensures |r| <= |s|
    decreases |s|
  {
    if s == [] then []
    else if marker <= s then DropMarker(LStrip(s[|marker|..]), marker)
    else [s[0]] + DropMarker(s[1..], marker)
  }

  /** Both fence markers removed, with the blanks after each. */
  function DropFences(s: string): (r: string)
    ensures |r| <= |s|
  {
    DropMarker(DropMarker(s, JsonFence), Fence)
  }

  // ---------------------------------------------------------------------
  // Step 2: typographic quotes “ ” ‘ ’ become " and '.
  // ---------------------------------------------------------------------

  predicate IsSmartQuote(c: char)
  {
    c == '\U{201C}' || c == '\U{201D}' || c == '\U{2018}' || c == '\U{2019}'
  }

  function NormaliseQuote(c: char): char
  {
    if c == '\U{201C}' || c == '\U{201D}' then '"'
    else if c == '\U{2018}' || c == '\U{2019}' then '\''
    else c
  }

  function NormaliseQuotes(s: string): (r: string)
    ensures |r| == |s| && forall i :: 0 <= i < |s| ==> r[i] == NormaliseQuote(s[i])
  {
    seq(|s|, i requires 0 <= i < |s| => NormaliseQuote(s[i]))
  }

  // ---------------------------------------------------------------------
  // Step 3: `text.replace("\\'", "'")`, left to right, without overlap.
  // ---------------------------------------------------------------------

  function UnescapeApostrophes(s: string): (r: string)
    ensures |r| <= |s|
    decreases |s|
  {
    if |s| >= 2 && s[0] == '\\' && s[1] == '\'' then "'" + UnescapeApostrophes(s[2..])
    else if s == [] then []
    else [s[0]] + UnescapeApostrophes(s[1..])
  }

  /** The text after fences, quotes, apostrophes and `strip()` (lines 5-20). */
  function Prepared(text: string): string
  {
    Strip(UnescapeApostrophes(NormaliseQuotes(DropFences(text))))
  }

  // ---------------------------------------------------------------------
  // Step 4: `text[text.find('{'):text.rfind('}') + 1]` when both exist.
  // ---------------------------------------------------------------------

  /** `s.rfind(c)` for a character that occurs. */
  function LastIndexOf(s: string, c: char): (r: nat)
    requires c in s
    ensures r < |s| && s[r] == c && c !in s[r + 1..]
  {
    if s[|s| - 1] == c then |s| - 1
    else
      assert c in s[..|s| - 1] by {
        var i :| 0 <= i < |s| && s[i] == c;
        assert s[..|s| - 1][i] == c;
      }
      var r := LastIndexOf(s[..|s| - 1], c);
      assert s[r + 1..] == s[..|s| - 1][r + 1..] + [s[|s| - 1]];
      r
  }

  function ExtractSpan(s: string): (r: string)
    ensures |r| <= |s|
    ensures ('{' !in s || '}' !in s) ==> r == s
    ensures r != [] && '{' in s && '}' in s ==> r[0] == '{' && r[|r| - 1] == '}'
  {
    if '{' in s && '}' in s then
      var start, end := IndexOf(s, '{'), LastIndexOf(s, '}');
      // a Python slice whose end does not exceed its start is empty
      if end + 1 <= start then "" else s[start..end + 1]
    else s
  }

  // ---------------------------------------------------------------------
  // Step 5: `re.sub(r'"evaluation"\s*:\s*"(.+?)"\s*}', sanitize_evaluation,
  // text, flags=re.DOTALL)`.
  // ---------------------------------------------------------------------

  const EvaluationKey := "\"evaluation\""

  /** The parts of one match: the three whitespace gaps of the pattern, the
      captured value, and the text after the matched `}`. */
  datatype EvaluationMatch = EvaluationMatch(gap1: string, gap2: string, content: string, gap3: string, rest: string)

  /** What follows the opening quote of the value: the value, the closing
      quote, whitespace, `}` and the unmatched rest. */
  function ValueAndAfter(e: EvaluationMatch): string
  {
    e.content + ("\"" + (e.gap3 + ("}" + e.rest)))
  }

  /** The lazy group may stop at `body[k]`: a quote, then whitespace, then `}`.
      Neither `:`, `"` nor `}` is whitespace, so a greedy `\s*` never needs to
      give characters back, and the maximal run decides. */
  predicate Closes(body: string, k: nat)
  {
    k < |body| && body[k] == '"' && var t := SplitSpace(body[k + 1..]).1; t != [] && t[0] == '}'
  }

  /** The first closing position at or after `k`: the non-greedy `(.+?)`. */
  function LazyClose(body: string, k: nat): (r: Option<nat>)
    ensures r.Some? ==> k <= r.value && Closes(body, r.value) && forall j :: k <= j < r.value ==> !Closes(body, j)
    ensures r.None? ==> forall j :: k <= j ==> !Closes(body, j)
    decreases |body| - k
  {
    if k >= |body| then
      assert forall j :: k <= j ==> !Closes(body, j);
      None
    else if Closes(body, k) then Some(k)
    else LazyClose(body, k + 1)
  }

  /** What the pattern demands after the opening quote of the value: a
      non-empty value, the first place where a quote, whitespace and `}`
      can follow. */
  predicate ValueOk(e: EvaluationMatch)
  {
    && AllSpace(e.gap3)
    && |e.content| >= 1
    && forall j :: 1 <= j < |e.content| ==> !Closes(ValueAndAfter(e), j)
  }

  /** The text after the key, nested to the right as the matcher reads it. */
  function AfterKey(e: EvaluationMatch): string
  {
    e.gap1 + (":" + (e.gap2 + ("\"" + ValueAndAfter(e))))
  }

  /** The part of the pattern after the opening quote of the value. */
  function MatchValue(g1: string, g2: string, body: string): (m: Option<EvaluationMatch>)
    ensures m.Some? ==> m.value.gap1 == g1 && m.value.gap2 == g2
    ensures m.Some? ==> body == ValueAndAfter(m.value) && ValueOk(m.value)
  {
    match LazyClose(body, 1)
    case None => None
    case Some(k) =>
      var (g3, t3) := SplitSpace(body[k + 1..]);
      BodyParts(body, k, g3, t3);
      Some(EvaluationMatch(g1, g2, body[..k], g3, t3[1..]))
  }

  /** The part of the pattern after the `:`. */
  function MatchAfterColon(g1: string, u: string): (m: Option<EvaluationMatch>)
    ensures m.Some? ==> m.value.gap1 == g1 && AllSpace(m.value.gap2) && ValueOk(m.value)
    ensures m.Some? ==> u == m.value.gap2 + ("\"" + ValueAndAfter(m.value))
  {
    var (g2, t2) := SplitSpace(u);
    if t2 == [] || t2[0] != '"' then None
    else
      var m := MatchValue(g1, g2, t2[1..]);
      if m.Some? then
        assert t2 == "\"" + t2[1..];
        m
      else m
  }

  /** The part of the pattern after the key. */
  function MatchAfterKey(u: string): (m: Option<EvaluationMatch>)
    ensures m.Some? ==> AllSpace(m.value.gap1) && AllSpace(m.value.gap2) && ValueOk(m.value)
    ensures m.Some? ==> u == AfterKey(m.value)
  {
    var (g1, t1) := SplitSpace(u);
    if t1 == [] || t1[0] != ':' then None
    else
      var m := MatchAfterColon(g1, t1[1..]);
      if m.Some? then
        assert t1 == ":" + t1[1..];
        m
      else m
  }

  /** The key followed by the rest, nested to the left as written. */
  lemma KeyAndRest(key: string, e: EvaluationMatch)
    ensures key + AfterKey(e) == key + e.gap1 + ":" + e.gap2 + "\"" + ValueAndAfter(e)
  {
  }

  /** The pattern, anchored at the start of `s`, for a given key: the key,
      whitespace, `:`, whitespace, a quote, a value of at least one
      character, a quote, whitespace and `}`; the value is the shortest that
      the rest of the pattern can follow. */
  function MatchKeyed(key: string, s: string): (m: Option<EvaluationMatch>)
    ensures m.Some? ==>
      var e := m.value;
      && s == key + e.gap1 + ":" + e.gap2 + "\"" + ValueAndAfter(e)
      && AllSpace(e.gap1) && AllSpace(e.gap2) && AllSpace(e.gap3)
      && |e.content| >= 1
      && forall j :: 1 <= j < |e.content| ==> !Closes(ValueAndAfter(e), j)
  {
    if !(key <= s) then None
    else
      var m := MatchAfterKey(s[|key|..]);
      if m.Some? then
        assert s == key + s[|key|..];
        KeyAndRest(key, m.value);
        m
      else m
  }

  /** The pattern with the key `"evaluation"`. */
  function MatchEvaluation(s: string): (m: Option<EvaluationMatch>)
    ensures m.Some? ==>
      var e := m.value;
      && s == EvaluationKey + e.gap1 + ":" + e.gap2 + "\"" + ValueAndAfter(e)
      && AllSpace(e.gap1) && AllSpace(e.gap2) && AllSpace(e.gap3)
      && |e.content| >= 1
      && forall j :: 1 <= j < |e.content| ==> !Closes(ValueAndAfter(e), j)
  {
    MatchKeyed(EvaluationKey, s)
  }

  lemma BodyParts(body: string, k: nat, g3: string, t3: string)
    requires Closes(body, k) && (g3, t3) == SplitSpace(body[k + 1..])
    ensures body == ValueAndAfter(EvaluationMatch([], [], body[..k], g3, t3[1..]))
  {
    var after := body[k + 1..];
    assert after == g3 + t3;
    assert t3 == "}" + t3[1..];
    assert after == g3 + ("}" + t3[1..]);
    assert body[k..] == "\"" + after;
    assert body == body[..k] + body[k..];
  }

  lemma LazyCloseFinds(body: string, k: nat)
    requires 1 <= k && Closes(body, k)
    requires forall j :: 1 <= j < k ==> !Closes(body, j)
    ensures LazyClose(body, 1) == Some(k)
  {
  }

  /** The pieces of the text after the opening quote of the value. */
  lemma ValueParts(e: EvaluationMatch)
    ensures var body, k := ValueAndAfter(e), |e.content|;
      k < |body| && body[..k] == e.content && body[k] == '"' && body[k + 1..] == e.gap3 + ("}" + e.rest)
  {
  }

  lemma MatchValueComplete(body: string, e: EvaluationMatch)
    requires body == ValueAndAfter(e) && ValueOk(e)
    ensures MatchValue(e.gap1, e.gap2, body) == Some(e)
  {
    var k := |e.content|;
    ValueParts(e);
    SplitSpaceUnique(body[k + 1..], e.gap3, "}" + e.rest);
    LazyCloseFinds(body, k);
  }

  lemma MatchAfterColonComplete(u: string, e: EvaluationMatch)
    requires AllSpace(e.gap2) && u == e.gap2 + ("\"" + ValueAndAfter(e)) && ValueOk(e)
    ensures MatchAfterColon(e.gap1, u) == Some(e)
  {
    SplitSpaceUnique(u, e.gap2, "\"" + ValueAndAfter(e));
    assert ("\"" + ValueAndAfter(e))[1..] == ValueAndAfter(e);
    MatchValueComplete(ValueAndAfter(e), e);
  }

  lemma MatchAfterKeyComplete(u: string, e: EvaluationMatch)
    requires AllSpace(e.gap1) && AllSpace(e.gap2) && ValueOk(e)
    requires u == AfterKey(e)
    ensures MatchAfterKey(u) == Some(e)
  {
    var t1 := ":" + (e.gap2 + ("\"" + ValueAndAfter(e)));
    SplitSpaceUnique(u, e.gap1, t1);
    assert t1[1..] == e.gap2 + ("\"" + ValueAndAfter(e));
    MatchAfterColonComplete(t1[1..], e);
  }

  /** The converse of the contract of `MatchKeyed`: every decomposition of
      that shape is the match that is found. */
  lemma MatchKeyedComplete(key: string, s: string, e: EvaluationMatch)
    requires s == key + e.gap1 + ":" + e.gap2 + "\"" + ValueAndAfter(e)
    requires AllSpace(e.gap1) && AllSpace(e.gap2) && AllSpace(e.gap3)
    requires |e.content| >= 1
    requires forall j :: 1 <= j < |e.content| ==> !Closes(ValueAndAfter(e), j)
    ensures MatchKeyed(key, s) == Some(e)
  {
    KeyAndRest(key, e);
    assert s[|key|..] == AfterKey(e);
    MatchAfterKeyComplete(AfterKey(e), e);
  }

  /** Every decomposition of the shape `MatchEvaluation` promises is the
      match that is found. */
  lemma MatchEvaluationComplete(s: string, e: EvaluationMatch)
    requires s == EvaluationKey + e.gap1 + ":" + e.gap2 + "\"" + ValueAndAfter(e)
    requires AllSpace(e.gap1) && AllSpace(e.gap2) && AllSpace(e.gap3)
    requires |e.content| >= 1
    requires forall j :: 1 <= j < |e.content| ==> !Closes(ValueAndAfter(e), j)
    ensures MatchEvaluation(s) == Some(e)
  {
    MatchKeyedComplete(EvaluationKey, s, e);
  }


  /** `.replace('"', '\\"')`. */
  function EscapeQuotes(s: string): string
  {
    if s == [] then []
    else (if s[0] == '"' then "\\\"" else [s[0]]) + EscapeQuotes(s[1..])
  }

  /** `.replace("\r\n", "\\n")`, left to right, without overlap. */
  function EscapeCrLf(s: string): (r: string)
    ensures |r| == |s|
    decreases |s|
  {
    if |s| >= 2 && s[0] == '\r' && s[1] == '\n' then "\\n" + EscapeCrLf(s[2..])
    else if s == [] then []
    else [s[0]] + EscapeCrLf(s[1..])
  }

  /** `.replace("\n", "\\n")`. */
  function EscapeLf(s: string): (r: string)
    ensures '\n' !in r
  {
    if s == [] then []
    else (if s[0] == '\n' then "\\n" else [s[0]]) + EscapeLf(s[1..])
  }

  /** The body of `sanitize_evaluation` applied to the captured value. */
  function EscapeEvaluation(content: string): (r: string)
    ensures '\n' !in r
  {
    EscapeLf(EscapeCrLf(EscapeQuotes(content)))
  }

  /** The replacement text: the separator normalised, the value escaped, and
      the matched `}` left out. */
  function RenderEvaluation(content: string): (r: string)
    ensures "\"evaluation\": \"" <= r && r[|r| - 1] == '"'
    ensures '\n' !in r
  {
    "\"evaluation\": \"" + EscapeEvaluation(content) + "\""
  }

  /** `re.sub` scans left to right; after a match it resumes behind it. */
  function SanitiseEvaluation(s: string): string
    decreases |s|
  {
    if s == [] then []
    else match MatchEvaluation(s)
      case Some(e) => RenderEvaluation(e.content) + SanitiseEvaluation(e.rest)
      case None => [s[0]] + SanitiseEvaluation(s[1..])
  }

  // ---------------------------------------------------------------------
  // Step 6: lines 42-43.
  // ---------------------------------------------------------------------

  function CloseBrace(t: string): string
  {
    var st := Strip(t);
    if st != [] && st[0] == '{' && st[|st| - 1] != '}' then RStrip(t) + "\n}" else t
  }

  /** `clean_json_string(text)`. It never fails: a text without braces passes
      through, and only the later `json.loads` can reject it. */
  function CleanJsonString(text: string): string
  {
    CloseBrace(SanitiseEvaluation(ExtractSpan(Prepared(text))))
  }
}

/** What the salvage step guarantees, stated over the whole of
    `clean_json_string` and over its steps. */
module JsonRepairProperties {
  import opened Wrappers
  import opened Text
  import opened JsonRepair

  predicate IsAscii(c: char)
  {
    c <= '\U{7F}'
  }

  predicate NoSmartQuote(s: string)
  {
    forall i :: 0 <= i < |s| ==> !IsSmartQuote(s[i])
  }

  // ------------------------------------------------------------------
  // Which characters each step may introduce.
  // ------------------------------------------------------------------

  lemma {:induction false} DropMarkerChars(s: string, marker: string)
    requires marker != []
    ensures forall c :: c in DropMarker(s, marker) ==> c in s
    decreases |s|
  {
    if s == [] {
    } else if marker <= s {
      var t := LStrip(s[|marker|..]);
      DropMarkerChars(t, marker);
      LStripChars(s[|marker|..]);
      assert forall c :: c in s[|marker|..] ==> c in s;
    } else {
      DropMarkerChars(s[1..], marker);
      assert forall c :: c in s[1..] ==> c in s;
    }
  }

  lemma {:induction false} UnescapeApostrophesChars(s: string)
    ensures forall c :: c in UnescapeApostrophes(s) ==> c in s
    decreases |s|
  {
    if |s| >= 2 && s[0] == '\\' && s[1] == '\'' {
      UnescapeApostrophesChars(s[2..]);
      assert forall c :: c in s[2..] ==> c in s;
    } else if s != [] {
      UnescapeApostrophesChars(s[1..]);
      assert forall c :: c in s[1..] ==> c in s;
    }
  }

  /** An escaped apostrophe at the head of `a + t` is collapsed first. */
  lemma UnescapePairStep(a: string, t: string)
    requires |a| >= 2 && a[0] == '\\' && a[1] == '\''
    ensures UnescapeApostrophes(a + t) == "'" + UnescapeApostrophes(a[2..] + t)
    ensures UnescapeApostrophes(a) == "'" + UnescapeApostrophes(a[2..])
  {
    assert (a + t)[2..] == a[2..] + t;
  }

  /** Any other head of `a + t` is kept, when `t` does not open with an
      apostrophe that could pair with a trailing backslash of `a`. */
  lemma UnescapeOtherStep(a: string, t: string)
    requires a != [] && !(|a| >= 2 && a[0] == '\\' && a[1] == '\'')
    requires t == [] || t[0] != '\''
    ensures UnescapeApostrophes(a + t) == [a[0]] + UnescapeApostrophes(a[1..] + t)
    ensures UnescapeApostrophes(a) == [a[0]] + UnescapeApostrophes(a[1..])
  {
    var s := a + t;
    assert s[1..] == a[1..] + t;
    assert !(|s| >= 2 && s[0] == '\\' && s[1] == '\'') by {
      if |a| == 1 && |s| >= 2 { assert s[1] == t[0]; }
      if |a| >= 2 { assert s[1] == a[1]; }
    }
  }

  /** The induction of `UnescapeApostrophesAround`, with `t` the escaped
      apostrophe followed by `b`. */
  lemma {:induction false} UnescapeBefore(a: string, t: string, b: string)
    requires t == "\\'" + b
    ensures UnescapeApostrophes(a + t) == UnescapeApostrophes(a) + ("'" + UnescapeApostrophes(b))
    decreases |a|
  {
    if a == [] {
      assert a + t == t && t[2..] == b;
      UnescapePairStep(t, []);
      assert t + [] == t;
    } else if |a| >= 2 && a[0] == '\\' && a[1] == '\'' {
      UnescapePairStep(a, t);
      UnescapeBefore(a[2..], t, b);
      Concat3("'", UnescapeApostrophes(a[2..]), "'" + UnescapeApostrophes(b));
    } else {
      UnescapeOtherStep(a, t);
      UnescapeBefore(a[1..], t, b);
      Concat3([a[0]], UnescapeApostrophes(a[1..]), "'" + UnescapeApostrophes(b));
    }
  }

  /** An escaped apostrophe becomes a plain one wherever it stands, and the
      text on either side is unescaped on its own. */
  lemma UnescapeApostrophesAround(a: string, b: string)
    ensures UnescapeApostrophes(a + "\\'" + b) == UnescapeApostrophes(a) + "'" + UnescapeApostrophes(b)
  {
    var t := "\\'" + b;
    assert a + "\\'" + b == a + t;
    UnescapeBefore(a, t, b);
  }

  /** The prepared text has no typographic quotes and no character that the
      input lacks, apart from the ASCII quotes that replace typographic ones. */
  lemma PreparedChars(text: string)
    ensures NoSmartQuote(Prepared(text))
    ensures forall c :: c in Prepared(text) ==> c in text || c == '"' || c == '\''
  {
    var p1 := DropMarker(text, JsonFence);
    var p2 := DropFences(text);
    var p3 := NormaliseQuotes(p2);
    var p4 := UnescapeApostrophes(p3);
    DropMarkerChars(text, JsonFence);
    DropMarkerChars(p1, Fence);
    assert forall c :: c in p3 ==> (c in p2 || c == '"' || c == '\'') && !IsSmartQuote(c) by {
      forall c | c in p3 ensures (c in p2 || c == '"' || c == '\'') && !IsSmartQuote(c) {
        var i :| 0 <= i < |p3| && p3[i] == c;
        assert c == NormaliseQuote(p2[i]);
      }
    }
    UnescapeApostrophesChars(p3);
    StripChars(p4);
  }

  lemma ExtractSpanChars(s: string)
    ensures forall c :: c in ExtractSpan(s) ==> c in s
  {
    if '{' in s && '}' in s {
      var a, b := IndexOf(s, '{'), LastIndexOf(s, '}');
      if a <= b {
        forall c | c in s[a..b + 1] ensures c in s {
          var i :| 0 <= i < b + 1 - a && s[a..b + 1][i] == c;
          assert s[a + i] == c;
        }
      }
    }
  }

  /** Quote escaping adds no character but the backslash. */
  lemma {:induction false} EscapeQuotesChars(s: string)
    ensures forall c :: c in EscapeQuotes(s) ==> c in s || c == '\\'
  {
    if s != [] {
      EscapeQuotesChars(s[1..]);
      assert forall c :: c in s[1..] ==> c in s;
    }
  }

  lemma {:induction false} EscapeCrLfChars(s: string)
    ensures forall c :: c in EscapeCrLf(s) ==> c in s || IsAscii(c)
    decreases |s|
  {
    if |s| >= 2 && s[0] == '\r' && s[1] == '\n' {
      EscapeCrLfChars(s[2..]);
      assert forall c :: c in s[2..] ==> c in s;
    } else if s != [] {
      EscapeCrLfChars(s[1..]);
      assert forall c :: c in s[1..] ==> c in s;
    }
  }

  lemma {:induction false} EscapeLfChars(s: string)
    ensures forall c :: c in EscapeLf(s) ==> c in s || IsAscii(c)
  {
    if s != [] {
      EscapeLfChars(s[1..]);
      assert forall c :: c in s[1..] ==> c in s;
    }
  }

  lemma EscapeEvaluationChars(s: string)
    ensures forall c :: c in RenderEvaluation(s) ==> c in s || IsAscii(c)
  {
    EscapeQuotesChars(s);
    EscapeCrLfChars(EscapeQuotes(s));
    EscapeLfChars(EscapeCrLf(EscapeQuotes(s)));
  }

  lemma {:induction false} SanitiseEvaluationChars(s: string)
    ensures forall c :: c in SanitiseEvaluation(s) ==> c in s || IsAscii(c)
    decreases |s|
  {
    if s != [] {
      match MatchEvaluation(s)
      case Some(e) =>
        SanitiseEvaluationChars(e.rest);
        EscapeEvaluationChars(e.content);
        assert forall c :: c in e.content || c in e.rest ==> c in ValueAndAfter(e);
        assert forall c :: c in ValueAndAfter(e) ==> c in s;
      case None =>
        SanitiseEvaluationChars(s[1..]);
        assert forall c :: c in s[1..] ==> c in s;
    }
  }

  // ------------------------------------------------------------------
  // The three chained replaces on the value as one left-to-right pass.
  // ------------------------------------------------------------------

  /** One step of the pass over the value: a CR LF pair or a lone LF
      becomes the two characters `\n`, a quote becomes `\"`, anything else
      is kept. The second component is how much input the step consumes. */
  function EscapeStep(s: string): (p: (string, nat))
    requires s != []
    ensures 1 <= p.1 <= |s|
  {
    if |s| >= 2 && s[0] == '\r' && s[1] == '\n' then ("\\n", 2)
    else if s[0] == '"' then ("\\\"", 1)
    else if s[0] == '\n' then ("\\n", 1)
    else ([s[0]], 1)
  }

  function EscapeOnePass(s: string): string
    decreases |s|
  {
    if s == [] then [] else
      var p := EscapeStep(s);
      p.0 + EscapeOnePass(s[p.1..])
  }

  lemma EscapeQuotesHead(s: string)
    ensures EscapeQuotes(s) == [] <==> s == []
    ensures s != [] ==> EscapeQuotes(s)[0] == (if s[0] == '"' then '\\' else s[0])
  {
  }

  /** The three replacements on a value that starts with CR LF. */
  lemma EscapeEvaluationCrLf(s: string)
    requires |s| >= 2 && s[0] == '\r' && s[1] == '\n'
    ensures EscapeEvaluation(s) == "\\n" + EscapeEvaluation(s[2..])
  {
    var t := EscapeQuotes(s[2..]);
    assert s == "\r\n" + s[2..];
    assert EscapeQuotes(s) == "\r\n" + t by {
      assert s[1..] == "\n" + s[2..];
    }
    assert EscapeCrLf("\r\n" + t) == "\\n" + EscapeCrLf(t) by {
      assert ("\r\n" + t)[2..] == t;
    }
    var u := EscapeCrLf(t);
    assert EscapeLf("\\n" + u) == "\\n" + EscapeLf(u) by {
      assert ("\\n" + u)[1..] == "n" + u;
      assert ("n" + u)[1..] == u;
    }
  }

  /** A head other than CR passes the CR LF replacement unchanged. */
  lemma EscapeCrLfHead(c: char, t: string)
    requires c != '\r'
    ensures EscapeCrLf([c] + t) == [c] + EscapeCrLf(t)
  {
    assert ([c] + t)[1..] == t;
  }

  /** A head other than LF passes the LF replacement unchanged. */
  lemma EscapeLfHead(c: char, t: string)
    requires c != '\n'
    ensures EscapeLf([c] + t) == [c] + EscapeLf(t)
  {
    assert ([c] + t)[1..] == t;
  }

  /** The three replacements on a value that starts with a quote. */
  lemma EscapeEvaluationQuote(s: string)
    requires s != [] && s[0] == '"'
    ensures EscapeEvaluation(s) == "\\\"" + EscapeEvaluation(s[1..])
  {
    var t := EscapeQuotes(s[1..]);
    EscapeQuotesHead(s[1..]);
    assert EscapeQuotes(s) == "\\\"" + t;
    assert "\\\"" + t == ['\\'] + (['"'] + t);
    EscapeCrLfHead('"', t);
    EscapeCrLfHead('\\', ['"'] + t);
    var u := EscapeCrLf(t);
    assert "\\\"" + u == ['\\'] + (['"'] + u);
    EscapeLfHead('"', u);
    EscapeLfHead('\\', ['"'] + u);
  }


  /** The three replacements on a value that starts with any other
      character, a CR not followed by LF included. */
  lemma EscapeEvaluationOther(s: string)
    requires s != [] && s[0] != '"' && !(|s| >= 2 && s[0] == '\r' && s[1] == '\n')
    ensures EscapeEvaluation(s) == EscapeStep(s).0 + EscapeEvaluation(s[1..])
  {
    var t := EscapeQuotes(s[1..]);
    EscapeQuotesHead(s[1..]);
    assert EscapeQuotes(s) == [s[0]] + t;
    assert EscapeCrLf([s[0]] + t) == [s[0]] + EscapeCrLf(t) by {
      assert ([s[0]] + t)[1..] == t;
    }
  }

  /** `replace('"', '\\"')`, then `replace("\r\n", "\\n")`, then
      `replace("\n", "\\n")` rewrite the value as the single pass does:
      no replacement creates or destroys a match of a later one. */
  lemma {:induction false} EscapeEvaluationIsOnePass(s: string)
    ensures EscapeEvaluation(s) == EscapeOnePass(s)
    decreases |s|
  {
    if |s| >= 2 && s[0] == '\r' && s[1] == '\n' {
      EscapeEvaluationIsOnePass(s[2..]);
      EscapeEvaluationCrLf(s);
    } else if s == [] {
    } else if s[0] == '"' {
      EscapeEvaluationIsOnePass(s[1..]);
      EscapeEvaluationQuote(s);
    } else {
      EscapeEvaluationIsOnePass(s[1..]);
      EscapeEvaluationOther(s);
    }
  }

  /** No raw line feed is left in a rewritten value. */
  lemma {:induction false} EscapeOnePassHasNoLineFeed(s: string)
    ensures '\n' !in EscapeOnePass(s)
    decreases |s|
  {
    if |s| >= 2 && s[0] == '\r' && s[1] == '\n' {
      EscapeOnePassHasNoLineFeed(s[2..]);
    } else if s != [] {
      EscapeOnePassHasNoLineFeed(s[1..]);
    }
  }

  /** The pass works piece by piece, except that it never splits a CR LF
      pair. */
  lemma EscapeStepAppend(a: string, b: string)
    requires a != []
    requires !(a[|a| - 1] == '\r' && b != [] && b[0] == '\n')
    ensures EscapeStep(a + b) == EscapeStep(a)
  {
    assert (a + b)[0] == a[0];
    if |a| >= 2 {
      assert (a + b)[1] == a[1];
    }
  }

  lemma DropFromAppend(a: string, b: string, n: nat)
    requires n <= |a|
    ensures (a + b)[n..] == a[n..] + b
  {
  }

  lemma {:induction false} EscapeOnePassAppend(a: string, b: string)
    requires !(a != [] && a[|a| - 1] == '\r' && b != [] && b[0] == '\n')
    ensures EscapeOnePass(a + b) == EscapeOnePass(a) + EscapeOnePass(b)
    decreases |a|
  {
    if a == [] {
      assert a + b == b;
    } else {
      var p := EscapeStep(a);
      var a' := a[p.1..];
      EscapeStepAppend(a, b);
      DropFromAppend(a, b, p.1);
      assert a' == [] || a'[|a'| - 1] == a[|a| - 1];
      EscapeOnePassAppend(a', b);
      EscapeOnePassUnfold(a, b, p);
      Concat3(p.0, EscapeOnePass(a'), EscapeOnePass(b));
    }
  }

  lemma EscapeOnePassUnfold(a: string, b: string, p: (string, nat))
    requires a != [] && p == EscapeStep(a) && EscapeStep(a + b) == p
    ensures EscapeOnePass(a) == p.0 + EscapeOnePass(a[p.1..])
    ensures EscapeOnePass(a + b) == p.0 + EscapeOnePass((a + b)[p.1..])
  {
  }

  lemma EscapeOnePassAround(a: string, piece: string, b: string)
    requires piece != [] && piece[0] != '\n' && piece[|piece| - 1] != '\r'
    ensures EscapeOnePass(a + piece + b) == EscapeOnePass(a) + EscapeOnePass(piece) + EscapeOnePass(b)
  {
    Concat3(a, piece, b);
    EscapeOnePassAppend(a, piece + b);
    EscapeOnePassAppend(piece, b);
  }

  /** Every quote of the value becomes `\"`. */
  lemma EscapeOnePassQuote(a: string, b: string)
    ensures EscapeOnePass(a + "\"" + b) == EscapeOnePass(a) + "\\\"" + EscapeOnePass(b)
  {
    EscapeOnePassAround(a, "\"", b);
  }

  /** Every CR LF pair becomes the two characters `\n`. */
  lemma EscapeOnePassCrLf(a: string, b: string)
    ensures EscapeOnePass(a + "\r\n" + b) == EscapeOnePass(a) + "\\n" + EscapeOnePass(b)
  {
    EscapeOnePassAround(a, "\r\n", b);
  }

  /** Every LF that does not end a CR LF pair becomes the two characters `\n`. */
  lemma EscapeOnePassLf(a: string, b: string)
    requires a == [] || a[|a| - 1] != '\r'
    ensures EscapeOnePass(a + "\n" + b) == EscapeOnePass(a) + "\\n" + EscapeOnePass(b)
  {
    Concat3(a, "\n", b);
    EscapeOnePassAppend(a, "\n" + b);
    EscapeOnePassAppend("\n", b);
  }

  /** Everything other than quotes and line feeds is kept. */
  lemma {:induction false} EscapeOnePassKeeps(a: string)
    requires '"' !in a && '\n' !in a
    ensures EscapeOnePass(a) == a
    decreases |a|
  {
    if a != [] {
      EscapeOnePassKeeps(a[1..]);
      assert a == [a[0]] + a[1..];
    }
  }

  lemma RenderedValueHasNoLineFeed(content: string)
    ensures '\n' !in RenderEvaluation(content)
  {
    EscapeEvaluationIsOnePass(content);
    EscapeOnePassHasNoLineFeed(content);
  }

  // ------------------------------------------------------------------
  // The evaluation rewrite at the edges of the text.
  // ------------------------------------------------------------------

  /** A match needs a `}`, so a text without one is left alone. */
  lemma {:induction false} SanitiseWithoutCloseBrace(s: string)
    requires '}' !in s
    ensures SanitiseEvaluation(s) == s
    decreases |s|
  {
    if s != [] {
      match MatchEvaluation(s)
      case Some(e) =>
        assert false;
      case None =>
        assert '}' !in s[1..];
        SanitiseWithoutCloseBrace(s[1..]);
    }
  }

  lemma LastOfAppend(a: string, b: string)
    requires b != []
    ensures (a + b)[|a + b| - 1] == b[|b| - 1]
  {
  }

  lemma RestIsShorter(s: string, e: EvaluationMatch)
    requires MatchEvaluation(s) == Some(e)
    ensures |e.rest| < |s|
  {
  }

  /** A match that leaves a rest ends where the text ends. */
  lemma MatchEndsWithRest(s: string, e: EvaluationMatch)
    requires MatchEvaluation(s) == Some(e) && e.rest != []
    ensures s[|s| - 1] == e.rest[|e.rest| - 1]
  {
    var b := "}" + e.rest;
    LastOfAppend("}", e.rest);
    LastOfAppend(e.gap3, b);
    LastOfAppend("\"", e.gap3 + b);
    LastOfAppend(e.content, "\"" + (e.gap3 + b));
    LastOfAppend(EvaluationKey + e.gap1 + ":" + e.gap2 + "\"", ValueAndAfter(e));
  }

  /** The rewrite of a non-empty `s` ends with the text's own last
      character or with a quote. */
  predicate EndsAsBefore(s: string)
  {
    var r := SanitiseEvaluation(s);
    s != [] && r != [] && (r[|r| - 1] == s[|s| - 1] || r[|r| - 1] == '"')
  }

  lemma EndsAfterMatch(s: string, e: EvaluationMatch)
    requires s != [] && MatchEvaluation(s) == Some(e)
    requires e.rest != [] ==> EndsAsBefore(e.rest)
    ensures EndsAsBefore(s)
  {
    var head := RenderEvaluation(e.content);
    assert SanitiseEvaluation(s) == head + SanitiseEvaluation(e.rest);
    if e.rest != [] {
      MatchEndsWithRest(s, e);
      LastOfAppend(head, SanitiseEvaluation(e.rest));
    } else {
      assert SanitiseEvaluation(s) == head;
      LastOfAppend("\"evaluation\": \"" + EscapeEvaluation(e.content), "\"");
    }
  }

  lemma EndsAfterSkip(s: string)
    requires s != [] && MatchEvaluation(s).None?
    requires |s| > 1 ==> EndsAsBefore(s[1..])
    ensures EndsAsBefore(s)
  {
    assert SanitiseEvaluation(s) == [s[0]] + SanitiseEvaluation(s[1..]);
    if |s| > 1 {
      LastOfAppend([s[0]], SanitiseEvaluation(s[1..]));
      LastOfAppend([s[0]], s[1..]);
      assert s == [s[0]] + s[1..];
    }
  }

  /** The rewrite ends with the text's own last character or with the quote
      that closes a rewritten value. */
  lemma {:induction false} SanitiseLast(s: string)
    requires s != []
    ensures EndsAsBefore(s)
    decreases |s|
  {
    var m := MatchEvaluation(s);
    if m.Some? {
      if m.value.rest != [] {
        RestIsShorter(s, m.value);
        SanitiseLast(m.value.rest);
      }
      EndsAfterMatch(s, m.value);
    } else {
      if |s| > 1 {
        SanitiseLast(s[1..]);
      }
      EndsAfterSkip(s);
    }
  }

  lemma SanitiseFirst(s: string)
    requires s != [] && s[0] == '{'
    ensures SanitiseEvaluation(s) != [] && SanitiseEvaluation(s)[0] == '{'
  {
    assert !(EvaluationKey <= s) by { assert EvaluationKey[0] == '"'; }
  }

  // ------------------------------------------------------------------
  // `clean_json_string` as a whole.
  // ------------------------------------------------------------------

  /** The result holds none of the four typographic quotes “ ” ‘ ’: they are
      replaced early and no later step brings them back. */
  lemma CleanHasNoSmartQuotes(text: string)
    ensures NoSmartQuote(CleanJsonString(text))
  {
    var p := Prepared(text);
    var u := ExtractSpan(p);
    var t := SanitiseEvaluation(u);
    var r := CleanJsonString(text);
    PreparedChars(text);
    ExtractSpanChars(p);
    SanitiseEvaluationChars(u);
    RStripChars(t);
    forall i | 0 <= i < |r| ensures !IsSmartQuote(r[i]) {
      var c := r[i];
      assert c in r;
      assert c in t || c == '\n' || c == '}';
      if c in t && !IsAscii(c) {
        assert c in p;
        var j :| 0 <= j < |p| && p[j] == c;
      }
    }
  }

  /** Without braces nothing fails and nothing past `strip()` changes the text. */
  lemma CleanWithoutBraces(text: string)
    requires '{' !in text && '}' !in text
    ensures CleanJsonString(text) == Prepared(text)
  {
    var p := Prepared(text);
    PreparedChars(text);
    assert '{' !in p && '}' !in p;
    SanitiseWithoutCloseBrace(p);
    StripChars(p);
  }

  /** When the first `{` comes before the last `}`, the prose around them is
      dropped and the result opens with `{`. */
  lemma CleanKeepsSpan(text: string)
    requires var p := Prepared(text);
      '{' in p && '}' in p && IndexOf(p, '{') < LastIndexOf(p, '}')
    ensures var p := Prepared(text);
      ExtractSpan(p) == p[IndexOf(p, '{')..LastIndexOf(p, '}') + 1]
    ensures var r := CleanJsonString(text); r != [] && r[0] == '{'
  {
    var p := Prepared(text);
    var u := ExtractSpan(p);
    SanitiseFirst(u);
    var t := SanitiseEvaluation(u);
    RStripSpec(t);
  }

  /** When every `}` comes before the first `{`, Python's slice is empty and
      so is the result. */
  lemma CleanReversedBraces(text: string)
    requires var p := Prepared(text);
      '{' in p && '}' in p && LastIndexOf(p, '}') < IndexOf(p, '{')
    ensures CleanJsonString(text) == ""
  {
  }

  predicate EndsUnblank(s: string)
  {
    s == [] || !IsSpace(s[|s| - 1])
  }

  lemma ExtractSpanEndsUnblank(s: string)
    requires EndsUnblank(s)
    ensures EndsUnblank(ExtractSpan(s))
  {
  }

  lemma SanitiseEndsUnblank(s: string)
    requires EndsUnblank(s)
    ensures EndsUnblank(SanitiseEvaluation(s))
  {
    if s != [] {
      SanitiseLast(s);
    }
  }

  /** The closing brace is added exactly when the stripped text opens an
      object it does not close, so an opened result is always closed. */
  lemma CloseBraceCloses(t: string)
    requires EndsUnblank(t)
    ensures var r := CloseBrace(t); r != [] && r[0] == '{' ==> r[|r| - 1] == '}'
    ensures var st := Strip(t); st != [] && st[0] == '{' && st[|st| - 1] != '}' ==>
      CloseBrace(t) == RStrip(t) + "\n}"
    ensures var st := Strip(t); !(st != [] && st[0] == '{' && st[|st| - 1] != '}') ==>
      CloseBrace(t) == t
  {
    var r := CloseBrace(t);
    if r != [] && r[0] == '{' && r == t {
      StripKeepsFirst(t);
      StripKeepsLast(t);
    }
  }

  /** A result that opens with `{` also closes with `}`. */
  lemma CleanIsClosed(text: string)
    ensures var r := CleanJsonString(text);
      r != [] && r[0] == '{' ==> r[|r| - 1] == '}'
  {
    var p := Prepared(text);
    StripLast(UnescapeApostrophes(NormaliseQuotes(DropFences(text))));
    ExtractSpanEndsUnblank(p);
    SanitiseEndsUnblank(ExtractSpan(p));
    CloseBraceCloses(SanitiseEvaluation(ExtractSpan(p)));
  }
}
