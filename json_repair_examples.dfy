/** Worked inputs of `clean_json_string`, each computed through the general
    facts about its steps. */
module JsonRepairExamples {
  import opened Wrappers
  import opened Text
  import opened JsonRepair
  import opened JsonRepairProperties

  /** No occurrence of the marker starts inside `y`. */
  predicate MarkerFree(y: string, z: string, marker: string)
  {
    forall i :: 0 <= i < |y| ==> !(marker <= (y + z)[i..])
  }

  lemma {:induction false} DropMarkerSkips(y: string, z: string, marker: string)
    requires marker != [] && MarkerFree(y, z, marker)
    ensures DropMarker(y + z, marker) == y + DropMarker(z, marker)
    decreases |y|
  {
    if y != [] {
      assert !(marker <= (y + z)[0..]);
      assert (y + z)[1..] == y[1..] + z;
      assert MarkerFree(y[1..], z, marker) by {
        forall i | 0 <= i < |y[1..]| ensures !(marker <= (y[1..] + z)[i..]) {
          assert (y[1..] + z)[i..] == (y + z)[i + 1..];
        }
      }
      DropMarkerSkips(y[1..], z, marker);
    } else {
      assert y + z == z;
    }
  }

  lemma DropMarkerAt(g: string, t: string, marker: string)
    requires marker != [] && AllSpace(g) && (t == [] || !IsSpace(t[0]))
    ensures DropMarker(marker + g + t, marker) == DropMarker(t, marker)
  {
    var s := marker + g + t;
    assert s[|marker|..] == g + t;
    LStripUnique(g + t, g, t);
  }

  lemma NormaliseQuotesKeeps(s: string)
    requires NoSmartQuote(s)
    ensures NormaliseQuotes(s) == s
  {
  }

  lemma {:induction false} UnescapeApostrophesKeeps(s: string)
    requires NoEscapedApostrophe(s)
    ensures UnescapeApostrophes(s) == s
    decreases |s|
  {
    if s != [] {
      assert !(|s| >= 2 && s[0] == '\\' && s[1] == '\'');
      UnescapeApostrophesKeeps(s[1..]);
      assert s == [s[0]] + s[1..];
    }
  }

  lemma StripKeeps(s: string)
    requires s != [] && !IsSpace(s[0]) && !IsSpace(s[|s| - 1])
    ensures Strip(s) == s
  {
    LStripNoLeadingSpace(s);
    RStripNoTrailingSpace(s);
  }

  lemma ExtractSpanWhole(s: string)
    requires s != [] && s[0] == '{' && s[|s| - 1] == '}'
    ensures ExtractSpan(s) == s
  {
    assert '{' in s && '}' in s;
    assert IndexOf(s, '{') == 0;
    assert LastIndexOf(s, '}') == |s| - 1;
    assert s[0..|s|] == s;
  }

  /** The text a match covers, with the unmatched rest after it. */
  function MatchText(e: EvaluationMatch): string
  {
    EvaluationKey + e.gap1 + ":" + e.gap2 + "\"" + ValueAndAfter(e)
  }

  /** One rewritten object `{"evaluation": "…"}` with nothing after it. */
  lemma SanitiseObject(e: EvaluationMatch)
    requires AllSpace(e.gap1) && AllSpace(e.gap2) && AllSpace(e.gap3)
    requires |e.content| >= 1 && e.rest == []
    requires forall j :: 1 <= j < |e.content| ==> !Closes(ValueAndAfter(e), j)
    ensures SanitiseEvaluation("{" + MatchText(e)) == "{" + RenderEvaluation(e.content)
  {
    var m := MatchText(e);
    var s := "{" + m;
    MatchEvaluationComplete(m, e);
    assert !(EvaluationKey <= s) by { assert EvaluationKey[0] != s[0]; }
    assert s[1..] == m;
    assert MatchEvaluation(s) == None;
    assert SanitiseEvaluation(s) == "{" + SanitiseEvaluation(m);
    assert SanitiseEvaluation(m) == RenderEvaluation(e.content) + SanitiseEvaluation([]);
  }

  /** The appended brace on a text that opens an object it does not close. */
  lemma CloseBraceAppends(u: string)
    requires u != [] && u[0] == '{' && !IsSpace(u[|u| - 1]) && u[|u| - 1] != '}'
    ensures CloseBrace(u) == u + "\n}"
  {
    StripKeeps(u);
    RStripNoTrailingSpace(u);
  }

  lemma {:induction false} SanitiseKeeps(s: string)
    requires forall i :: 0 <= i < |s| ==> !(EvaluationKey <= s[i..])
    ensures SanitiseEvaluation(s) == s
    decreases |s|
  {
    if s != [] {
      assert !(EvaluationKey <= s[0..]);
      assert s[0..] == s;
      assert forall i :: 0 <= i < |s[1..]| ==> s[1..][i..] == s[i + 1..];
      SanitiseKeeps(s[1..]);
      assert s == [s[0]] + s[1..];
    }
  }

  lemma BacktickFree(y: string, z: string, marker: string)
    requires marker != [] && marker[0] == '`' && '`' !in y
    ensures MarkerFree(y, z, marker)
  {
    forall i | 0 <= i < |y| ensures !(marker <= (y + z)[i..]) {
      assert (y + z)[i..][0] == y[i];
    }
  }

  lemma {:induction false} DropMarkerShort(z: string, marker: string)
    requires marker != [] && |z| < |marker|
    ensures DropMarker(z, marker) == z
    decreases |z|
  {
    if z != [] {
      DropMarkerShort(z[1..], marker);
      assert z == [z[0]] + z[1..];
    }
  }

  lemma DropMarkerBeforeFence(og: string)
    requires '`' !in og
    ensures DropMarker(og + Fence, JsonFence) == og + Fence
  {
    BacktickFree(og, Fence, JsonFence);
    DropMarkerSkips(og, Fence, JsonFence);
    DropMarkerShort(Fence, JsonFence);
  }

  lemma DropMarkerAfter(pre: string, marker: string, g: string, rest: string)
    requires marker != [] && marker[0] == '`' && '`' !in pre
    requires AllSpace(g) && (rest == [] || !IsSpace(rest[0]))
    ensures DropMarker(pre + marker + g + rest, marker) == pre + DropMarker(rest, marker)
  {
    var x := marker + g + rest;
    Concat4(pre, marker, g, rest);
    BacktickFree(pre, x, marker);
    DropMarkerSkips(pre, x, marker);
    DropMarkerAt(g, rest, marker);
  }

  lemma Concat4(a: string, b: string, c: string, d: string)
    ensures a + b + c + d == a + (b + c + d)
  {
  }

  lemma DropOpeningFence(pre: string, g1: string, og: string)
    requires '`' !in pre && '`' !in og && og != [] && !IsSpace(og[0]) && AllSpace(g1)
    ensures DropMarker(pre + JsonFence + g1 + og + Fence, JsonFence) == pre + og + Fence
  {
    DropMarkerAfter(pre, JsonFence, g1, og + Fence);
    DropMarkerBeforeFence(og);
    assert pre + JsonFence + g1 + og + Fence == pre + JsonFence + g1 + (og + Fence);
  }

  lemma DropClosingFence(y: string)
    requires '`' !in y
    ensures DropMarker(y + Fence, Fence) == y
  {
    BacktickFree(y, Fence, Fence);
    DropMarkerSkips(y, Fence, Fence);
    assert Fence == Fence + [] + [];
    DropMarkerAt([], [], Fence);
  }

  /** The fences go, together with the blanks after the opening one. */
  lemma DropFencesAround(pre: string, g1: string, o: string, g2: string)
    requires '`' !in pre && '`' !in o && o != [] && !IsSpace(o[0])
    requires AllSpace(g1) && AllSpace(g2)
    ensures DropFences(pre + JsonFence + g1 + o + g2 + Fence) == pre + o + g2
  {
    var og := o + g2;
    assert '`' !in og by {
      forall i | 0 <= i < |og| ensures og[i] != '`' {
        if i >= |o| { assert og[i] == g2[i - |o|]; }
      }
    }
    assert og[0] == o[0];
    DropOpeningFence(pre, g1, og);
    assert pre + JsonFence + g1 + o + g2 + Fence == pre + JsonFence + g1 + og + Fence;
    DropClosingFence(pre + og);
    assert pre + og + Fence == (pre + og) + Fence;
    assert pre + og == pre + o + g2;
  }

  predicate NoEscapedApostrophe(s: string)
  {
    forall i :: 0 <= i < |s| - 1 ==> !(s[i] == '\\' && s[i + 1] == '\'')
  }

  lemma LStripBefore(pre: string, x: string)
    requires x != [] && !IsSpace(x[0])
    ensures LStrip(pre + x) == LStrip(pre) + x
  {
    LStripSplit(pre);
    LStripSpec(pre);
    var g := pre[..|pre| - |LStrip(pre)|];
    assert pre + x == g + (LStrip(pre) + x);
    LStripUnique(pre + x, g, LStrip(pre) + x);
  }

  lemma StripAroundObject(pre: string, o: string, g2: string)
    requires o != [] && !IsSpace(o[0]) && !IsSpace(o[|o| - 1]) && AllSpace(g2)
    ensures Strip(pre + o + g2) == LStrip(pre) + o
  {
    assert pre + o + g2 == pre + (o + g2);
    assert (o + g2)[0] == o[0];
    LStripBefore(pre, o + g2);
    assert LStrip(pre) + (o + g2) == (LStrip(pre) + o) + g2;
    RStripUnique((LStrip(pre) + o) + g2, LStrip(pre) + o, g2);
  }

  lemma SpanAfterProse(q: string, o: string)
    requires '{' !in q && o != [] && o[0] == '{' && o[|o| - 1] == '}'
    ensures ExtractSpan(q + o) == o
  {
    var s := q + o;
    assert s == q + ['{'] + o[1..];
    IndexOfAfter(q, '{', o[1..]);
    assert s[|s| - 1] == '}';
    assert LastIndexOf(s, '}') == |s| - 1;
    assert s[|q|..|s|] == o;
  }

  lemma PreparedParts(pre: string, o: string, g2: string)
    requires '\\' !in pre && NoSmartQuote(pre) && AllSpace(g2)
    requires o != [] && o[|o| - 1] == '}' && NoSmartQuote(o) && NoEscapedApostrophe(o)
    ensures var y := pre + o + g2; UnescapeApostrophes(NormaliseQuotes(y)) == y
  {
    var y := pre + o + g2;
    assert NoSmartQuote(y) by {
      forall i | 0 <= i < |y| ensures !IsSmartQuote(y[i]) {
        if i < |pre| { assert y[i] == pre[i]; }
        else if i < |pre| + |o| { assert y[i] == o[i - |pre|]; }
        else { assert y[i] == g2[i - |pre| - |o|]; }
      }
    }
    NormaliseQuotesKeeps(y);
    assert NoEscapedApostrophe(y) by {
      forall i | 0 <= i < |y| - 1 ensures !(y[i] == '\\' && y[i + 1] == '\'') {
        if i < |pre| {
          assert y[i] == pre[i];
        } else if i < |pre| + |o| - 1 {
          assert y[i] == o[i - |pre|] && y[i + 1] == o[i - |pre| + 1];
        } else if i == |pre| + |o| - 1 {
          assert y[i] == o[|o| - 1];
        } else {
          assert y[i] == g2[i - |pre| - |o|];
        }
      }
    }
    UnescapeApostrophesKeeps(y);
  }

  /** Prose before the opening fence, the fences and the blanks around the
      object all go; the first four steps and the slice leave only the
      object. */
  lemma PreparedAround(pre: string, g1: string, o: string, g2: string)
    requires '`' !in pre && '{' !in pre && '\\' !in pre && NoSmartQuote(pre)
    requires o != [] && o[0] == '{' && o[|o| - 1] == '}'
    requires '`' !in o && NoSmartQuote(o) && NoEscapedApostrophe(o)
    requires AllSpace(g1) && AllSpace(g2)
    ensures ExtractSpan(Prepared(pre + JsonFence + g1 + o + g2 + Fence)) == o
  {
    DropFencesAround(pre, g1, o, g2);
    PreparedParts(pre, o, g2);
    StripAroundObject(pre, o, g2);
    LStripChars(pre);
    SpanAfterProse(LStrip(pre), o);
  }

  lemma DropMarkerKeeps(s: string, marker: string)
    requires marker != [] && marker[0] == '`' && '`' !in s
    ensures DropMarker(s, marker) == s
  {
    BacktickFree(s, [], marker);
    assert s + [] == s;
    DropMarkerSkips(s, [], marker);
  }

  lemma DropFencesKeeps(s: string)
    requires '`' !in s
    ensures DropFences(s) == s
  {
    DropMarkerKeeps(s, JsonFence);
    DropMarkerKeeps(s, Fence);
  }

  /** Text that is already clean up to the slice: the first four steps leave
      a braced text alone. */
  lemma PreparedKeeps(s: string)
    requires s != [] && s[0] == '{' && s[|s| - 1] == '}'
    requires '`' !in s && NoSmartQuote(s) && NoEscapedApostrophe(s)
    ensures ExtractSpan(Prepared(s)) == s
  {
    DropFencesKeeps(s);
    NormaliseQuotesKeeps(s);
    UnescapeApostrophesKeeps(s);
    StripKeeps(s);
    assert Prepared(s) == s;
    ExtractSpanWhole(s);
  }

  /** Fences, blanks and leading prose do not change what the object
      cleans to. */
  lemma CleanAround(pre: string, g1: string, o: string, g2: string)
    requires '`' !in pre && '{' !in pre && '\\' !in pre && NoSmartQuote(pre)
    requires o != [] && o[0] == '{' && o[|o| - 1] == '}'
    requires '`' !in o && NoSmartQuote(o) && NoEscapedApostrophe(o)
    requires AllSpace(g1) && AllSpace(g2)
    ensures CleanJsonString(pre + JsonFence + g1 + o + g2 + Fence) == CleanJsonString(o)
  {
    PreparedAround(pre, g1, o, g2);
    PreparedKeeps(o);
  }

  predicate KeyFree(s: string)
  {
    forall i :: 0 <= i < |s| ==> !(EvaluationKey <= s[i..])
  }

  /** An object without an `"evaluation"` key comes out as it went in. */
  lemma CleanPlainObject(o: string)
    requires o != [] && o[0] == '{' && o[|o| - 1] == '}'
    requires '`' !in o && NoSmartQuote(o) && NoEscapedApostrophe(o) && KeyFree(o)
    ensures CleanJsonString(o) == o
  {
    PreparedKeeps(o);
    SanitiseKeeps(o);
    StripKeeps(o);
  }

  /** The object `{"evaluation": "<value>"<blanks>}` as a match. */
  function EvaluationObject(value: string, g3: string): EvaluationMatch
  {
    EvaluationMatch("", " ", value, g3, "")
  }

  /** A one-key evaluation object: the value is escaped, the matched `}` is
      dropped, and the brace comes back after a line feed. */
  lemma CleanEvaluationObject(value: string, g3: string)
    requires |value| >= 1 && AllSpace(g3)
    requires forall j :: 1 <= j < |value| ==> !Closes(ValueAndAfter(EvaluationObject(value, g3)), j)
    requires var o := "{" + MatchText(EvaluationObject(value, g3));
      '`' !in o && NoSmartQuote(o) && NoEscapedApostrophe(o)
    ensures CleanJsonString("{" + MatchText(EvaluationObject(value, g3)))
      == "{" + RenderEvaluation(value) + "\n}"
  {
    var e := EvaluationObject(value, g3);
    var o := "{" + MatchText(e);
    ObjectEndsWithBrace(value, g3);
    PreparedKeeps(o);
    assert ExtractSpan(Prepared(o)) == o;
    var u := "{" + RenderEvaluation(value);
    SanitiseObject(e);
    assert SanitiseEvaluation(o) == u;
    RenderedObjectEnds(value);
    CloseBraceAppends(u);
    assert CleanJsonString(o) == CloseBrace(u);
  }

  lemma ObjectEndsWithBrace(value: string, g3: string)
    ensures var o := "{" + MatchText(EvaluationObject(value, g3));
      o != [] && o[0] == '{' && o[|o| - 1] == '}'
  {
  }

  lemma RenderedObjectEnds(value: string)
    ensures var u := "{" + RenderEvaluation(value);
      u != [] && u[0] == '{' && u[|u| - 1] == '"'
  {
  }

  /** A fenced object comes out without its fences and the line feeds around
      it. */
  lemma FencedObject()
    ensures CleanJsonString("```json\n{\"a\":1}\n```") == "{\"a\":1}"
  {
    var o := "{\"a\":1}";
    assert "```json\n{\"a\":1}\n```" == [] + JsonFence + "\n" + o + "\n" + Fence;
    CleanAround([], "\n", o, "\n");
    CleanPlainObject(o);
  }

  /** A value without quotes whose only line break is one LF. */
  lemma EscapeOneLineFeed(a: string, b: string)
    requires '"' !in a && '\n' !in a && '"' !in b && '\n' !in b
    requires a == [] || a[|a| - 1] != '\r'
    ensures EscapeEvaluation(a + "\n" + b) == a + "\\n" + b
  {
    EscapeEvaluationIsOnePass(a + "\n" + b);
    EscapeOnePassLf(a, b);
    EscapeOnePassKeeps(a);
    EscapeOnePassKeeps(b);
  }

  /** Text with no quote, line feed, backtick, backslash or typographic
      quote. */
  predicate Plain(s: string)
  {
    '"' !in s && '\n' !in s && '`' !in s && '\\' !in s && NoSmartQuote(s)
  }

  lemma ObjectText(value: string, g3: string)
    ensures "{" + MatchText(EvaluationObject(value, g3)) == "{\"evaluation\": \"" + value + "\"" + g3 + "}"
    ensures "{" + MatchText(EvaluationObject(value, g3)) == "{\"evaluation\": \"" + value + ("\"" + g3 + "}")
  {
  }

  lemma ObjectChars(value: string, g3: string)
    ensures forall c :: c in "{" + MatchText(EvaluationObject(value, g3)) ==>
      c in value || c in g3 || c in "{\"evaluation\": }"
  {
  }

  /** A `\\'` pair can only straddle two pieces at a backslash, so pieces
      without one at their ends keep the property. */
  lemma NoEscapedApostropheJoin(p: string, v: string, q: string)
    requires '\\' !in p && '\\' !in q && NoEscapedApostrophe(v)
    requires v == [] || v[|v| - 1] != '\\'
    ensures NoEscapedApostrophe(p + v + q)
  {
    var s := p + v + q;
    forall i | 0 <= i < |s| - 1 ensures !(s[i] == '\\' && s[i + 1] == '\'') {
      if i < |p| {
        assert s[i] == p[i];
      } else if i < |p| + |v| - 1 {
        assert s[i] == v[i - |p|] && s[i + 1] == v[i - |p| + 1];
      } else if i == |p| + |v| - 1 {
        assert s[i] == v[|v| - 1];
      } else {
        assert s[i] == q[i - |p| - |v|];
      }
    }
  }

  lemma ObjectHasNoSmartQuote(value: string, g3: string)
    requires '`' !in value && NoSmartQuote(value) && AllSpace(g3)
    ensures var o := "{" + MatchText(EvaluationObject(value, g3));
      '`' !in o && NoSmartQuote(o)
  {
    var o := "{" + MatchText(EvaluationObject(value, g3));
    ObjectChars(value, g3);
    assert forall c :: c in g3 ==> IsSpace(c);
    forall i | 0 <= i < |o| ensures !IsSmartQuote(o[i]) {
      assert o[i] in o;
      if o[i] in value {
        var k :| 0 <= k < |value| && value[k] == o[i];
      }
    }
  }

  lemma ObjectHasNoEscapedApostrophe(value: string, g3: string)
    requires NoEscapedApostrophe(value) && (value == [] || value[|value| - 1] != '\\') && AllSpace(g3)
    ensures NoEscapedApostrophe("{" + MatchText(EvaluationObject(value, g3)))
  {
    var q := "\"" + g3 + "}";
    assert '\\' !in q by {
      forall i | 0 <= i < |q| ensures q[i] != '\\' {
        if 0 < i < |q| - 1 { assert q[i] == g3[i - 1]; }
      }
    }
    ObjectText(value, g3);
    assert "{" + MatchText(EvaluationObject(value, g3)) == "{\"evaluation\": \"" + value + q;
    NoEscapedApostropheJoin("{\"evaluation\": \"", value, q);
  }

  /** The object around a value without backticks or typographic quotes,
      and with no `\\'` in it, passes the first four steps unchanged. */
  lemma ObjectIsClean(value: string, g3: string)
    requires '`' !in value && NoSmartQuote(value) && NoEscapedApostrophe(value)
    requires (value == [] || value[|value| - 1] != '\\') && AllSpace(g3)
    ensures var o := "{" + MatchText(EvaluationObject(value, g3));
      '`' !in o && NoSmartQuote(o) && NoEscapedApostrophe(o)
  {
    ObjectHasNoSmartQuote(value, g3);
    ObjectHasNoEscapedApostrophe(value, g3);
  }

  lemma PlainIsClean(s: string)
    requires Plain(s)
    ensures NoEscapedApostrophe(s) && (s == [] || s[|s| - 1] != '\\')
  {
    assert forall i :: 0 <= i < |s| ==> s[i] != '\\' by {
      forall i | 0 <= i < |s| ensures s[i] != '\\' { assert s[i] in s; }
    }
  }

  lemma PlainNoClose(value: string, g3: string)
    requires '"' !in value
    ensures forall j :: 1 <= j < |value| ==> !Closes(ValueAndAfter(EvaluationObject(value, g3)), j)
  {
    var e := EvaluationObject(value, g3);
    forall j | 1 <= j < |value| ensures !Closes(ValueAndAfter(e), j) {
      assert ValueAndAfter(e)[j] == value[j];
    }
  }

  /** A model reply with prose before the fenced object and a raw line break
      inside the evaluation, such as `Here is the result:` followed by
      `{"evaluation": "Line1<LF>Line2"}` in a `json` fence: the prose and the
      fences go, the break becomes `\n`, and the brace reappears on a line of
      its own. */
  lemma ReplyWithProse(pre: string, a: string, b: string)
    requires '`' !in pre && '{' !in pre && '\\' !in pre && NoSmartQuote(pre)
    requires Plain(a) && Plain(b) && (a == [] || a[|a| - 1] != '\r')
    ensures CleanJsonString(pre + JsonFence + "\n" + ("{\"evaluation\": \"" + a + "\n" + b + "\"}") + "\n" + Fence)
      == "{\"evaluation\": \"" + a + "\\n" + b + "\"\n}"
  {
    var value := a + "\n" + b;
    var o := "{" + MatchText(EvaluationObject(value, []));
    ObjectText(value, []);
    assert o == "{\"evaluation\": \"" + a + "\n" + b + "\"}";
    assert NoSmartQuote(value) by {
      forall i | 0 <= i < |value| ensures !IsSmartQuote(value[i]) {
        if i < |a| { assert value[i] == a[i]; }
        else if i > |a| { assert value[i] == b[i - |a| - 1]; }
      }
    }
    PlainIsClean(a);
    PlainIsClean(b);
    NoEscapedApostropheJoin(a, "\n", b);
    assert value[|value| - 1] != '\\' by {
      if b != [] { assert value[|value| - 1] == b[|b| - 1]; }
    }
    ObjectIsClean(value, []);
    assert o[|o| - 1] == '}';
    CleanAround(pre, "\n", o, "\n");
    PlainNoClose(value, []);
    CleanEvaluationObject(value, []);
    EscapeOneLineFeed(a, b);
    var text := pre + JsonFence + "\n" + ("{\"evaluation\": \"" + a + "\n" + b + "\"}") + "\n" + Fence;
    assert text == pre + JsonFence + "\n" + o + "\n" + Fence;
    var r := "{" + RenderEvaluation(value) + "\n}";
    assert CleanJsonString(text) == r;
    RenderedObject(a + "\\n" + b);
    assert r == "{\"evaluation\": \"" + (a + "\\n" + b) + "\"\n}";
    Parts3("{\"evaluation\": \"", a, "\\n", b, "\"\n}");
  }

  lemma RenderedObject(y: string)
    ensures "{" + ("\"evaluation\": \"" + y + "\"") + "\n}" == "{\"evaluation\": \"" + y + "\"\n}"
  {
  }

  lemma Parts3(p: string, a: string, m: string, b: string, q: string)
    ensures p + (a + m + b) + q == p + a + m + b + q
  {
  }

  /** The output of one rewrite is again a one-key object, with the escaped
      value and a line feed before the brace. */
  lemma RenderAsObject(v: string)
    ensures "{" + RenderEvaluation(v) + "\n}" == "{" + MatchText(EvaluationObject(EscapeEvaluation(v), "\n"))
  {
    ObjectText(EscapeEvaluation(v), "\n");
  }

  /** A quote inside the value that is followed by text other than blanks and
      `}` does not end the lazy group. */
  lemma QuoteNoClose(x: string, y: string, g3: string)
    requires '"' !in x && '"' !in y && y != [] && !IsSpace(y[0]) && y[0] != '}'
    ensures var v := x + "\"" + y;
      forall j :: 1 <= j < |v| ==> !Closes(ValueAndAfter(EvaluationObject(v, g3)), j)
  {
    var v := x + "\"" + y;
    var body := ValueAndAfter(EvaluationObject(v, g3));
    forall j | 1 <= j < |v| ensures !Closes(body, j) {
      if j < |x| {
        assert body[j] == x[j];
      } else if j == |x| {
        var t := body[j + 1..];
        assert t == y + "\"" + g3 + "}";
        SplitSpaceUnique(t, [], t);
      } else {
        assert body[j] == y[j - |x| - 1];
      }
    }
  }

  lemma EscapeQuoteBetween(x: string, y: string)
    requires '"' !in x && '\n' !in x && '"' !in y && '\n' !in y
    ensures EscapeEvaluation(x + "\"" + y) == x + "\\\"" + y
  {
    EscapeEvaluationIsOnePass(x + "\"" + y);
    EscapeOnePassQuote(x, y);
    EscapeOnePassKeeps(x);
    EscapeOnePassKeeps(y);
  }

  /** One rewrite of an object whose value holds one quote. */
  lemma CleanQuotedValue(x: string, y: string, g3: string)
    requires '"' !in x && '\n' !in x && '`' !in x && NoSmartQuote(x) && NoEscapedApostrophe(x)
    requires Plain(y) && y != [] && !IsSpace(y[0]) && y[0] != '}' && AllSpace(g3)
    ensures CleanJsonString("{" + MatchText(EvaluationObject(x + "\"" + y, g3)))
      == "{" + MatchText(EvaluationObject(x + "\\\"" + y, "\n"))
  {
    var v := x + "\"" + y;
    PlainIsClean(y);
    assert NoSmartQuote(v) by {
      forall i | 0 <= i < |v| ensures !IsSmartQuote(v[i]) {
        if i < |x| { assert v[i] == x[i]; }
        else if i > |x| { assert v[i] == y[i - |x| - 1]; }
      }
    }
    assert '`' !in v;
    NoEscapedApostropheJoin([], x + "\"", y);
    assert NoEscapedApostrophe(x + "\"") by {
      forall i | 0 <= i < |x| ensures !(((x + "\"")[i] == '\\' && (x + "\"")[i + 1] == '\'')) {
        if i < |x| - 1 { assert (x + "\"")[i + 1] == x[i + 1]; }
      }
    }
    assert [] + (x + "\"") + y == v;
    assert v[|v| - 1] == y[|y| - 1];
    ObjectIsClean(v, g3);
    QuoteNoClose(x, y, g3);
    CleanEvaluationObject(v, g3);
    RenderAsObject(v);
    EscapeQuoteBetween(x, y);
  }

  /** The object text around a value made of three pieces. */
  lemma QuotedObject(x: string, m: string, y: string, g3: string)
    ensures "{" + MatchText(EvaluationObject(x + m + y, g3)) == "{\"evaluation\": \"" + x + m + y + ("\"" + g3 + "}")
  {
    ObjectText(x + m + y, g3);
    Parts3("{\"evaluation\": \"", x, m, y, "\"" + g3 + "}");
  }

  lemma CleanOnceQuoted(x: string, y: string)
    requires Plain(x) && Plain(y) && y != [] && !IsSpace(y[0]) && y[0] != '}'
    ensures CleanJsonString("{\"evaluation\": \"" + x + "\"" + y + "\"}")
      == "{\"evaluation\": \"" + x + "\\\"" + y + "\"\n}"
  {
    PlainIsClean(x);
    CleanQuotedValue(x, y, []);
    QuotedObject(x, "\"", y, []);
    QuotedObject(x, "\\\"", y, "\n");
    assert "\"" + [] + "}" == "\"}";
    assert "\"" + "\n" + "}" == "\"\n}";
  }

  lemma BackslashAppended(x: string)
    requires Plain(x)
    ensures var xb := x + "\\";
      '"' !in xb && '\n' !in xb && '`' !in xb && NoSmartQuote(xb) && NoEscapedApostrophe(xb)
  {
    var xb := x + "\\";
    assert NoSmartQuote(xb) by {
      forall i | 0 <= i < |xb| ensures !IsSmartQuote(xb[i]) {
        if i < |x| { assert xb[i] == x[i]; }
      }
    }
    assert NoEscapedApostrophe(xb) by {
      forall i | 0 <= i < |xb| - 1 ensures !(xb[i] == '\\' && xb[i + 1] == '\'') {
        assert xb[i] == x[i];
        assert x[i] in x;
      }
    }
  }

  lemma BackslashJoin(x: string, y: string)
    ensures x + "\\" + "\"" + y == x + "\\\"" + y
    ensures x + "\\" + "\\\"" + y == x + "\\\\\"" + y
  {
  }

  lemma CleanTwiceQuoted(x: string, y: string)
    requires Plain(x) && Plain(y) && y != [] && !IsSpace(y[0]) && y[0] != '}'
    ensures CleanJsonString("{\"evaluation\": \"" + x + "\\\"" + y + "\"\n}")
      == "{\"evaluation\": \"" + x + "\\\\\"" + y + "\"\n}"
  {
    var xb := x + "\\";
    BackslashAppended(x);
    var v2, v3 := xb + "\"" + y, xb + "\\\"" + y;
    CleanQuotedValue(xb, y, "\n");
    ObjectText(v2, "\n");
    ObjectText(v3, "\n");
    BackslashJoin(x, y);
    assert "\"" + "\n" + "}" == "\"\n}";
    Parts3("{\"evaluation\": \"", x, "\\\"", y, "\"\n}");
    Parts3("{\"evaluation\": \"", x, "\\\\\"", y, "\"\n}");
  }

  /** The salvage step is not idempotent: on `{"evaluation": "x"y"}` the first
      pass escapes the inner quote to `\"`, and a second pass escapes that
      quote again, leaving `\\"`, one character longer. */
  lemma CleanIsNotIdempotent(x: string, y: string)
    requires Plain(x) && Plain(y) && y != [] && !IsSpace(y[0]) && y[0] != '}'
    ensures var once := CleanJsonString("{\"evaluation\": \"" + x + "\"" + y + "\"}");
      && once == "{\"evaluation\": \"" + x + "\\\"" + y + "\"\n}"
      && CleanJsonString(once) == "{\"evaluation\": \"" + x + "\\\\\"" + y + "\"\n}"
      && CleanJsonString(once) != once
  {
    CleanOnceQuoted(x, y);
    CleanTwiceQuoted(x, y);
    var once := "{\"evaluation\": \"" + x + "\\\"" + y + "\"\n}";
    var twice := "{\"evaluation\": \"" + x + "\\\\\"" + y + "\"\n}";
    assert |twice| == |once| + 1;
  }

  /** The reply `Here is the result:` + LF + a `json` fence around
      `{"evaluation": "Line1<LF>Line2"}`, written piece by piece. */
  lemma ReplyWithProseExample()
    ensures CleanJsonString("Here is the result:\n" + JsonFence + "\n"
        + ("{\"evaluation\": \"" + "Line1" + "\n" + "Line2" + "\"}") + "\n" + Fence)
      == "{\"evaluation\": \"" + "Line1" + "\\n" + "Line2" + "\"\n}"
  {
    var pre, a, b := "Here is the result:\n", "Line1", "Line2";
    assert Plain(a) && Plain(b);
    assert '`' !in pre && '{' !in pre && '\\' !in pre && NoSmartQuote(pre);
    ReplyWithProse(pre, a, b);
  }

  /** `{"evaluation": "x"y"}` cleans to `{"evaluation": "x\"y"` + LF + `}`,
      and that cleans to `{"evaluation": "x\\"y"` + LF + `}`. */
  lemma NotIdempotentExample()
    ensures CleanJsonString(CleanJsonString("{\"evaluation\": \"" + "x" + "\"" + "y" + "\"}"))
      != CleanJsonString("{\"evaluation\": \"" + "x" + "\"" + "y" + "\"}")
  {
    assert Plain("x") && Plain("y");
    CleanIsNotIdempotent("x", "y");
  }
}
