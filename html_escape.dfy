/**
 * `escapeHtml` of the accessibility-report generators: a chain of five global
 * `replace` calls, `&` first, then `<`, `>`, `"` and `'`.
 */
module HtmlEscape {

  /** `s.replace(/c/g, rep)`: every occurrence of `c` replaced by `rep`. */
  function ReplaceAll(s: string, c: char, rep: string): (r: string)
    ensures c !in rep ==> c !in r
  {
    if |s| == 0 then ""
    else (if s[0] == c then rep else [s[0]]) + ReplaceAll(s[1..], c, rep)
  }

  /** The five-step replacement chain, in the order the source applies it. */
  function EscapeHtml(s: string): string {
    var amp := ReplaceAll(s, '&', "&amp;");
    var lt := ReplaceAll(amp, '<', "&lt;");
    var gt := ReplaceAll(lt, '>', "&gt;");
    var quot := ReplaceAll(gt, '"', "&quot;");
    ReplaceAll(quot, '\'', "&#039;")
  }

  /** The characters the chain rewrites. */
  predicate IsSpecial(c: char) {
    c == '&' || c == '<' || c == '>' || c == '"' || c == '\''
  }

  /** A string in which no markup-significant character other than `&` occurs. */
  predicate MarkupFree(t: string) {
    '<' !in t && '>' !in t && '"' !in t && '\'' !in t
  }

  /** The entity each special character becomes; every other character stays. */
  function EscapeChar(c: char): (r: string)
    ensures |r| >= 1
    ensures IsSpecial(c) ==> r[0] == '&'
    ensures !IsSpecial(c) ==> r == [c]
    ensures MarkupFree(r)
  {
    match c
    case '&' => "&amp;"
    case '<' => "&lt;"
    case '>' => "&gt;"
    case '"' => "&quot;"
    case '\'' => "&#039;"
    case _ => [c]
  }

  /** The per-character escape: each character replaced by its own entity. */
  function EscapeEach(s: string): (r: string)
    ensures MarkupFree(r)
    ensures |r| >= |s|
  {
    if |s| == 0 then "" else EscapeChar(s[0]) + EscapeEach(s[1..])
  }

  lemma {:induction false} ReplaceAllAppend(a: string, b: string, c: char, rep: string)
    ensures ReplaceAll(a + b, c, rep) == ReplaceAll(a, c, rep) + ReplaceAll(b, c, rep)
  {
    if |a| > 0 {
      assert (a + b)[1..] == a[1..] + b;
      ReplaceAllAppend(a[1..], b, c, rep);
    } else {
      assert a + b == b;
    }
  }

  lemma {:induction false} ReplaceAllAbsent(s: string, c: char, rep: string)
    requires c !in s
    ensures ReplaceAll(s, c, rep) == s
  {
    if |s| > 0 {
      ReplaceAllAbsent(s[1..], c, rep);
      assert [s[0]] + s[1..] == s;
    }
  }

  lemma ReplaceAllSingle(x: char, c: char, rep: string)
    ensures ReplaceAll([x], c, rep) == if x == c then rep else [x]
  {
    assert [x][1..] == "";
  }

  /** Escaping distributes over concatenation. */
  lemma EscapeHtmlAppend(a: string, b: string)
    ensures EscapeHtml(a + b) == EscapeHtml(a) + EscapeHtml(b)
  {
    var a1, b1 := ReplaceAll(a, '&', "&amp;"), ReplaceAll(b, '&', "&amp;");
    ReplaceAllAppend(a, b, '&', "&amp;");
    var a2, b2 := ReplaceAll(a1, '<', "&lt;"), ReplaceAll(b1, '<', "&lt;");
    ReplaceAllAppend(a1, b1, '<', "&lt;");
    var a3, b3 := ReplaceAll(a2, '>', "&gt;"), ReplaceAll(b2, '>', "&gt;");
    ReplaceAllAppend(a2, b2, '>', "&gt;");
    var a4, b4 := ReplaceAll(a3, '"', "&quot;"), ReplaceAll(b3, '"', "&quot;");
    ReplaceAllAppend(a3, b3, '"', "&quot;");
    ReplaceAllAppend(a4, b4, '\'', "&#039;");
  }

  /** On a single character the chain produces that character's entity, once. */
  lemma EscapeHtmlChar(x: char)
    ensures EscapeHtml([x]) == EscapeChar(x)
  {
    match x
    case '&' => EscapeAmpersand();
    case '<' => EscapeLessThan();
    case '>' => EscapeGreaterThan();
    case '"' => EscapeQuote();
    case '\'' => EscapeApostrophe();
    case _ => EscapeHtmlIdentity([x]);
  }

  // The entity introduced by one step is left alone by the later ones.

  lemma EscapeAmpersand()
    ensures EscapeHtml("&") == "&amp;"
  {
    var e := "&amp;";
    ReplaceAllSingle('&', '&', e);
    assert '<' !in e && '>' !in e && '"' !in e && '\'' !in e;
    ReplaceAllAbsent(e, '<', "&lt;");
    ReplaceAllAbsent(e, '>', "&gt;");
    ReplaceAllAbsent(e, '"', "&quot;");
    ReplaceAllAbsent(e, '\'', "&#039;");
  }

  lemma EscapeLessThan()
    ensures EscapeHtml("<") == "&lt;"
  {
    ReplaceAllSingle('<', '&', "&amp;");
    ReplaceAllSingle('<', '<', "&lt;");
    assert '>' !in "&lt;" && '"' !in "&lt;" && '\'' !in "&lt;";
    ReplaceAllAbsent("&lt;", '>', "&gt;");
    ReplaceAllAbsent("&lt;", '"', "&quot;");
    ReplaceAllAbsent("&lt;", '\'', "&#039;");
  }

  lemma EscapeGreaterThan()
    ensures EscapeHtml(">") == "&gt;"
  {
    ReplaceAllSingle('>', '&', "&amp;");
    ReplaceAllSingle('>', '<', "&lt;");
    ReplaceAllSingle('>', '>', "&gt;");
    assert '"' !in "&gt;" && '\'' !in "&gt;";
    ReplaceAllAbsent("&gt;", '"', "&quot;");
    ReplaceAllAbsent("&gt;", '\'', "&#039;");
  }

  lemma EscapeQuote()
    ensures EscapeHtml("\"") == "&quot;"
  {
    ReplaceAllSingle('"', '&', "&amp;");
    ReplaceAllSingle('"', '<', "&lt;");
    ReplaceAllSingle('"', '>', "&gt;");
    ReplaceAllSingle('"', '"', "&quot;");
    ReplaceAllAbsent("&quot;", '\'', "&#039;");
  }

  lemma EscapeApostrophe()
    ensures EscapeHtml("'") == "&#039;"
  {
    ReplaceAllSingle('\'', '&', "&amp;");
    ReplaceAllSingle('\'', '<', "&lt;");
    ReplaceAllSingle('\'', '>', "&gt;");
    ReplaceAllSingle('\'', '"', "&quot;");
    ReplaceAllSingle('\'', '\'', "&#039;");
  }

  /**
   * Because `&` is replaced first, the chain equals the per-character escape:
   * no entity produced by one step is rewritten by a later one.
   */
  lemma {:induction false} EscapeHtmlIsPerChar(s: string)
    ensures EscapeHtml(s) == EscapeEach(s)
  {
    if |s| == 0 {
      assert EscapeHtml(s) == "";
    } else {
      assert s == [s[0]] + s[1..];
      EscapeHtmlAppend([s[0]], s[1..]);
      EscapeHtmlChar(s[0]);
      EscapeHtmlIsPerChar(s[1..]);
    }
  }

  /** The escaped text contains none of `<`, `>`, `"`, `'`. */
  lemma EscapeHtmlMarkupFree(s: string)
    ensures MarkupFree(EscapeHtml(s))
  {
    EscapeHtmlIsPerChar(s);
  }

  /** Escaping leaves a string without special characters unchanged. */
  lemma {:induction false} EscapeHtmlIdentity(s: string)
    requires forall i :: 0 <= i < |s| ==> !IsSpecial(s[i])
    ensures EscapeHtml(s) == s
  {
    assert !('&' in s || '<' in s || '>' in s || '"' in s || '\'' in s);
    ReplaceAllAbsent(s, '&', "&amp;");
    ReplaceAllAbsent(s, '<', "&lt;");
    ReplaceAllAbsent(s, '>', "&gt;");
    ReplaceAllAbsent(s, '"', "&quot;");
    ReplaceAllAbsent(s, '\'', "&#039;");
  }

  /** Decoding of the five entities `escapeHtml` produces; other text is copied. */
  function Unescape(t: string): (r: string)
    ensures |r| <= |t|
  {
    if |t| == 0 then ""
    else if t[0] != '&' then [t[0]] + Unescape(t[1..])
    else if |t| >= 5 && t[..5] == "&amp;" then "&" + Unescape(t[5..])
    else if |t| >= 4 && t[..4] == "&lt;" then "<" + Unescape(t[4..])
    else if |t| >= 4 && t[..4] == "&gt;" then ">" + Unescape(t[4..])
    else if |t| >= 6 && t[..6] == "&quot;" then "\"" + Unescape(t[6..])
    else if |t| >= 6 && t[..6] == "&#039;" then "'" + Unescape(t[6..])
    else "&" + Unescape(t[1..])
  }

  lemma UnescapeCons(x: char, rest: string)
    ensures Unescape(EscapeChar(x) + rest) == [x] + Unescape(rest)
  {
    match x
    case '&' => UnescapeEntity("&amp;", '&', rest);
    case '<' => UnescapeEntity("&lt;", '<', rest);
    case '>' => UnescapeEntity("&gt;", '>', rest);
    case '"' => UnescapeEntity("&quot;", '"', rest);
    case '\'' => UnescapeEntity("&#039;", '\'', rest);
    case _ =>
      var t := [x] + rest;
      assert t[0] == x && t[1..] == rest;
  }

  /** Decoding an entity at the front of the text. */
  lemma UnescapeEntity(e: string, x: char, rest: string)
    requires IsSpecial(x) && e == EscapeChar(x)
    ensures Unescape(e + rest) == [x] + Unescape(rest)
  {
    var t := e + rest;
    assert t[..|e|] == e && t[|e|..] == rest;
    assert t[0] == '&' && t[1] == e[1];
    assert |t| >= 5 && t[..5] == "&amp;" ==> t[1] == 'a' by {
      if |t| >= 5 && t[..5] == "&amp;" {
        assert t[..5][1] == t[1];
      }
    }
    assert |t| >= 4 && t[..4] == "&lt;" ==> t[1] == 'l' by {
      if |t| >= 4 && t[..4] == "&lt;" {
        assert t[..4][1] == t[1];
      }
    }
    assert |t| >= 4 && t[..4] == "&gt;" ==> t[1] == 'g' by {
      if |t| >= 4 && t[..4] == "&gt;" {
        assert t[..4][1] == t[1];
      }
    }
    assert |t| >= 6 && t[..6] == "&quot;" ==> t[1] == 'q' by {
      if |t| >= 6 && t[..6] == "&quot;" {
        assert t[..6][1] == t[1];
      }
    }
  }

  /** Unescaping the output recovers the input: escaping loses nothing. */
  lemma {:induction false} UnescapeEscapeHtml(s: string)
    ensures Unescape(EscapeHtml(s)) == s
  {
    EscapeHtmlIsPerChar(s);
    UnescapeEscapeEach(s);
  }

  lemma {:induction false} UnescapeEscapeEach(s: string)
    ensures Unescape(EscapeEach(s)) == s
  {
    if |s| > 0 {
      UnescapeEscapeEach(s[1..]);
      UnescapeCons(s[0], EscapeEach(s[1..]));
      assert [s[0]] + s[1..] == s;
    }
  }

  /** Escaping is injective: distinct inputs never produce the same report text. */
  lemma EscapeHtmlInjective(s: string, t: string)
    requires EscapeHtml(s) == EscapeHtml(t)
    ensures s == t
  {
    UnescapeEscapeHtml(s);
    UnescapeEscapeHtml(t);
  }
}
