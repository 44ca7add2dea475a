/** HTML escaping of text that is interpolated into generated markup.

    `escapeHtml` is a chain of five global single-character replacements,
    `&` first. The model keeps that chain (EscapeHtml), gives an independent
    per-character reference (EscapeEach), proves the two equal, and proves
    what the output can and cannot contain, plus a decoding round trip. */
module Html {
  import opened Text

  /** True for the five characters that escaping replaces. */
  predicate IsSpecial(c: char) {
    c == '&' || c == '<' || c == '>' || c == '"' || c == '\''
  }

  /** The character reference that stands for c, or c itself when c is not special. */
  function EscapeChar(c: char): (r: string)
    ensures IsSpecial(c) <==> |r| > 1
    ensures !IsSpecial(c) <==> r == [c]
    ensures IsSpecial(c) ==> r[0] == '&' && r[|r| - 1] == ';'
  {
    match c
    case '&' => "&amp;"
    case '<' => "&lt;"
    case '>' => "&gt;"
    case '"' => "&quot;"
    case '\'' => "&#39;"
    case _ => [c]
  }

  /** One `.replace(/c/g, rep)`: every occurrence of c, from left to right,
      replaced by rep; the characters of rep are not scanned again. */
  function ReplaceAll(s: string, c: char, rep: string): string
  {
    if s == [] then []
    else (if s[0] == c then rep else [s[0]]) + ReplaceAll(s[1..], c, rep)
  }

  /** The five replacements in the order of the source, `&` first, so that
      the `&` of a reference introduced later is never escaped again. */
  function EscapeHtml(s: string): string {
    ReplaceAll(ReplaceAll(ReplaceAll(ReplaceAll(ReplaceAll(
      s, '&', "&amp;"), '<', "&lt;"), '>', "&gt;"), '"', "&quot;"), '\'', "&#39;")
  }

  /** Reference definition: every character escaped on its own. */
  function EscapeEach(s: string): string {
    if s == [] then [] else EscapeChar(s[0]) + EscapeEach(s[1..])
  }

  /** Inverse of escaping: decodes the five references and keeps everything else. */
  function Unescape(s: string): string
    decreases |s|
  {
    if s == [] then []
    else if s[0] != '&' then [s[0]] + Unescape(s[1..])
    else if StartsWith(s, "&amp;") then "&" + Unescape(s[5..])
    else if StartsWith(s, "&lt;") then "<" + Unescape(s[4..])
    else if StartsWith(s, "&gt;") then ">" + Unescape(s[4..])
    else if StartsWith(s, "&quot;") then "\"" + Unescape(s[6..])
    else if StartsWith(s, "&#39;") then "'" + Unescape(s[5..])
    else [s[0]] + Unescape(s[1..])
  }

  /** Position i of s begins one of the five character references. */
  predicate EntityAt(s: string, i: nat)
    requires i <= |s|
  {
    var t := s[i..];
    StartsWith(t, "&amp;") || StartsWith(t, "&lt;") || StartsWith(t, "&gt;")
    || StartsWith(t, "&quot;") || StartsWith(t, "&#39;")
  }

  lemma {:induction false} ReplaceAllAppend(a: string, b: string, c: char, rep: string)
    ensures ReplaceAll(a + b, c, rep) == ReplaceAll(a, c, rep) + ReplaceAll(b, c, rep)
  {
    if a == [] {
      assert a + b == b;
    } else {
      assert (a + b)[0] == a[0];
      assert (a + b)[1..] == a[1..] + b;
      ReplaceAllAppend(a[1..], b, c, rep);
    }
  }

  /** Escaping distributes over concatenation. */
  lemma EscapeHtmlAppend(a: string, b: string)
    ensures EscapeHtml(a + b) == EscapeHtml(a) + EscapeHtml(b)
  {
    var a1, b1 := ReplaceAll(a, '&', "&amp;"), ReplaceAll(b, '&', "&amp;");
    ReplaceAllAppend(a, b, '&', "&amp;");
    var a2, b2 := ReplaceAll(a1, '<', "&lt;"), ReplaceAll(b1, '<', "&lt;");
    ReplaceAllAppend(a1, b1, '<', "&lt;");
    var a3, b3 := ReplaceAll(a2, '>', "&gt;"), ReplaceAll(b2, '>', "&gt;");
    ReplaceAllAppend(a2, b2, '>', "&gt;");
    var a4, b4 := ReplaceAll(a3, '"', "&quot;"), ReplaceAll(b3, '"', "&quot;");
    ReplaceAllAppend(a3, b3, '"', "&quot;");
    ReplaceAllAppend(a4, b4, '\'', "&#39;");
  }

  lemma ReplaceAllSingle(x: char, c: char, rep: string)
    ensures ReplaceAll([x], c, rep) == if x == c then rep else [x]
  {
    assert [x][1..] == [];
  }

  /** One replacement step leaves alone a string without its character. */
  lemma ReplaceAllAbsent(x: string, c: char, rep: string)
    requires c !in x
    ensures ReplaceAll(x, c, rep) == x
  {
    if x != [] {
      assert x == [x[0]] + x[1..];
      ReplaceAllAbsent(x[1..], c, rep);
    }
  }

  /* The chain on each special character: the steps before its own leave it
     alone, its own step yields its reference, the steps after leave that alone. */

  lemma LaterStepsIdentity(x: string)
    requires '<' !in x && '>' !in x && '"' !in x && '\'' !in x
    ensures ReplaceAll(ReplaceAll(ReplaceAll(ReplaceAll(
      x, '<', "&lt;"), '>', "&gt;"), '"', "&quot;"), '\'', "&#39;") == x
  {
    ReplaceAllAbsent(x, '<', "&lt;");
    ReplaceAllAbsent(x, '>', "&gt;");
    ReplaceAllAbsent(x, '"', "&quot;");
    ReplaceAllAbsent(x, '\'', "&#39;");
  }

  lemma AmpStep()
    ensures ReplaceAll("&", '&', "&amp;") == "&amp;"
  {
    ReplaceAllSingle('&', '&', "&amp;");
  }

  /** The chain of five steps, each step's result named. */
  lemma Chain(x0: string, x1: string, x2: string, x3: string, x4: string, x5: string)
    requires ReplaceAll(x0, '&', "&amp;") == x1 && ReplaceAll(x1, '<', "&lt;") == x2
    requires ReplaceAll(x2, '>', "&gt;") == x3 && ReplaceAll(x3, '"', "&quot;") == x4
    requires ReplaceAll(x4, '\'', "&#39;") == x5
    ensures EscapeHtml(x0) == x5
  {
  }

  lemma EscapeHtmlAmp()
    ensures EscapeHtml("&") == "&amp;"
  {
    AmpStep();
    LaterStepsIdentity("&amp;");
  }

  lemma EscapeHtmlLt()
    ensures EscapeHtml("<") == "&lt;"
  {
    var s, r := "<", "&lt;";
    ReplaceAllAbsent(s, '&', "&amp;");
    ReplaceAllSingle('<', '<', r);
    LtLater(r);
    Chain(s, s, r, r, r, r);
  }

  /** The steps after the `<` step leave `&lt;` alone. */
  lemma LtLater(r: string)
    requires r == "&lt;"
    ensures ReplaceAll(r, '>', "&gt;") == r && ReplaceAll(r, '"', "&quot;") == r && ReplaceAll(r, '\'', "&#39;") == r
  {
    ReplaceAllAbsent(r, '>', "&gt;");
    ReplaceAllAbsent(r, '"', "&quot;");
    ReplaceAllAbsent(r, '\'', "&#39;");
  }

  lemma EscapeHtmlGt()
    ensures EscapeHtml(">") == "&gt;"
  {
    var s, r := ">", "&gt;";
    ReplaceAllAbsent(s, '&', "&amp;");
    ReplaceAllAbsent(s, '<', "&lt;");
    ReplaceAllSingle('>', '>', r);
    ReplaceAllAbsent(r, '"', "&quot;");
    ReplaceAllAbsent(r, '\'', "&#39;");
    Chain(s, s, s, r, r, r);
  }

  lemma EscapeHtmlQuot()
    ensures EscapeHtml("\"") == "&quot;"
  {
    var s, r := "\"", "&quot;";
    ReplaceAllAbsent(s, '&', "&amp;");
    ReplaceAllAbsent(s, '<', "&lt;");
    ReplaceAllAbsent(s, '>', "&gt;");
    ReplaceAllSingle('"', '"', r);
    ReplaceAllAbsent(r, '\'', "&#39;");
    Chain(s, s, s, s, r, r);
  }

  lemma EscapeHtmlApos()
    ensures EscapeHtml("'") == "&#39;"
  {
    var s, r := "'", "&#39;";
    ReplaceAllAbsent(s, '&', "&amp;");
    ReplaceAllAbsent(s, '<', "&lt;");
    ReplaceAllAbsent(s, '>', "&gt;");
    ReplaceAllAbsent(s, '"', "&quot;");
    ReplaceAllSingle('\'', '\'', r);
    Chain(s, s, s, s, s, r);
  }

  lemma EscapeHtmlSpecial(c: char)
    requires IsSpecial(c)
    ensures EscapeHtml([c]) == EscapeChar(c)
  {
    assert [c] == [c];
    if c == '&' { EscapeHtmlAmp(); assert [c] == "&"; }
    else if c == '<' { EscapeHtmlLt(); assert [c] == "<"; }
    else if c == '>' { EscapeHtmlGt(); assert [c] == ">"; }
    else if c == '"' { EscapeHtmlQuot(); assert [c] == "\""; }
    else { EscapeHtmlApos(); assert [c] == "'"; }
  }

  /** On a single character the chain of replacements is the character's own reference. */
  lemma EscapeHtmlChar(c: char)
    ensures EscapeHtml([c]) == EscapeChar(c)
  {
    if IsSpecial(c) {
      EscapeHtmlSpecial(c);
    } else {
      ReplaceAllAbsent([c], '&', "&amp;");
      ReplaceAllAbsent([c], '<', "&lt;");
      ReplaceAllAbsent([c], '>', "&gt;");
      ReplaceAllAbsent([c], '"', "&quot;");
      ReplaceAllAbsent([c], '\'', "&#39;");
    }
  }

  /** The ordered chain of the source equals per-character escaping. */
  lemma {:induction false} EscapeHtmlIsPerCharacter(s: string)
    ensures EscapeHtml(s) == EscapeEach(s)
  {
    if s != [] {
      assert s == [s[0]] + s[1..];
      EscapeHtmlAppend([s[0]], s[1..]);
      EscapeHtmlChar(s[0]);
      EscapeHtmlIsPerCharacter(s[1..]);
    }
  }

  lemma {:induction false} EscapeEachNoMarkup(s: string)
    ensures '<' !in EscapeEach(s) && '>' !in EscapeEach(s)
    ensures '"' !in EscapeEach(s) && '\'' !in EscapeEach(s)
  {
    if s != [] {
      EscapeEachNoMarkup(s[1..]);
    }
  }

  /** The output of escaping contains no `<`, `>`, `"` or `'`. */
  lemma EscapeHtmlNoMarkup(s: string)
    ensures '<' !in EscapeHtml(s) && '>' !in EscapeHtml(s)
    ensures '"' !in EscapeHtml(s) && '\'' !in EscapeHtml(s)
  {
    EscapeHtmlIsPerCharacter(s);
    EscapeEachNoMarkup(s);
  }

  lemma EntityAtShift(p: string, t: string, i: nat)
    requires i <= |t|
    ensures EntityAt(p + t, |p| + i) == EntityAt(t, i)
  {
    assert (p + t)[|p| + i..] == t[i..];
  }

  lemma EntityAtFront(e: string, t: string)
    requires e in {"&amp;", "&lt;", "&gt;", "&quot;", "&#39;"}
    ensures EntityAt(e + t, 0)
  {
    assert (e + t)[0..][..|e|] == e;
  }

  /** Every `&` of s begins a character reference. */
  predicate AmpersandsAreEntities(s: string) {
    forall i :: 0 <= i < |s| && s[i] == '&' ==> EntityAt(s, i)
  }

  /** An `&` after the front part p is a reference when it is one in t. */
  lemma EntitiesAfter(p: string, t: string, i: int)
    requires AmpersandsAreEntities(t)
    requires |p| <= i < |p + t| && (p + t)[i] == '&'
    ensures EntityAt(p + t, i)
  {
    assert t[i - |p|] == '&';
    EntityAtShift(p, t, i - |p|);
  }

  /** Putting one escaped character in front keeps every `&` a reference. */
  lemma EntitiesPrepend(c: char, t: string)
    requires AmpersandsAreEntities(t)
    ensures AmpersandsAreEntities(EscapeChar(c) + t)
  {
    var e := EscapeChar(c);
    forall i | 0 <= i < |e + t| && (e + t)[i] == '&'
      ensures EntityAt(e + t, i)
    {
      if i < |e| {
        assert (e + t)[i] == e[i];
        assert IsSpecial(c) && i == 0;
        EntityAtFront(e, t);
      } else {
        EntitiesAfter(e, t, i);
      }
    }
  }

  lemma {:induction false} EscapeEachEntities(s: string)
    ensures AmpersandsAreEntities(EscapeEach(s))
  {
    if s != [] {
      EscapeEachEntities(s[1..]);
      EntitiesPrepend(s[0], EscapeEach(s[1..]));
    }
  }

  /** Every `&` of the output begins one of the five character references. */
  lemma EscapeHtmlAmpersandsAreEntities(s: string)
    ensures forall i :: 0 <= i < |EscapeHtml(s)| && EscapeHtml(s)[i] == '&' ==> EntityAt(EscapeHtml(s), i)
  {
    EscapeHtmlIsPerCharacter(s);
    EscapeEachEntities(s);
  }

  lemma {:induction false} EscapeEachIdentity(s: string)
    ensures (forall i :: 0 <= i < |s| ==> !IsSpecial(s[i])) <==> EscapeEach(s) == s
  {
    if s != [] {
      EscapeEachIdentity(s[1..]);
      if EscapeEach(s) == s {
        EscapeEachLength(s[1..]);
        assert |EscapeChar(s[0])| == 1;
        assert !IsSpecial(s[0]);
        assert EscapeEach(s[1..]) == s[1..];
      }
    }
  }

  lemma {:induction false} EscapeEachLength(s: string)
    ensures |s| <= |EscapeEach(s)| <= 6 * |s|
  {
    if s != [] {
      EscapeEachLength(s[1..]);
    }
  }

  /** Escaping changes a string iff it holds one of the five special characters. */
  lemma EscapeHtmlIdentity(s: string)
    ensures (forall i :: 0 <= i < |s| ==> !IsSpecial(s[i])) <==> EscapeHtml(s) == s
  {
    EscapeHtmlIsPerCharacter(s);
    EscapeEachIdentity(s);
  }

  /** Escaping never shrinks a string and at most multiplies its length by six. */
  lemma EscapeHtmlLength(s: string)
    ensures |s| <= |EscapeHtml(s)| <= 6 * |s|
  {
    EscapeHtmlIsPerCharacter(s);
    EscapeEachLength(s);
  }

  /* Decoding a reference at the front of a string; the second character of a
     reference tells the five apart. */

  lemma UnescapeAmp(t: string)
    ensures Unescape("&amp;" + t) == "&" + Unescape(t)
  {
    var s := "&amp;" + t;
    assert s[..5] == "&amp;";
    assert s[5..] == t;
  }

  lemma UnescapeLt(t: string)
    ensures Unescape("&lt;" + t) == "<" + Unescape(t)
  {
    var s := "&lt;" + t;
    assert s[1] == 'l';
    assert s[..4] == "&lt;";
    assert s[4..] == t;
  }

  lemma UnescapeGt(t: string)
    ensures Unescape("&gt;" + t) == ">" + Unescape(t)
  {
    var s := "&gt;" + t;
    assert s[1] == 'g';
    assert s[..4] == "&gt;";
    assert s[4..] == t;
  }

  lemma UnescapeQuot(t: string)
    ensures Unescape("&quot;" + t) == "\"" + Unescape(t)
  {
    var s := "&quot;" + t;
    assert s[1] == 'q';
    assert s[..6] == "&quot;";
    assert s[6..] == t;
  }

  lemma UnescapeApos(t: string)
    ensures Unescape("&#39;" + t) == "'" + Unescape(t)
  {
    var s := "&#39;" + t;
    assert s[1] == '#';
    assert s[..5] == "&#39;";
    assert s[5..] == t;
  }

  lemma UnescapePlain(c: char, t: string)
    requires c != '&'
    ensures Unescape([c] + t) == [c] + Unescape(t)
  {
    var s := [c] + t;
    assert s[0] == c;
    assert s[1..] == t;
  }

  lemma UnescapeFront(c: char, t: string)
    ensures Unescape(EscapeChar(c) + t) == [c] + Unescape(t)
  {
    if c == '&' { UnescapeAmp(t); }
    else if c == '<' { UnescapeLt(t); }
    else if c == '>' { UnescapeGt(t); }
    else if c == '"' { UnescapeQuot(t); }
    else if c == '\'' { UnescapeApos(t); }
    else { UnescapePlain(c, t); }
  }

  lemma {:induction false} UnescapeEscapeEach(s: string)
    ensures Unescape(EscapeEach(s)) == s
  {
    if s != [] {
      UnescapeFront(s[0], EscapeEach(s[1..]));
      UnescapeEscapeEach(s[1..]);
    }
  }

  /** Escaping loses nothing: decoding the five references gives back the input. */
  lemma EscapeHtmlRoundTrip(s: string)
    ensures Unescape(EscapeHtml(s)) == s
  {
    EscapeHtmlIsPerCharacter(s);
    UnescapeEscapeEach(s);
  }

  /** Escaping text between angle brackets escapes the brackets and the text. */
  lemma EscapeBracketed(body: string)
    ensures EscapeHtml("<" + body + ">") == "&lt;" + EscapeHtml(body) + "&gt;"
  {
    EscapeHtmlAppend("<" + body, ">");
    EscapeHtmlAppend("<", body);
    EscapeHtmlLt();
    EscapeHtmlGt();
  }

  lemma ScriptIsPlain(body: string)
    requires body == "script"
    ensures EscapeHtml(body) == body
  {
    assert forall i :: 0 <= i < |body| ==> !IsSpecial(body[i]);
    EscapeHtmlIdentity(body);
  }

  /** A script tag is neutralised: `<script>` becomes `&lt;script&gt;`. */
  lemma EscapeScriptTag(s: string)
    requires s == "<script>"
    ensures EscapeHtml(s) == "&lt;" + "script" + "&gt;"
  {
    var body := s[1..7];
    assert s == "<" + body + ">";
    EscapeBracketed(body);
    ScriptIsPlain(body);
  }

  /** Why `&` comes first: replacing `<` before `&` would turn `<` into
      `&amp;lt;`; the source's order gives `&lt;` (EscapeHtmlLt). */
  lemma AmpersandFirst(s: string)
    requires s == "<"
    ensures ReplaceAll(ReplaceAll(s, '<', "&lt;"), '&', "&amp;") == "&amp;" + "lt;"
  {
    ReplaceAllSingle('<', '<', "&lt;");
    var lt := ReplaceAll(s, '<', "&lt;");
    var amp, rest := lt[..1], lt[1..];
    assert lt == amp + rest && amp == "&" && rest == "lt;";
    ReplaceAllAppend(amp, rest, '&', "&amp;");
    AmpStep();
    ReplaceAllAbsent(rest, '&', "&amp;");
  }
}
