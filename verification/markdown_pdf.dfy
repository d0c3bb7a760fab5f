/** Printable HTML for PDF export: HTML escaping of the title, and the
    wrapping of an HTML fragment in a minimal document unless it already is
    one. */
module MarkdownPdf {
  import opened Text

  // ---------------------------------------------------------------------
  // Escaping

  /** `s.replaceAll(c, rep)` for a single character. */
  function ReplaceAll(s: string, c: char, rep: string): (r: string)
    ensures c !in rep ==> c !in r
    ensures forall d :: d in r ==> d in s || d in rep
  {
    if |s| == 0 then ""
    else (if s[0] == c then rep else [s[0]]) + ReplaceAll(s[1..], c, rep)
  }

  /** The entity a character becomes, as a reference definition. */
  function EscapeChar(c: char): string {
    if c == '&' then "&amp;"
    else if c == '<' then "&lt;"
    else if c == '>' then "&gt;"
    else if c == '"' then "&quot;"
    else if c == '\'' then "&#39;"
    else [c]
  }

  /** Escaping character by character. */
  function EscapeEach(s: string): string {
    if |s| == 0 then "" else EscapeChar(s[0]) + EscapeEach(s[1..])
  }

  /** `escapeHtml`: `&` first, so that the entities added afterwards are
      not escaped again, then `<`, `>`, `"` and `'`. */
  function EscapeHtml(s: string): (r: string)
    ensures '<' !in r && '>' !in r && '"' !in r && '\'' !in r
  {
    ReplaceAll(ReplaceAll(ReplaceAll(ReplaceAll(ReplaceAll(s, '&', "&amp;"), '<', "&lt;"), '>', "&gt;"), '"', "&quot;"), '\'', "&#39;")
  }

  /** Replacing a character that does not occur changes nothing. */
  lemma {:induction false} ReplaceAbsent(s: string, c: char, rep: string)
    requires c !in s
    ensures ReplaceAll(s, c, rep) == s
  {
    if |s| > 0 {
      assert c !in s[1..] by { assert forall i :: 0 <= i < |s[1..]| ==> s[1..][i] == s[i + 1]; }
      ReplaceAbsent(s[1..], c, rep);
    }
  }

  /** Replacing distributes over concatenation. */
  lemma {:induction false} ReplaceAppend(a: string, b: string, c: char, rep: string)
    ensures ReplaceAll(a + b, c, rep) == ReplaceAll(a, c, rep) + ReplaceAll(b, c, rep)
  {
    if |a| > 0 {
      assert (a + b)[1..] == a[1..] + b;
      ReplaceAppend(a[1..], b, c, rep);
    } else {
      assert a + b == b;
    }
  }

  /** The replacement chain applied to the escape of one character. */
  function Chain(s: string): string {
    ReplaceAll(ReplaceAll(ReplaceAll(ReplaceAll(ReplaceAll(s, '&', "&amp;"), '<', "&lt;"), '>', "&gt;"), '"', "&quot;"), '\'', "&#39;")
  }

  lemma ChainAppend(a: string, b: string)
    ensures Chain(a + b) == Chain(a) + Chain(b)
  {
    var s1a := ReplaceAll(a, '&', "&amp;");
    var s1b := ReplaceAll(b, '&', "&amp;");
    ReplaceAppend(a, b, '&', "&amp;");
    var s2a := ReplaceAll(s1a, '<', "&lt;");
    var s2b := ReplaceAll(s1b, '<', "&lt;");
    ReplaceAppend(s1a, s1b, '<', "&lt;");
    var s3a := ReplaceAll(s2a, '>', "&gt;");
    var s3b := ReplaceAll(s2b, '>', "&gt;");
    ReplaceAppend(s2a, s2b, '>', "&gt;");
    var s4a := ReplaceAll(s3a, '"', "&quot;");
    var s4b := ReplaceAll(s3b, '"', "&quot;");
    ReplaceAppend(s3a, s3b, '"', "&quot;");
    ReplaceAppend(s4a, s4b, '\'', "&#39;");
  }

  /** Replacing in a one-character string. */
  lemma ReplaceSingle(x: char, c: char, rep: string)
    ensures ReplaceAll([x], c, rep) == (if x == c then rep else [x])
  {
    assert [x][1..] == "";
  }

  /** An entity goes through the replacements after its own unchanged. */
  lemma ChainEntity(e: string, later: seq<(char, string)>)
    requires forall i :: 0 <= i < |later| ==> later[i].0 !in e
    ensures ApplyAll(e, later) == e
    decreases |later|
  {
    if |later| > 0 {
      ReplaceAbsent(e, later[0].0, later[0].1);
      ChainEntity(e, later[1..]);
    }
  }

  /** Replacements applied in order. */
  function ApplyAll(s: string, steps: seq<(char, string)>): string
    decreases |steps|
  {
    if |steps| == 0 then s else ApplyAll(ReplaceAll(s, steps[0].0, steps[0].1), steps[1..])
  }

  /** The replacements of `escapeHtml`, in order. */
  const Steps: seq<(char, string)> := [('&', "&amp;"), ('<', "&lt;"), ('>', "&gt;"), ('"', "&quot;"), ('\'', "&#39;")]

  lemma ChainIsApplyAll(s: string)
    ensures Chain(s) == ApplyAll(s, Steps)
  {
    assert Steps[1..][1..][1..][1..][1..] == [];
  }

  /** Each step's entity is the escape of its character. */
  lemma StepEntity(k: nat)
    requires k < |Steps|
    ensures EscapeChar(Steps[k].0) == Steps[k].1
  {
  }

  /** No entity contains a character replaced after it. */
  lemma StepsDisjoint(k: nat)
    requires k < |Steps|
    ensures forall j :: k < j < |Steps| ==> Steps[j].0 !in Steps[k].1
  {
  }

  /** A character none of the steps replaces is its own escape. */
  lemma NoStepChar(c: char)
    requires forall i :: 0 <= i < |Steps| ==> Steps[i].0 != c
    ensures EscapeChar(c) == [c]
  {
    assert Steps[0].0 == '&' && Steps[1].0 == '<' && Steps[2].0 == '>' && Steps[3].0 == '"' && Steps[4].0 == '\'';
  }

  /** One character through the replacements from `k` on. */
  lemma {:induction false} ApplyChar(c: char, k: nat)
    requires k <= |Steps|
    requires forall i :: 0 <= i < k ==> Steps[i].0 != c
    ensures ApplyAll([c], Steps[k..]) == EscapeChar(c)
    decreases |Steps| - k
  {
    if k == |Steps| {
      assert Steps[k..] == [];
      NoStepChar(c);
    } else {
      ReplaceSingle(c, Steps[k].0, Steps[k].1);
      assert Steps[k..][1..] == Steps[k + 1..];
      if Steps[k].0 == c {
        StepEntity(k);
        StepsDisjoint(k);
        ChainEntity(Steps[k].1, Steps[k + 1..]);
      } else {
        ApplyChar(c, k + 1);
      }
    }
  }

  /** One character through the chain. */
  lemma ChainChar(c: char)
    ensures Chain([c]) == EscapeChar(c)
  {
    ChainIsApplyAll([c]);
    ApplyChar(c, 0);
    assert Steps[0..] == Steps;
  }

  /** The five replacements in sequence escape each character on its own:
      no entity is escaped twice, and every other character is kept. */
  lemma {:induction false} EscapeIsPerChar(s: string)
    ensures EscapeHtml(s) == EscapeEach(s)
  {
    if |s| > 0 {
      assert s == [s[0]] + s[1..];
      ChainAppend([s[0]], s[1..]);
      ChainChar(s[0]);
      EscapeIsPerChar(s[1..]);
    }
  }

  /** Reading entities back: the inverse of escaping. */
  function Unescape(s: string): string
    decreases |s|
  {
    if |s| == 0 then ""
    else if StartsWith(s, "&amp;") then "&" + Unescape(s[5..])
    else if StartsWith(s, "&lt;") then "<" + Unescape(s[4..])
    else if StartsWith(s, "&gt;") then ">" + Unescape(s[4..])
    else if StartsWith(s, "&quot;") then "\"" + Unescape(s[6..])
    else if StartsWith(s, "&#39;") then "'" + Unescape(s[5..])
    else [s[0]] + Unescape(s[1..])
  }

  /** Escaping loses nothing: reading the entities back gives the text. */
  lemma {:induction false} UnescapeEscape(s: string)
    ensures Unescape(EscapeHtml(s)) == s
  {
    EscapeIsPerChar(s);
    UnescapeEach(s);
  }

  /** A string differing from a prefix at some position does not start
      with it. */
  lemma DiffersAt(t: string, p: string, i: nat)
    requires i < |p| && i < |t| && t[i] != p[i]
    ensures !StartsWith(t, p)
  {
  }

  /** Reading back each entity. */
  lemma UnescapeAmp(rest: string)
    ensures Unescape("&amp;" + rest) == "&" + Unescape(rest)
  {
    var t := "&amp;" + rest;
    assert t[..5] == "&amp;" && t[5..] == rest;
  }

  lemma UnescapeLt(rest: string)
    ensures Unescape("&lt;" + rest) == "<" + Unescape(rest)
  {
    var t := "&lt;" + rest;
    assert t[..4] == "&lt;" && t[4..] == rest;
    DiffersAt(t, "&amp;", 1);
  }

  lemma UnescapeGt(rest: string)
    ensures Unescape("&gt;" + rest) == ">" + Unescape(rest)
  {
    var t := "&gt;" + rest;
    assert t[..4] == "&gt;" && t[4..] == rest;
    DiffersAt(t, "&amp;", 1);
    DiffersAt(t, "&lt;", 1);
  }

  lemma UnescapeQuot(rest: string)
    ensures Unescape("&quot;" + rest) == "\"" + Unescape(rest)
  {
    var t := "&quot;" + rest;
    assert t[..6] == "&quot;" && t[6..] == rest;
    DiffersAt(t, "&amp;", 1);
    DiffersAt(t, "&lt;", 1);
    DiffersAt(t, "&gt;", 1);
  }

  lemma UnescapeApos(rest: string)
    ensures Unescape("&#39;" + rest) == "'" + Unescape(rest)
  {
    var t := "&#39;" + rest;
    assert t[..5] == "&#39;" && t[5..] == rest;
    DiffersAt(t, "&amp;", 1);
    DiffersAt(t, "&lt;", 1);
    DiffersAt(t, "&gt;", 1);
    DiffersAt(t, "&quot;", 1);
  }

  /** A character that starts no entity reads back as itself. */
  lemma UnescapePlain(c: char, rest: string)
    requires c != '&'
    ensures Unescape([c] + rest) == [c] + Unescape(rest)
  {
    var t := [c] + rest;
    DiffersAt(t, "&amp;", 0);
    DiffersAt(t, "&lt;", 0);
    DiffersAt(t, "&gt;", 0);
    DiffersAt(t, "&quot;", 0);
    DiffersAt(t, "&#39;", 0);
    assert t[1..] == rest;
  }

  /** Reading back one escaped character. */
  lemma UnescapeChar(c: char, rest: string)
    ensures Unescape(EscapeChar(c) + rest) == [c] + Unescape(rest)
  {
    if c == '&' {
      UnescapeAmp(rest);
    } else if c == '<' {
      UnescapeLt(rest);
    } else if c == '>' {
      UnescapeGt(rest);
    } else if c == '"' {
      UnescapeQuot(rest);
    } else if c == '\'' {
      UnescapeApos(rest);
    } else {
      UnescapePlain(c, rest);
    }
  }

  lemma {:induction false} UnescapeEach(s: string)
    ensures Unescape(EscapeEach(s)) == s
  {
    if |s| > 0 {
      UnescapeChar(s[0], EscapeEach(s[1..]));
      UnescapeEach(s[1..]);
      assert s == [s[0]] + s[1..];
    }
  }

  /** Characters other than the five are left as they are. */
  lemma PlainTextUnchanged(s: string)
    requires forall i :: 0 <= i < |s| ==> s[i] !in "&<>\"'"
    ensures EscapeHtml(s) == s
  {
    ReplaceAbsent(s, '&', "&amp;");
    ReplaceAbsent(s, '<', "&lt;");
    ReplaceAbsent(s, '>', "&gt;");
    ReplaceAbsent(s, '"', "&quot;");
    ReplaceAbsent(s, '\'', "&#39;");
  }

  // ---------------------------------------------------------------------
  // Document wrapping

  /** `/<html[\s>]/i`: an `<html` tag in any letter case, followed by white
      space or `>`. */
  predicate HtmlTagAt(html: string, i: nat) {
    && i + 5 < |html|
    && html[i] == '<' && ToLower(html[i + 1..i + 5]) == "html"
    && (IsJsSpace(html[i + 5]) || html[i + 5] == '>')
  }

  predicate HasHtmlTag(html: string) {
    exists i: nat | i < |html| :: HtmlTagAt(html, i)
  }

  const Doctype := "<!doctype html>\n"
  const HtmlOpen := "<html lang=\"en\">\n"
  const DocumentHead := Doctype + HtmlOpen + "  <head>\n    <meta charset=\"utf-8\" />\n    <meta name=\"viewport\" content=\"width=device-width, initial-scale=1\" />\n    <title>"
  const DocumentMiddle := "</title>\n  </head>\n  <body>\n    "
  const DocumentTail := "\n  </body>\n</html>"

  /** `renderHtmlToPrintableHtml`: a full document is returned unchanged;
      a fragment is placed verbatim in the body of a document whose title is
      the escaped title. */
  function RenderHtml(html: string, title: string): (r: string)
    ensures HasHtmlTag(html) ==> r == html
    ensures !HasHtmlTag(html) ==>
              && |r| == |DocumentHead| + |EscapeHtml(title)| + |DocumentMiddle| + |html| + |DocumentTail|
              && StartsWith(r, DocumentHead)
              && r[|DocumentHead|..|DocumentHead| + |EscapeHtml(title)|] == EscapeHtml(title)
              && r[|r| - |DocumentTail| - |html|..|r| - |DocumentTail|] == html
  {
    if HasHtmlTag(html) then html
    else
      var r := DocumentHead + EscapeHtml(title) + DocumentMiddle + html + DocumentTail;
      assert r[..|DocumentHead|] == DocumentHead;
      r
  }

  /** `<html ` at a position is an `<html` tag. */
  lemma TagFromText(r: string, i: nat)
    requires i + 6 <= |r| && r[i..i + 6] == "<html "
    ensures HtmlTagAt(r, i)
  {
    var w := r[i..i + 6];
    assert r[i] == w[0] && r[i + 5] == w[5];
    assert r[i + 1] == w[1] == 'h' && r[i + 2] == w[2] == 't' && r[i + 3] == w[3] == 'm' && r[i + 4] == w[4] == 'l';
    assert r[i + 1..i + 5] == "html";
    assert ToLower("html") == "html";
  }

  /** The document head opens an `<html` tag right after the doctype. */
  lemma HeadHasTag(rest: string)
    ensures HtmlTagAt(DocumentHead + rest, |Doctype|)
  {
    var tail := DocumentHead[|Doctype| + |HtmlOpen|..] + rest;
    var r := Doctype + (HtmlOpen + tail);
    assert r == DocumentHead + rest;
    assert r[|Doctype|..|Doctype| + 6] == HtmlOpen[..6];
    assert HtmlOpen[..6] == "<html ";
    TagFromText(r, |Doctype|);
  }

  /** The wrapper is itself a full document, so rendering twice changes
      nothing more. */
  lemma RenderIdempotent(html: string, title: string, title2: string)
    ensures RenderHtml(RenderHtml(html, title), title2) == RenderHtml(html, title)
  {
    if !HasHtmlTag(html) {
      var r := RenderHtml(html, title);
      HeadHasTag(r[|DocumentHead|..]);
      assert r == DocumentHead + r[|DocumentHead|..];
    }
  }
}
