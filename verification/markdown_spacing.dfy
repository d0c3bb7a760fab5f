/** Blank-line preservation for the WYSIWYG markdown editor. A run of k >= 2
    blank lines outside code becomes one blank line followed by k-1 pairs of
    (placeholder line, blank line), so the editor keeps every extra blank
    line as an empty paragraph; decoding turns the pairs back into blanks. */
module MarkdownSpacing {
  import opened Wrappers
  import opened Text

  /** WORD JOINER, NO-BREAK SPACE, WORD JOINER. */
  const Marker: string := "\U{2060}\U{00A0}\U{2060}"

  datatype Fence = Fence(ch: char, length: nat)

  /** Number of leading JavaScript whitespace characters. */
  function LeadingSpaces(s: string): (n: nat)
    ensures n <= |s|
    ensures forall i :: 0 <= i < n ==> IsJsSpace(s[i])
    ensures n < |s| ==> !IsJsSpace(s[n])
  {
    if |s| > 0 && IsJsSpace(s[0]) then 1 + LeadingSpaces(s[1..]) else 0
  }

  /** Length of the run of `c` at the start of `s`. */
  function RunOf(s: string, c: char): (n: nat)
    ensures n <= |s|
    ensures forall i :: 0 <= i < n ==> s[i] == c
    ensures n < |s| ==> s[n] != c
  {
    if |s| > 0 && s[0] == c then 1 + RunOf(s[1..], c) else 0
  }

  /** `getFenceInfo`: the regular expression `^\s{0,3}(`{3,}|~{3,})`. At most
      three leading whitespace characters, then a run of at least three
      backticks or tildes; the fence length is the whole run. */
  function FenceInfo(line: string): (r: Option<Fence>)
    ensures r.Some? ==>
              var k := LeadingSpaces(line);
              k <= 3 && (r.value.ch == '`' || r.value.ch == '~') && r.value.length >= 3
              && k + r.value.length <= |line|
              && (forall i :: k <= i < k + r.value.length ==> line[i] == r.value.ch)
              && (k + r.value.length == |line| || line[k + r.value.length] != r.value.ch)
    ensures r.None? ==>
              LeadingSpaces(line) > 3
              || (RunOf(line[LeadingSpaces(line)..], '`') < 3 && RunOf(line[LeadingSpaces(line)..], '~') < 3)
  {
    var k := LeadingSpaces(line);
    if k > 3 then None
    else
      var rest := line[k..];
      var b := RunOf(rest, '`');
      var t := RunOf(rest, '~');
      if b >= 3 then Some(Fence('`', b))
      else if t >= 3 then Some(Fence('~', t))
      else None
  }

  /** A blank line never opens or closes a fence. */
  lemma BlankIsNoFence()
    ensures FenceInfo("") == None
  {
  }

  /** The placeholder line never opens or closes a fence. */
  lemma MarkerIsNoFence()
    ensures FenceInfo(Marker) == None
  {
    assert !IsJsSpace(Marker[0]);
    assert LeadingSpaces(Marker) == 0;
    assert RunOf(Marker, '`') == 0 && RunOf(Marker, '~') == 0;
  }

  /** The fence state after a line: a fence line opens one when none is open,
      and closes the open one only when it has the same character and is at
      least as long. */
  function NextFence(fence: Option<Fence>, line: string): (r: Option<Fence>)
    ensures FenceInfo(line).None? ==> r == fence
    ensures fence.None? ==> r == FenceInfo(line)
    ensures fence.Some? ==> (r == None || r == fence)
    ensures fence.Some? && r == None <==>
              fence.Some? && FenceInfo(line).Some? && FenceInfo(line).value.ch == fence.value.ch
              && FenceInfo(line).value.length >= fence.value.length
  {
    match FenceInfo(line)
    case None => fence
    case Some(m) =>
      if fence.None? then Some(m)
      else if m.ch == fence.value.ch && m.length >= fence.value.length then None
      else fence
  }

  /** `isIndentedCodeLine`. */
  predicate IsIndented(line: string) {
    StartsWith(line, "    ") || StartsWith(line, "\t")
  }

  function Blanks(k: nat): (r: seq<string>)
    ensures |r| == k && forall i :: 0 <= i < k ==> r[i] == ""
  {
    if k == 0 then [] else [""] + Blanks(k - 1)
  }

  /** k pairs of placeholder line and blank line. */
  function Pairs(k: nat): (r: seq<string>)
    ensures |r| == 2 * k
    ensures k > 0 ==> r[0] == Marker && r[1] == ""
  {
    if k == 0 then [] else [Marker, ""] + Pairs(k - 1)
  }

  predicate Neighbour(line: Option<string>) {
    line.Some? && line.value != "" && IsIndented(line.value)
  }

  /** `flushBlankRun`: a pending run of `run` blank lines, written out before
      the next non-blank line `next` (or at the end). */
  function Flush(run: nat, fence: Option<Fence>, prev: Option<string>, next: Option<string>): (r: seq<string>)
    ensures run == 0 ==> r == []
    ensures run > 0 && (fence.Some? || Neighbour(prev) || Neighbour(next)) ==> r == Blanks(run)
    ensures run > 0 && !(fence.Some? || Neighbour(prev) || Neighbour(next)) ==>
              |r| == 2 * run - 1 && r[0] == "" && r[1..] == Pairs(run - 1)
  {
    if run == 0 then []
    else if fence.Some? then Blanks(run)
    else if Neighbour(prev) || Neighbour(next) then Blanks(run)
    else [""] + Pairs(run - 1)
  }

  /** The line loop of `toWysiwygMarkdown`, carrying the open fence, the last
      non-blank line and the pending blank run. */
  function Enc(lines: seq<string>, fence: Option<Fence>, prev: Option<string>, run: nat): seq<string>
    decreases |lines|
  {
    if |lines| == 0 then Flush(run, fence, prev, None)
    else if lines[0] == "" then Enc(lines[1..], fence, prev, run + 1)
    else
      Flush(run, fence, prev, Some(lines[0])) + [lines[0]]
      + Enc(lines[1..], NextFence(fence, lines[0]), Some(lines[0]), 0)
  }

  /** How many (placeholder, blank) pairs follow the blank line `lines[0]`. */
  function CountPairs(lines: seq<string>): (p: nat)
    requires |lines| >= 1
    ensures 2 * p + 1 <= |lines|
    decreases |lines|
  {
    if |lines| >= 3 && lines[1] == Marker && lines[2] == "" then 1 + CountPairs(lines[2..]) else 0
  }

  /** The line loop of `fromWysiwygMarkdown`. */
  function Dec(lines: seq<string>, fence: Option<Fence>): seq<string>
    decreases |lines|
  {
    if |lines| == 0 then []
    else if fence.None? && lines[0] == "" && CountPairs(lines) > 0 then
      var p := CountPairs(lines);
      Blanks(p + 1) + Dec(lines[1 + 2 * p..], fence)
    else [lines[0]] + Dec(lines[1..], NextFence(fence, lines[0]))
  }

  /** `toWysiwygMarkdown`. */
  function ToWysiwyg(markdown: string): string {
    if !Contains(markdown, "\n\n\n") then markdown
    else Join(Enc(Split(markdown, '\n'), None, None, 0), '\n')
  }

  /** `fromWysiwygMarkdown`. */
  function FromWysiwyg(markdown: string): string {
    if !Contains(markdown, Marker) then markdown
    else Join(Dec(Split(markdown, '\n'), None), '\n')
  }

  // ---------------------------------------------------------------------
  // Decoding the pieces the encoder writes

  lemma {:induction false} CountPairsOfPairs(k: nat, rest: seq<string>)
    requires rest == [] || rest[0] != Marker
    ensures CountPairs([""] + Pairs(k) + rest) == k
  {
    var l := [""] + Pairs(k) + rest;
    if k > 0 {
      assert l[1] == Marker && l[2] == "";
      assert l[2..] == [""] + Pairs(k - 1) + rest;
      CountPairsOfPairs(k - 1, rest);
    } else {
      assert l == [""] + rest;
    }
  }

  /** A blank line not followed by a placeholder decodes as itself. */
  lemma DecLoneBlank(tl: seq<string>, fence: Option<Fence>)
    requires tl == [] || tl[0] != Marker
    ensures Dec([""] + tl, fence) == [""] + Dec(tl, fence)
  {
    var l := [""] + tl;
    assert l[1..] == tl;
    assert CountPairs(l) == 0 by {
      if |l| >= 3 { assert l[1] == tl[0]; }
    }
    BlankIsNoFence();
  }

  lemma {:induction false} DecBlanks(k: nat, fence: Option<Fence>, rest: seq<string>)
    requires rest == [] || rest[0] != Marker
    ensures Dec(Blanks(k) + rest, fence) == Blanks(k) + Dec(rest, fence)
  {
    if k == 0 {
      assert Blanks(k) + rest == rest;
    } else {
      var tl := Blanks(k - 1) + rest;
      BlanksCons(k, rest);
      BlanksCons(k, Dec(rest, fence));
      assert tl == [] || tl[0] != Marker by {
        if k == 1 { assert tl == rest; } else { assert tl[0] == ""; }
      }
      DecBlanks(k - 1, fence, rest);
      DecLoneBlank(tl, fence);
    }
  }

  lemma BlanksCons(k: nat, rest: seq<string>)
    requires k > 0
    ensures Blanks(k) + rest == [""] + (Blanks(k - 1) + rest)
  {
  }

  lemma DecFlush(run: nat, fence: Option<Fence>, prev: Option<string>, next: Option<string>, rest: seq<string>)
    requires rest == [] || rest[0] != Marker
    ensures Dec(Flush(run, fence, prev, next) + rest, fence) == Blanks(run) + Dec(rest, fence)
  {
    var f := Flush(run, fence, prev, next);
    if run == 0 {
      assert f + rest == rest;
    } else if fence.Some? || Neighbour(prev) || Neighbour(next) {
      assert f == Blanks(run);
      DecBlanks(run, fence, rest);
    } else {
      var l := f + rest;
      assert f == [""] + Pairs(run - 1);
      assert l == [""] + Pairs(run - 1) + rest;
      CountPairsOfPairs(run - 1, rest);
      assert l[1 + 2 * (run - 1)..] == rest;
      assert Dec(l, fence) == Blanks(run) + Dec(rest, fence);
    }
  }

  // ---------------------------------------------------------------------
  // Round trip

  lemma DecNonBlank(x: string, rest: seq<string>, fence: Option<Fence>)
    requires x != ""
    ensures Dec([x] + rest, fence) == [x] + Dec(rest, NextFence(fence, x))
  {
    assert ([x] + rest)[1..] == rest;
  }

  lemma EncNonBlank(lines: seq<string>, fence: Option<Fence>, prev: Option<string>, run: nat)
    requires |lines| > 0 && lines[0] != ""
    ensures Enc(lines, fence, prev, run)
            == Flush(run, fence, prev, Some(lines[0]))
               + ([lines[0]] + Enc(lines[1..], NextFence(fence, lines[0]), Some(lines[0]), 0))
  {
  }

  lemma DecEncEmpty(fence: Option<Fence>, prev: Option<string>, run: nat)
    ensures Dec(Enc([], fence, prev, run), fence) == Blanks(run)
  {
    var f := Flush(run, fence, prev, None);
    assert Enc([], fence, prev, run) == f;
    DecFlush(run, fence, prev, None, []);
    assert f + [] == f;
  }

  lemma DecEncLine(lines: seq<string>, fence: Option<Fence>, prev: Option<string>, run: nat)
    requires |lines| > 0 && lines[0] != "" && lines[0] != Marker
    requires Dec(Enc(lines[1..], NextFence(fence, lines[0]), Some(lines[0]), 0), NextFence(fence, lines[0])) == lines[1..]
    ensures Dec(Enc(lines, fence, prev, run), fence) == Blanks(run) + lines
  {
    var x := lines[0];
    var e := Enc(lines[1..], NextFence(fence, x), Some(x), 0);
    EncNonBlank(lines, fence, prev, run);
    DecFlush(run, fence, prev, Some(x), [x] + e);
    DecNonBlank(x, e, fence);
    assert lines == [x] + lines[1..];
  }

  lemma DecEncBlank(lines: seq<string>, fence: Option<Fence>, prev: Option<string>, run: nat)
    requires |lines| > 0 && lines[0] == ""
    requires Dec(Enc(lines[1..], fence, prev, run + 1), fence) == Blanks(run + 1) + lines[1..]
    ensures Dec(Enc(lines, fence, prev, run), fence) == Blanks(run) + lines
  {
    assert Enc(lines, fence, prev, run) == Enc(lines[1..], fence, prev, run + 1);
    assert Blanks(run + 1) == Blanks(run) + [""];
    assert lines == [""] + lines[1..];
  }

  /** Decoding the encoder's output restores the pending blank run and the
      input lines, provided no input line is a placeholder. */
  lemma {:induction false} DecEnc(lines: seq<string>, fence: Option<Fence>, prev: Option<string>, run: nat)
    requires Marker !in lines
    ensures Dec(Enc(lines, fence, prev, run), fence) == Blanks(run) + lines
    decreases |lines|
  {
    if |lines| == 0 {
      DecEncEmpty(fence, prev, run);
      assert Blanks(run) + lines == Blanks(run);
    } else if lines[0] == "" {
      assert Marker !in lines[1..];
      DecEnc(lines[1..], fence, prev, run + 1);
      DecEncBlank(lines, fence, prev, run);
    } else {
      assert Marker !in lines[1..];
      DecEnc(lines[1..], NextFence(fence, lines[0]), Some(lines[0]), 0);
      DecEncLine(lines, fence, prev, run);
    }
  }

  /** Decoding leaves lines without a placeholder line unchanged. */
  lemma {:induction false} DecIdentity(lines: seq<string>, fence: Option<Fence>)
    requires Marker !in lines
    ensures Dec(lines, fence) == lines
    decreases |lines|
  {
    if |lines| > 0 {
      assert |lines| >= 3 ==> lines[1] != Marker;
      assert Marker !in lines[1..];
      DecIdentity(lines[1..], NextFence(fence, lines[0]));
      assert lines == [lines[0]] + lines[1..];
    }
  }

  /** An encoding that wrote no placeholder changed nothing. */
  lemma {:induction false} EncIdentity(lines: seq<string>, fence: Option<Fence>, prev: Option<string>, run: nat)
    requires Marker !in Enc(lines, fence, prev, run)
    ensures Enc(lines, fence, prev, run) == Blanks(run) + lines
    decreases |lines|
  {
    if |lines| == 0 {
      FlushWithoutMarker(run, fence, prev, None);
      assert Blanks(run) + lines == Blanks(run);
    } else if lines[0] == "" {
      assert Enc(lines, fence, prev, run) == Enc(lines[1..], fence, prev, run + 1);
      EncIdentity(lines[1..], fence, prev, run + 1);
      BlanksShift(run, lines);
    } else {
      var x := lines[0];
      var f := Flush(run, fence, prev, Some(x));
      var e := Enc(lines[1..], NextFence(fence, x), Some(x), 0);
      EncNonBlank(lines, fence, prev, run);
      assert Enc(lines, fence, prev, run) == f + ([x] + e);
      assert Marker !in f && Marker !in e;
      FlushWithoutMarker(run, fence, prev, Some(x));
      EncIdentity(lines[1..], NextFence(fence, x), Some(x), 0);
      assert e == lines[1..];
      assert [x] + e == lines;
    }
  }

  lemma BlanksShift(run: nat, lines: seq<string>)
    requires |lines| > 0 && lines[0] == ""
    ensures Blanks(run + 1) + lines[1..] == Blanks(run) + lines
  {
    assert Blanks(run + 1) == Blanks(run) + [""];
    assert lines == [""] + lines[1..];
  }

  lemma FlushWithoutMarker(run: nat, fence: Option<Fence>, prev: Option<string>, next: Option<string>)
    requires Marker !in Flush(run, fence, prev, next)
    ensures Flush(run, fence, prev, next) == Blanks(run)
  {
  }

  predicate NoNewlines(ls: seq<string>) {
    forall l :: l in ls ==> '\n' !in l
  }

  lemma {:induction false} PairsLines(k: nat)
    ensures forall l :: l in Pairs(k) ==> l == Marker || l == ""
  {
    if k > 0 {
      PairsLines(k - 1);
      assert Pairs(k) == [Marker, ""] + Pairs(k - 1);
    }
  }

  /** A flush writes only blank lines and placeholders. */
  lemma FlushLines(run: nat, fence: Option<Fence>, prev: Option<string>, next: Option<string>)
    ensures forall l :: l in Flush(run, fence, prev, next) ==> l == Marker || l == ""
  {
    if run > 0 {
      PairsLines(run - 1);
      var f := Flush(run, fence, prev, next);
      if f != Blanks(run) {
        assert f == [""] + Pairs(run - 1);
      }
    }
  }

  /** Every encoded line is an input line, a blank line or the placeholder,
      so none contains a newline. */
  lemma {:induction false} EncNoNewline(lines: seq<string>, fence: Option<Fence>, prev: Option<string>, run: nat)
    requires NoNewlines(lines)
    ensures NoNewlines(Enc(lines, fence, prev, run))
    decreases |lines|
  {
    if |lines| == 0 {
      FlushLines(run, fence, prev, None);
      assert Enc(lines, fence, prev, run) == Flush(run, fence, prev, None);
    } else if lines[0] == "" {
      assert forall l :: l in lines[1..] ==> l in lines;
      EncNoNewline(lines[1..], fence, prev, run + 1);
    } else {
      assert lines[0] in lines;
      EncNoNewline(lines[1..], NextFence(fence, lines[0]), Some(lines[0]), 0);
      FlushLines(run, fence, prev, Some(lines[0]));
      EncNonBlank(lines, fence, prev, run);
    }
  }

  /** `fromWysiwygMarkdown(toWysiwygMarkdown(m)) == m` for every text with no
      line equal to the placeholder. */
  lemma RoundTrip(markdown: string)
    requires Marker !in Split(markdown, '\n')
    ensures FromWysiwyg(ToWysiwyg(markdown)) == markdown
  {
    var lines := Split(markdown, '\n');
    JoinSplit(markdown, '\n');
    assert NoNewlines(lines);
    if !Contains(markdown, "\n\n\n") {
      if Contains(markdown, Marker) {
        DecIdentity(lines, None);
      }
    } else {
      var enc := Enc(lines, None, None, 0);
      DecEnc(lines, None, None, 0);
      assert Dec(enc, None) == lines;
      assert |enc| >= 1;
      EncNoNewline(lines, None, None, 0);
      assert forall i :: 0 <= i < |enc| ==> '\n' !in enc[i] by {
        forall i | 0 <= i < |enc| ensures '\n' !in enc[i] { assert enc[i] in enc; }
      }
      var e := Join(enc, '\n');
      if Contains(e, Marker) {
        SplitJoin(enc, '\n');
      } else {
        if Marker in enc {
          var i :| 0 <= i < |enc| && enc[i] == Marker;
          JoinContainsPart(enc, '\n', i);
        }
        EncIdentity(lines, None, None, 0);
        assert enc == lines;
      }
    }
  }

  // ---------------------------------------------------------------------
  // Further properties

  /** Text without a triple newline is left untouched by the encoder, and
      text without the placeholder by the decoder. */
  lemma Shortcuts(markdown: string)
    ensures !Contains(markdown, "\n\n\n") ==> ToWysiwyg(markdown) == markdown
    ensures !Contains(markdown, Marker) ==> FromWysiwyg(markdown) == markdown
  {
  }

  /** The lines that carry content: neither blank nor the placeholder. */
  function Content(lines: seq<string>): (r: seq<string>)
    ensures forall i :: 0 <= i < |r| ==> r[i] != "" && r[i] != Marker
  {
    if |lines| == 0 then []
    else if lines[0] == "" || lines[0] == Marker then Content(lines[1..])
    else [lines[0]] + Content(lines[1..])
  }

  lemma {:induction false} ContentAppend(a: seq<string>, b: seq<string>)
    ensures Content(a + b) == Content(a) + Content(b)
  {
    if |a| == 0 {
      assert a + b == b;
    } else {
      assert (a + b)[1..] == a[1..] + b;
      ContentAppend(a[1..], b);
    }
  }

  lemma {:induction false} ContentBlanksPairs(k: nat)
    ensures Content(Blanks(k)) == [] && Content(Pairs(k)) == []
  {
    if k > 0 {
      ContentBlanksPairs(k - 1);
      assert Blanks(k)[1..] == Blanks(k - 1);
      assert Pairs(k) == [Marker] + ([""] + Pairs(k - 1));
    }
  }

  lemma FlushNoContent(run: nat, fence: Option<Fence>, prev: Option<string>, next: Option<string>)
    ensures Content(Flush(run, fence, prev, next)) == []
  {
    var f := Flush(run, fence, prev, next);
    if run > 0 {
      ContentBlanksPairs(run);
      ContentBlanksPairs(run - 1);
      if f != Blanks(run) {
        ContentAppend([""], Pairs(run - 1));
      }
    }
  }

  /** The encoder emits every content line unchanged and in order. */
  lemma {:induction false} EncKeepsContent(lines: seq<string>, fence: Option<Fence>, prev: Option<string>, run: nat)
    ensures Content(Enc(lines, fence, prev, run)) == Content(lines)
    decreases |lines|
  {
    if |lines| == 0 {
      FlushNoContent(run, fence, prev, None);
      assert Enc(lines, fence, prev, run) == Flush(run, fence, prev, None);
    } else if lines[0] == "" {
      EncKeepsContent(lines[1..], fence, prev, run + 1);
    } else {
      var x := lines[0];
      var f := Flush(run, fence, prev, Some(x));
      var e := Enc(lines[1..], NextFence(fence, x), Some(x), 0);
      EncKeepsContent(lines[1..], NextFence(fence, x), Some(x), 0);
      EncNonBlank(lines, fence, prev, run);
      FlushNoContent(run, fence, prev, Some(x));
      ContentAppend(f, [x] + e);
      ContentAppend([x], e);
      assert Content(lines) == Content([x]) + Content(lines[1..]) by {
        assert lines == [x] + lines[1..];
        ContentAppend([x], lines[1..]);
      }
    }
  }

  /** The decoder emits every content line unchanged and in order. */
  lemma {:induction false} DecKeepsContent(lines: seq<string>, fence: Option<Fence>)
    ensures Content(Dec(lines, fence)) == Content(lines)
    decreases |lines|
  {
    if |lines| > 0 {
      if fence.None? && lines[0] == "" && CountPairs(lines) > 0 {
        DecKeepsContent(lines[1 + 2 * CountPairs(lines)..], fence);
        DecPairsContent(lines, fence);
      } else {
        DecKeepsContent(lines[1..], NextFence(fence, lines[0]));
        DecLineContent(lines, fence);
      }
    }
  }

  /** A decoded run of pairs adds no content. */
  lemma DecPairsContent(lines: seq<string>, fence: Option<Fence>)
    requires |lines| > 0 && fence.None? && lines[0] == "" && CountPairs(lines) > 0
    requires var tl := lines[1 + 2 * CountPairs(lines)..]; Content(Dec(tl, fence)) == Content(tl)
    ensures Content(Dec(lines, fence)) == Content(lines)
  {
    var p := CountPairs(lines);
    var tl := lines[1 + 2 * p..];
    assert Dec(lines, fence) == Blanks(p + 1) + Dec(tl, fence);
    ContentBlanksPairs(p + 1);
    ContentAppend(Blanks(p + 1), Dec(tl, fence));
    PairsPrefixContent(lines);
  }

  /** A line the decoder copies keeps its content. */
  lemma DecLineContent(lines: seq<string>, fence: Option<Fence>)
    requires |lines| > 0 && !(fence.None? && lines[0] == "" && CountPairs(lines) > 0)
    requires Content(Dec(lines[1..], NextFence(fence, lines[0]))) == Content(lines[1..])
    ensures Content(Dec(lines, fence)) == Content(lines)
  {
    var nf := NextFence(fence, lines[0]);
    assert Dec(lines, fence) == [lines[0]] + Dec(lines[1..], nf);
    ContentAppend([lines[0]], Dec(lines[1..], nf));
    ContentAppend([lines[0]], lines[1..]);
    assert lines == [lines[0]] + lines[1..];
  }

  /** The blank line and pairs that `CountPairs` skips carry no content. */
  lemma {:induction false} PairsPrefixContent(lines: seq<string>)
    requires |lines| >= 1 && lines[0] == ""
    ensures Content(lines) == Content(lines[1 + 2 * CountPairs(lines)..])
    decreases |lines|
  {
    if |lines| >= 3 && lines[1] == Marker && lines[2] == "" {
      PairsPrefixContent(lines[2..]);
      assert lines[2..][1 + 2 * CountPairs(lines[2..])..] == lines[1 + 2 * CountPairs(lines)..];
      assert lines[1..][1..] == lines[2..];
    }
  }
}
