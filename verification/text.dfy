/** String helpers with the semantics of the JavaScript built-ins the source
    uses (`startsWith`, `includes`, `lastIndexOf`, `split`, `join`, `trim`,
    ASCII case mapping). Strings are sequences of Unicode scalar values,
    where JavaScript counts UTF-16 code units: a character outside the
    Basic Multilingual Plane has length 1 here and 2 in the source. */
module Text {

  predicate StartsWith(s: string, p: string) {
    |p| <= |s| && s[..|p|] == p
  }

  predicate EndsWith(s: string, p: string) {
    |p| <= |s| && s[|s| - |p|..] == p
  }

  /** `s.includes(p)`. */
  predicate Contains(s: string, p: string)
    decreases |s|
  {
    StartsWith(s, p) || (|s| > 0 && Contains(s[1..], p))
  }

  /** An occurrence of `p` at a known offset makes `Contains` true. */
  lemma {:induction false} ContainsAt(s: string, p: string, i: nat)
    requires i + |p| <= |s| && s[i..i + |p|] == p
    ensures Contains(s, p)
    decreases i
  {
    if i == 0 {
      assert s[..|p|] == p;
    } else {
      assert s[1..][i - 1..i - 1 + |p|] == s[i..i + |p|];
      ContainsAt(s[1..], p, i - 1);
    }
  }

  /** `Contains` holds only when some offset carries `p`. */
  lemma {:induction false} ContainsWitness(s: string, p: string) returns (i: nat)
    requires Contains(s, p)
    ensures i + |p| <= |s| && s[i..i + |p|] == p
    decreases |s|
  {
    if StartsWith(s, p) {
      i := 0;
    } else {
      var j := ContainsWitness(s[1..], p);
      assert s[1..][j..j + |p|] == s[j + 1..j + 1 + |p|];
      i := j + 1;
    }
  }

  /** `s.lastIndexOf(c)`: -1 when absent, else the index of the last occurrence. */
  function LastIndexOf(s: string, c: char): (r: int)
    ensures -1 <= r < |s|
    ensures r >= 0 ==> s[r] == c && forall j :: r < j < |s| ==> s[j] != c
    ensures r == -1 <==> c !in s
  {
    if |s| == 0 then -1
    else if s[|s| - 1] == c then |s| - 1
    else
      var r := LastIndexOf(s[..|s| - 1], c);
      assert c in s[..|s| - 1] ==> c in s;
      assert c in s ==> c in s[..|s| - 1] by {
        if c in s {
          var k :| 0 <= k < |s| && s[k] == c;
          assert k < |s| - 1 && s[..|s| - 1][k] == c;
        }
      }
      r
  }

  /** `s.split(sep)` for a one-character separator: never empty, and no
      piece contains the separator. */
  function Split(s: string, sep: char): (r: seq<string>)
    ensures |r| >= 1
    ensures forall i :: 0 <= i < |r| ==> sep !in r[i]
  {
    if |s| == 0 then [""]
    else
      var rest := Split(s[1..], sep);
      if s[0] == sep then [""] + rest
      else [[s[0]] + rest[0]] + rest[1..]
  }

  /** `parts.join(sep)` for a one-character separator. */
  function Join(parts: seq<string>, sep: char): string
  {
    if |parts| == 0 then ""
    else if |parts| == 1 then parts[0]
    else parts[0] + [sep] + Join(parts[1..], sep)
  }

  /** Joining the pieces of a split gives the original string back. */
  lemma {:induction false} JoinSplit(s: string, sep: char)
    ensures Join(Split(s, sep), sep) == s
  {
    if |s| == 0 {
    } else {
      var rest := Split(s[1..], sep);
      JoinSplit(s[1..], sep);
      if s[0] == sep {
        assert Split(s, sep) == [""] + rest;
        assert ([""] + rest)[1..] == rest;
      } else {
        var r := [[s[0]] + rest[0]] + rest[1..];
        assert Split(s, sep) == r;
        if |rest| == 1 {
          assert Join(r, sep) == [s[0]] + rest[0];
        } else {
          assert r[1..] == rest[1..];
          assert Join(r, sep) == [s[0]] + rest[0] + [sep] + Join(rest[1..], sep);
          assert Join(rest, sep) == rest[0] + [sep] + Join(rest[1..], sep);
        }
        assert s == [s[0]] + s[1..];
      }
    }
  }

  /** Splitting is injective: equal pieces mean equal strings. */
  lemma SplitInjective(a: string, b: string, sep: char)
    requires Split(a, sep) == Split(b, sep)
    ensures a == b
  {
    JoinSplit(a, sep);
    JoinSplit(b, sep);
  }

  /** Prepending a separator-free chunk extends the first piece only. */
  lemma {:induction false} SplitPrefix(x: string, y: string, sep: char)
    requires sep !in x
    ensures Split(x + y, sep) == [x + Split(y, sep)[0]] + Split(y, sep)[1..]
    decreases |x|
  {
    if |x| == 0 {
      assert x + y == y;
      assert x + Split(y, sep)[0] == Split(y, sep)[0];
      assert Split(y, sep) == [Split(y, sep)[0]] + Split(y, sep)[1..];
    } else {
      assert (x + y)[1..] == x[1..] + y;
      assert (x + y)[0] == x[0];
      SplitPrefix(x[1..], y, sep);
      assert [x[0]] + (x[1..] + Split(y, sep)[0]) == x + Split(y, sep)[0];
    }
  }

  /** Splitting a string by its first character. */
  lemma SplitCons(c: char, t: string, sep: char)
    ensures Split([c] + t, sep) == if c == sep then [""] + Split(t, sep) else [[c] + Split(t, sep)[0]] + Split(t, sep)[1..]
  {
    assert ([c] + t)[1..] == t && ([c] + t)[0] == c;
  }

  /** Appending text changes only the last piece of a split: the pieces
      before it stay, and the last one is split together with the text. */
  lemma {:induction false} SplitAppend(x: string, y: string, sep: char)
    ensures var px := Split(x, sep);
            Split(x + y, sep) == px[..|px| - 1] + Split(px[|px| - 1] + y, sep)
    decreases |x|
  {
    if |x| == 0 {
      assert x + y == y;
    } else {
      var c := x[0];
      var t := x[1..];
      assert x == [c] + t && x + y == [c] + (t + y);
      SplitAppend(t, y, sep);
      if c == sep {
        SplitAppendSep(c, t, y, sep);
      } else {
        SplitAppendOther(c, t, y, sep);
      }
    }
  }

  lemma SplitAppendSep(c: char, t: string, y: string, sep: char)
    requires c == sep
    requires var pt := Split(t, sep); Split(t + y, sep) == pt[..|pt| - 1] + Split(pt[|pt| - 1] + y, sep)
    ensures var px := Split([c] + t, sep);
            Split([c] + (t + y), sep) == px[..|px| - 1] + Split(px[|px| - 1] + y, sep)
  {
    SplitCons(c, t, sep);
    SplitCons(c, t + y, sep);
    SplitAppendSepCore(Split(t, sep), Split(t + y, sep), Split([c] + t, sep), Split([c] + (t + y), sep),
                       Split(Split(t, sep)[|Split(t, sep)| - 1] + y, sep));
  }

  /** The sequence step of `SplitAppendSep`, with the splits as plain values. */
  lemma SplitAppendSepCore(pt: seq<string>, ry: seq<string>, px: seq<string>, rx: seq<string>, tail: seq<string>)
    requires |pt| >= 1 && ry == pt[..|pt| - 1] + tail
    requires px == [""] + pt && rx == [""] + ry
    ensures rx == px[..|px| - 1] + tail && px[|px| - 1] == pt[|pt| - 1]
  {
    assert px[..|px| - 1] == [""] + pt[..|pt| - 1];
  }

  lemma SplitAppendOther(c: char, t: string, y: string, sep: char)
    requires c != sep
    requires var pt := Split(t, sep); Split(t + y, sep) == pt[..|pt| - 1] + Split(pt[|pt| - 1] + y, sep)
    ensures var px := Split([c] + t, sep);
            Split([c] + (t + y), sep) == px[..|px| - 1] + Split(px[|px| - 1] + y, sep)
  {
    SplitCons(c, t, sep);
    SplitCons(c, t + y, sep);
    if |Split(t, sep)| == 1 {
      SplitAppendOtherOne(c, t, y, sep);
    } else {
      SplitAppendOtherMany(c, t, y, sep);
    }
  }

  lemma SplitAppendOtherOne(c: char, t: string, y: string, sep: char)
    requires c != sep && |Split(t, sep)| == 1
    requires Split(t + y, sep) == Split(Split(t, sep)[0] + y, sep)
    requires Split([c] + t, sep) == [[c] + Split(t, sep)[0]]
    requires Split([c] + (t + y), sep) == [[c] + Split(t + y, sep)[0]] + Split(t + y, sep)[1..]
    ensures Split([c] + (t + y), sep) == Split(([c] + Split(t, sep)[0]) + y, sep)
  {
    var p0 := Split(t, sep)[0];
    assert ([c] + p0) + y == [c] + (p0 + y);
    SplitCons(c, p0 + y, sep);
  }

  lemma SplitAppendOtherMany(c: char, t: string, y: string, sep: char)
    requires c != sep && |Split(t, sep)| > 1
    requires var pt := Split(t, sep); Split(t + y, sep) == pt[..|pt| - 1] + Split(pt[|pt| - 1] + y, sep)
    requires var pt := Split(t, sep); Split([c] + t, sep) == [[c] + pt[0]] + pt[1..]
    requires Split([c] + (t + y), sep) == [[c] + Split(t + y, sep)[0]] + Split(t + y, sep)[1..]
    ensures var px := Split([c] + t, sep);
            Split([c] + (t + y), sep) == px[..|px| - 1] + Split(px[|px| - 1] + y, sep)
  {
    var pt := Split(t, sep);
    SplitAppendOtherCore([c], pt, Split(t + y, sep), Split([c] + t, sep), Split([c] + (t + y), sep),
                         Split(pt[|pt| - 1] + y, sep));
  }

  /** The sequence step of `SplitAppendOtherMany`, with the splits as plain
      values. */
  lemma SplitAppendOtherCore(head: string, pt: seq<string>, ry: seq<string>, px: seq<string>, rx: seq<string>,
                             tail: seq<string>)
    requires |pt| > 1 && ry == pt[..|pt| - 1] + tail
    requires px == [head + pt[0]] + pt[1..] && rx == [head + ry[0]] + ry[1..]
    ensures rx == px[..|px| - 1] + tail && px[|px| - 1] == pt[|pt| - 1]
  {
    assert px[..|px| - 1] == [head + pt[0]] + pt[1..|pt| - 1];
    assert ry[0] == pt[0] && ry[1..] == pt[1..|pt| - 1] + tail;
  }

  /** A string without the separator is a single piece. */
  lemma SplitWhole(s: string, sep: char)
    requires sep !in s
    ensures Split(s, sep) == [s]
  {
    SplitPrefix(s, "", sep);
    assert s + "" == s;
  }

  /** Splitting a join of separator-free pieces gives the pieces back. */
  lemma {:induction false} SplitJoin(parts: seq<string>, sep: char)
    requires |parts| >= 1
    requires forall i :: 0 <= i < |parts| ==> sep !in parts[i]
    ensures Split(Join(parts, sep), sep) == parts
  {
    if |parts| == 1 {
      SplitPrefix(parts[0], "", sep);
      assert parts[0] + "" == parts[0];
    } else {
      var tail := Join(parts[1..], sep);
      SplitJoin(parts[1..], sep);
      assert Join(parts, sep) == parts[0] + ([sep] + tail);
      SplitPrefix(parts[0], [sep] + tail, sep);
      assert ([sep] + tail)[1..] == tail;
      assert Split([sep] + tail, sep) == [""] + parts[1..];
      assert parts[0] + "" == parts[0];
    }
  }

  /** Every piece of a join occurs in it. */
  lemma {:induction false} JoinContainsPart(parts: seq<string>, sep: char, i: nat)
    requires i < |parts|
    ensures Contains(Join(parts, sep), parts[i])
  {
    var k := JoinOffset(parts, sep, i);
    ContainsAt(Join(parts, sep), parts[i], k);
  }

  lemma {:induction false} JoinOffset(parts: seq<string>, sep: char, i: nat) returns (k: nat)
    requires i < |parts|
    ensures k + |parts[i]| <= |Join(parts, sep)|
    ensures Join(parts, sep)[k..k + |parts[i]|] == parts[i]
  {
    if |parts| == 1 {
      k := 0;
    } else if i == 0 {
      k := 0;
      assert Join(parts, sep) == parts[0] + ([sep] + Join(parts[1..], sep));
    } else {
      var k' := JoinOffset(parts[1..], sep, i - 1);
      var j := Join(parts, sep);
      var pre := parts[0] + [sep];
      assert j == pre + Join(parts[1..], sep);
      k := |pre| + k';
      assert j[k..k + |parts[i]|] == Join(parts[1..], sep)[k'..k' + |parts[i]|];
    }
  }

  /** Whitespace as JavaScript's `\s` and `String.prototype.trim` define it. */
  predicate IsJsSpace(c: char) {
    c == ' ' || c == '\t' || c == '\n' || c == '\r' || c == '\U{000B}' || c == '\U{000C}'
    || c == '\U{00A0}' || c == '\U{1680}' || ('\U{2000}' <= c <= '\U{200A}')
    || c == '\U{2028}' || c == '\U{2029}' || c == '\U{202F}' || c == '\U{205F}'
    || c == '\U{3000}' || c == '\U{FEFF}'
  }

  function TrimStart(s: string): (r: string)
    ensures |r| <= |s| && r == s[|s| - |r|..]
    ensures |r| > 0 ==> !IsJsSpace(r[0])
    ensures forall i :: 0 <= i < |s| - |r| ==> IsJsSpace(s[i])
  {
    if |s| > 0 && IsJsSpace(s[0]) then
      var r := TrimStart(s[1..]);
      assert forall i :: 1 <= i < |s| - |r| ==> s[i] == s[1..][i - 1];
      assert s[1..][|s| - 1 - |r|..] == s[|s| - |r|..];
      r
    else s
  }

  function TrimEnd(s: string): (r: string)
    ensures |r| <= |s| && r == s[..|r|]
    ensures |r| > 0 ==> !IsJsSpace(r[|r| - 1])
    ensures forall i :: |r| <= i < |s| ==> IsJsSpace(s[i])
  {
    if |s| > 0 && IsJsSpace(s[|s| - 1]) then
      var r := TrimEnd(s[..|s| - 1]);
      assert forall i :: |r| <= i < |s| - 1 ==> s[i] == s[..|s| - 1][i];
      assert s[..|s| - 1][..|r|] == s[..|r|];
      r
    else s
  }

  /** `s.trim()`. */
  function Trim(s: string): string {
    TrimEnd(TrimStart(s))
  }

  /** A trimmed string is empty exactly when every character is whitespace. */
  lemma TrimEmptyIffBlank(s: string)
    ensures Trim(s) == "" <==> forall i :: 0 <= i < |s| ==> IsJsSpace(s[i])
  {
    var t := TrimStart(s);
    if Trim(s) == "" {
      assert |t| == 0;
    }
  }

  function LowerAscii(c: char): char {
    if 'A' <= c <= 'Z' then (c as int + 32) as char else c
  }

  function UpperAscii(c: char): char {
    if 'a' <= c <= 'z' then (c as int - 32) as char else c
  }

  /** `s.toLowerCase()` restricted to ASCII letters. */
  function ToLower(s: string): (r: string)
    ensures |r| == |s|
    ensures forall i :: 0 <= i < |s| ==> r[i] == LowerAscii(s[i])
  {
    if |s| == 0 then "" else [LowerAscii(s[0])] + ToLower(s[1..])
  }

  lemma ToLowerIdempotent(s: string)
    ensures ToLower(ToLower(s)) == ToLower(s)
  {
  }

  lemma ToLowerSuffix(s: string, i: nat)
    requires i <= |s|
    ensures ToLower(s)[i..] == ToLower(s[i..])
  {
  }

  /** `s.replace(/c/g, d)` for single characters. */
  function ReplaceChar(s: string, c: char, d: char): (r: string)
    ensures |r| == |s|
    ensures forall i :: 0 <= i < |s| ==> r[i] == (if s[i] == c then d else s[i])
  {
    if |s| == 0 then "" else [if s[0] == c then d else s[0]] + ReplaceChar(s[1..], c, d)
  }

  predicate IsDigit(c: char) {
    '0' <= c <= '9'
  }

  predicate AllDigits(s: string) {
    forall i :: 0 <= i < |s| ==> IsDigit(s[i])
  }

  /** JavaScript's `<` on strings: the first differing character decides,
      and a proper prefix comes first. */
  predicate StrLess(a: string, b: string) {
    if |a| == 0 then |b| > 0
    else |b| > 0 && (a[0] < b[0] || (a[0] == b[0] && StrLess(a[1..], b[1..])))
  }

  /** The order is strict: no string precedes itself or one it follows. */
  lemma {:induction false} StrLessAsymmetric(a: string, b: string)
    ensures !(StrLess(a, b) && StrLess(b, a))
    ensures !StrLess(a, a)
  {
    if |a| > 0 && |b| > 0 && a[0] == b[0] {
      StrLessAsymmetric(a[1..], b[1..]);
    }
    if |a| > 0 {
      StrLessAsymmetric(a[1..], a[1..]);
    }
  }
}
