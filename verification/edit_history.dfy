/** Edit-history reconstruction: each saved edit is a line patch between two
    versions of a file, tagged with where it was made; restoring an older
    version folds the newest-first patch list over the current content.

    A patch is a whole-file line edit script: every line of the old version
    is kept or deleted, every line of the new version is kept or added, and
    applying it requires the content to match its old side exactly. */
module EditHistory {
  import opened Wrappers
  import opened Text

  datatype Op = Keep(line: string) | Del(line: string) | Add(line: string)

  type Patch = seq<Op>

  /** The lines a patch expects before it is applied. */
  function OldSide(p: Patch): seq<string> {
    if |p| == 0 then []
    else match p[0]
      case Keep(l) => [l] + OldSide(p[1..])
      case Del(l) => [l] + OldSide(p[1..])
      case Add(_) => OldSide(p[1..])
  }

  /** The lines a patch produces. */
  function NewSide(p: Patch): seq<string> {
    if |p| == 0 then []
    else match p[0]
      case Keep(l) => [l] + NewSide(p[1..])
      case Del(_) => NewSide(p[1..])
      case Add(l) => [l] + NewSide(p[1..])
  }

  /** Applies a patch line by line; fails on the first line that does not match. */
  function Apply(lines: seq<string>, p: Patch): (r: Option<seq<string>>)
    ensures r.Some? <==> lines == OldSide(p)
    ensures r.Some? ==> r.value == NewSide(p)
  {
    if |p| == 0 then (if |lines| == 0 then Some([]) else None)
    else match p[0]
      case Keep(l) =>
        if |lines| > 0 && lines[0] == l then
          var rest := Apply(lines[1..], p[1..]);
          assert lines == [lines[0]] + lines[1..];
          if rest.Some? then Some([l] + rest.value) else None
        else None
      case Del(l) =>
        if |lines| > 0 && lines[0] == l then
          assert lines == [lines[0]] + lines[1..];
          Apply(lines[1..], p[1..])
        else None
      case Add(l) =>
        var rest := Apply(lines, p[1..]);
        if rest.Some? then Some([l] + rest.value) else None
  }

  /** The patch that undoes `p`: deletions become additions and back. */
  function Invert(p: Patch): (r: Patch)
    ensures |r| == |p|
  {
    if |p| == 0 then []
    else
      var op := match p[0]
        case Keep(l) => Keep(l)
        case Del(l) => Add(l)
        case Add(l) => Del(l);
      [op] + Invert(p[1..])
  }

  lemma {:induction false} InvertSwapsSides(p: Patch)
    ensures OldSide(Invert(p)) == NewSide(p)
    ensures NewSide(Invert(p)) == OldSide(p)
    ensures Invert(Invert(p)) == p
  {
    if |p| > 0 {
      InvertSwapsSides(p[1..]);
      assert Invert(p)[1..] == Invert(p[1..]);
      assert Invert(Invert(p))[1..] == Invert(Invert(p)[1..]);
    }
  }

  /** Lines of `a` after its common prefix with `b` are deleted, and the rest
      of `b` is added. */
  function LinePatch(a: seq<string>, b: seq<string>): (p: Patch)
    ensures OldSide(p) == a && NewSide(p) == b
  {
    if |a| > 0 && |b| > 0 && a[0] == b[0] then [Keep(a[0])] + LinePatch(a[1..], b[1..])
    else
      SidesAppend(DeleteAll(a), AddAll(b));
      DeleteAll(a) + AddAll(b)
  }

  function DeleteAll(a: seq<string>): (p: Patch)
    ensures OldSide(p) == a && NewSide(p) == []
  {
    if |a| == 0 then [] else [Del(a[0])] + DeleteAll(a[1..])
  }

  function AddAll(b: seq<string>): (p: Patch)
    ensures OldSide(p) == [] && NewSide(p) == b
  {
    if |b| == 0 then [] else [Add(b[0])] + AddAll(b[1..])
  }

  lemma {:induction false} SidesAppend(p: Patch, q: Patch)
    ensures OldSide(p + q) == OldSide(p) + OldSide(q)
    ensures NewSide(p + q) == NewSide(p) + NewSide(q)
  {
    if |p| > 0 {
      assert (p + q)[0] == p[0];
      assert (p + q)[1..] == p[1..] + q;
      SidesAppend(p[1..], q);
    } else {
      assert p + q == q;
    }
  }

  function Lines(content: string): seq<string> {
    Split(content, '\n')
  }

  /** The stored diff between two versions of a file. */
  function MakeDiff(oldContent: string, newContent: string): (p: Patch)
    ensures OldSide(p) == Lines(oldContent) && NewSide(p) == Lines(newContent)
  {
    LinePatch(Lines(oldContent), Lines(newContent))
  }

  /** Line lists that can be a split of some text: at least one line and no
      line holding a newline. */
  predicate IsLineList(ls: seq<string>) {
    |ls| >= 1 && forall i :: 0 <= i < |ls| ==> '\n' !in ls[i]
  }

  /** `reverseApplyDiff`: undoes a diff on content at its new side, and is
      null on any other content. */
  function ReverseApplyDiff(content: string, p: Patch): (r: Option<string>)
    ensures r.Some? <==> Lines(content) == NewSide(p)
    ensures r.Some? ==> r.value == Join(OldSide(p), '\n')
    ensures r.Some? && IsLineList(OldSide(p)) ==> Lines(r.value) == OldSide(p)
  {
    InvertSwapsSides(p);
    var applied := Apply(Lines(content), Invert(p));
    if applied.Some? then
      var out := Join(applied.value, '\n');
      if IsLineList(applied.value) then
        SplitJoin(applied.value, '\n');
        Some(out)
      else Some(out)
    else None
  }

  /** Whether content sits at the old side of a diff, so the diff would still
      apply forward. */
  predicate CanApplyForward(content: string, p: Patch) {
    Apply(Lines(content), p).Some?
  }

  /** Undoing the diff of two versions on the newer one gives the older one. */
  lemma ReverseApplyRoundTrip(oldContent: string, newContent: string)
    ensures ReverseApplyDiff(newContent, MakeDiff(oldContent, newContent)) == Some(oldContent)
  {
    var r := ReverseApplyDiff(newContent, MakeDiff(oldContent, newContent));
    SplitInjective(r.value, oldContent, '\n');
  }

  /** Undoing a diff on content other than its newer version fails. */
  lemma ReverseApplyMismatch(oldContent: string, newContent: string, content: string)
    requires content != newContent
    ensures ReverseApplyDiff(content, MakeDiff(oldContent, newContent)) == None
  {
    if Lines(content) == Lines(newContent) {
      SplitInjective(content, newContent, '\n');
    }
  }

  datatype Origin = Local | Remote

  datatype DiffWithOrigin = DiffWithOrigin(diff: Patch, origin: Origin)

  /** One step of the fold: a remote diff that still applies forward was
      never pulled into this content and is skipped; anything else is undone. */
  function Step(content: string, d: DiffWithOrigin): Option<string> {
    if d.origin == Remote && CanApplyForward(content, d.diff) then Some(content)
    else ReverseApplyDiff(content, d.diff)
  }

  /** `reconstructContent`: folds the newest-first diffs; any failed step
      makes the whole result null. */
  function Reconstruct(content: string, diffs: seq<DiffWithOrigin>): Option<string>
    decreases |diffs|
  {
    if |diffs| == 0 then Some(content)
    else
      match Step(content, diffs[0])
      case None => None
      case Some(c) => Reconstruct(c, diffs[1..])
  }

  /** An empty diff list returns the content unchanged. */
  lemma ReconstructEmpty(content: string)
    ensures Reconstruct(content, []) == Some(content)
  {
  }

  /** Reconstruction over a concatenation runs the second list on the result
      of the first, and a failure in the first is final. */
  lemma {:induction false} ReconstructAppend(content: string, a: seq<DiffWithOrigin>, b: seq<DiffWithOrigin>)
    ensures Reconstruct(content, a + b)
            == (match Reconstruct(content, a) case None => None case Some(c) => Reconstruct(c, b))
    decreases |a|
  {
    if |a| == 0 {
      assert a + b == b;
    } else {
      assert (a + b)[0] == a[0];
      assert (a + b)[1..] == a[1..] + b;
      match Step(content, a[0])
      case None =>
      case Some(c) => ReconstructAppend(c, a[1..], b);
    }
  }

  /** A step that fails anywhere in the list makes the result null. */
  lemma ReconstructFailsMidChain(content: string, a: seq<DiffWithOrigin>, d: DiffWithOrigin, b: seq<DiffWithOrigin>)
    requires Reconstruct(content, a).Some?
    requires Step(Reconstruct(content, a).value, d).None?
    ensures Reconstruct(content, a + [d] + b) == None
  {
    ReconstructAppend(content, a, [d] + b);
    assert a + [d] + b == a + ([d] + b);
  }

  /** The newest-first diff list of the version history `vs` (oldest first),
      with `origins[0]` tagging the newest edit. */
  function Chain(vs: seq<string>, origins: seq<Origin>): (r: seq<DiffWithOrigin>)
    requires |vs| >= 1 && |origins| == |vs| - 1
    ensures |r| == |origins|
    decreases |origins|
  {
    if |origins| == 0 then []
    else
      var n := |vs| - 1;
      [DiffWithOrigin(MakeDiff(vs[n - 1], vs[n]), origins[0])] + Chain(vs[..n], origins[1..])
  }

  /** Undoing the newest edit of a history, local or remote, steps back one version. */
  lemma StepBack(older: string, newer: string, o: Origin)
    ensures Step(newer, DiffWithOrigin(MakeDiff(older, newer), o)) == Some(older)
  {
    var p := MakeDiff(older, newer);
    ReverseApplyRoundTrip(older, newer);
    if o == Remote && CanApplyForward(newer, p) {
      SplitInjective(newer, older, '\n');
    }
  }

  /** Reconstructing the whole history from its latest version gives the first. */
  lemma {:induction false} ChainRestoresFirst(vs: seq<string>, origins: seq<Origin>)
    requires |vs| >= 1 && |origins| == |vs| - 1
    ensures Reconstruct(vs[|vs| - 1], Chain(vs, origins)) == Some(vs[0])
    decreases |origins|
  {
    if |origins| > 0 {
      var n := |vs| - 1;
      StepBack(vs[n - 1], vs[n], origins[0]);
      ChainRestoresFirst(vs[..n], origins[1..]);
    }
  }

  /** The first k diffs of a history's chain are the chain of its last k+1 versions. */
  lemma ChainUnfold(vs: seq<string>, origins: seq<Origin>)
    requires |vs| >= 2 && |origins| == |vs| - 1
    ensures Chain(vs, origins)
            == [DiffWithOrigin(MakeDiff(vs[|vs| - 2], vs[|vs| - 1]), origins[0])] + Chain(vs[..|vs| - 1], origins[1..])
  {
  }

  lemma {:induction false} ChainPrefix(vs: seq<string>, origins: seq<Origin>, k: nat)
    requires |vs| >= 1 && |origins| == |vs| - 1 && k <= |origins|
    ensures Chain(vs, origins)[..k] == Chain(vs[|vs| - 1 - k..], origins[..k])
    decreases k
  {
    var n := |vs| - 1;
    if k > 0 {
      var vs' := vs[..n];
      var os' := origins[1..];
      var head := DiffWithOrigin(MakeDiff(vs[n - 1], vs[n]), origins[0]);
      var rest := Chain(vs', os');
      ChainUnfold(vs, origins);
      ChainPrefix(vs', os', k - 1);
      var tail := vs[n - k..];
      var ok := origins[..k];
      ChainUnfold(tail, ok);
      assert tail[k - 1] == vs[n - 1] && tail[k] == vs[n] && ok[0] == origins[0];
      assert tail[..k] == vs'[|vs'| - 1 - (k - 1)..];
      assert ok[1..] == os'[..k - 1];
      assert ([head] + rest)[..k] == [head] + rest[..k - 1];
    }
  }

  /** Restoring the entry k places back (the UI applies the k newest diffs)
      yields the version k edits before the latest. */
  lemma ChainRestoresVersion(vs: seq<string>, origins: seq<Origin>, k: nat)
    requires |vs| >= 1 && |origins| == |vs| - 1 && k <= |origins|
    ensures Reconstruct(vs[|vs| - 1], Chain(vs, origins)[..k]) == Some(vs[|vs| - 1 - k])
  {
    ChainPrefix(vs, origins, k);
    var tail := vs[|vs| - 1 - k..];
    ChainRestoresFirst(tail, origins[..k]);
    assert tail[|tail| - 1] == vs[|vs| - 1];
  }

  /** A remote diff whose old side is the current content is skipped. */
  lemma RemoteSkippedAtOldSide(oldContent: string, newContent: string)
    ensures Reconstruct(oldContent, [DiffWithOrigin(MakeDiff(oldContent, newContent), Remote)]) == Some(oldContent)
  {
  }

  /** A remote diff whose new side is the current content is undone. */
  lemma RemoteUndoneAtNewSide(oldContent: string, newContent: string)
    ensures Reconstruct(newContent, [DiffWithOrigin(MakeDiff(oldContent, newContent), Remote)]) == Some(oldContent)
  {
    StepBack(oldContent, newContent, Remote);
  }

  /** A push from `v0` to `v1` that was never pulled, followed by a local edit
      of `v0`: undoing both gives `v0` back. */
  lemma UnpulledRemotePush(v0: string, v1: string, edited: string)
    ensures Reconstruct(edited, [DiffWithOrigin(MakeDiff(v0, edited), Local),
                                 DiffWithOrigin(MakeDiff(v0, v1), Remote)]) == Some(v0)
  {
    StepBack(v0, edited, Local);
    RemoteSkippedAtOldSide(v0, v1);
    var ds := [DiffWithOrigin(MakeDiff(v0, edited), Local), DiffWithOrigin(MakeDiff(v0, v1), Remote)];
    assert ds[1..] == [DiffWithOrigin(MakeDiff(v0, v1), Remote)];
  }
}
