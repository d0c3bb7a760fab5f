/** Keyboard shortcut settings: validating a binding against the others,
    showing it, capturing a key combination, and what is saved. Whether a
    combination needs a modifier and whether it is taken by the
    application itself are decided by predicates passed in. */
module Shortcuts {
  import opened Wrappers
  import opened Text

  datatype Binding = Binding(id: string, action: string, key: string, ctrlOrMeta: bool, shift: bool, alt: bool)

  datatype BindingError = Duplicate | RequireModifier | BuiltinConflict

  // ---------------------------------------------------------------------
  // Validation

  /** `other` takes the same combination as `b`: a different binding with
      a key, the same key ignoring case and the same modifiers. */
  predicate Clashes(b: Binding, other: Binding) {
    && other.id != b.id && other.key != ""
    && ToLower(other.key) == ToLower(b.key)
    && other.ctrlOrMeta == b.ctrlOrMeta && other.shift == b.shift && other.alt == b.alt
  }

  /** The duplicate scan over all bindings. */
  function HasDuplicate(b: Binding, all: seq<Binding>): (r: bool)
    ensures r <==> exists i :: 0 <= i < |all| && Clashes(b, all[i])
    decreases |all|
  {
    if |all| == 0 then false
    else if Clashes(b, all[0]) then true
    else
      var rest := HasDuplicate(b, all[1..]);
      assert forall i :: 1 <= i < |all| ==> all[i] == all[1..][i - 1];
      assert rest ==> exists i :: 0 <= i < |all| && Clashes(b, all[i]) by {
        if rest {
          var j :| 0 <= j < |all[1..]| && Clashes(b, all[1..][j]);
          assert Clashes(b, all[j + 1]);
        }
      }
      rest
  }

  /** `getBindingError`: no key means no error; then the missing-modifier
      check, then the built-in conflict, then the duplicate scan. */
  function BindingErrorOf(b: Binding, all: seq<Binding>, validKey: Binding -> bool, builtin: Binding -> bool): (r: Option<BindingError>)
    ensures b.key == "" ==> r.None?
    ensures b.key != "" && !validKey(b) ==> r == Some(RequireModifier)
    ensures b.key != "" && validKey(b) && builtin(b) ==> r == Some(BuiltinConflict)
    ensures r == Some(Duplicate) <==>
              b.key != "" && validKey(b) && !builtin(b) && exists i :: 0 <= i < |all| && Clashes(b, all[i])
    ensures r.None? <==>
              b.key == "" || (validKey(b) && !builtin(b) && forall i :: 0 <= i < |all| ==> !Clashes(b, all[i]))
  {
    if b.key == "" then None
    else if !validKey(b) then Some(RequireModifier)
    else if builtin(b) then Some(BuiltinConflict)
    else if HasDuplicate(b, all) then Some(Duplicate)
    else None
  }

  /** A binding never clashes with itself, so a list holding one binding
      reports no duplicate. */
  lemma NoSelfDuplicate(b: Binding, validKey: Binding -> bool, builtin: Binding -> bool)
    ensures BindingErrorOf(b, [b], validKey, builtin) != Some(Duplicate)
  {
  }

  /** Duplicates are reported on both sides: when two bindings take the
      same combination and both pass the earlier checks, each is marked. */
  lemma DuplicateBothWays(a: Binding, b: Binding, all: seq<Binding>, validKey: Binding -> bool, builtin: Binding -> bool)
    requires a in all && b in all
    requires Clashes(a, b) && a.key != ""
    requires validKey(a) && validKey(b) && !builtin(a) && !builtin(b)
    ensures BindingErrorOf(a, all, validKey, builtin) == Some(Duplicate)
    ensures BindingErrorOf(b, all, validKey, builtin) == Some(Duplicate)
  {
    var i :| 0 <= i < |all| && all[i] == b;
    var j :| 0 <= j < |all| && all[j] == a;
    assert Clashes(a, all[i]);
    assert Clashes(b, all[j]);
  }

  // ---------------------------------------------------------------------
  // Display

  /** The key as shown: a single character in upper case (ASCII letters
      only), longer key names as they are. */
  function KeyLabel(key: string): (r: string)
    ensures |key| == 1 ==> r == [UpperAscii(key[0])]
    ensures |key| != 1 ==> r == key
  {
    if |key| == 1 then [UpperAscii(key[0])] else key
  }

  /** The parts shown, in the order Ctrl/Cmd, Shift, Alt, key. */
  function DisplayParts(b: Binding): (r: seq<string>)
    ensures |r| == (if b.ctrlOrMeta then 1 else 0) + (if b.shift then 1 else 0) + (if b.alt then 1 else 0) + (if b.key != "" then 1 else 0)
    ensures b.ctrlOrMeta ==> r[0] == "Ctrl/Cmd"
    ensures b.shift ==> r[if b.ctrlOrMeta then 1 else 0] == "Shift"
    ensures b.alt ==> r[(if b.ctrlOrMeta then 1 else 0) + (if b.shift then 1 else 0)] == "Alt"
    ensures b.key != "" ==> r[|r| - 1] == KeyLabel(b.key)
    ensures forall i :: 0 <= i < |r| ==> r[i] != ""
  {
    (if b.ctrlOrMeta then ["Ctrl/Cmd"] else [])
    + (if b.shift then ["Shift"] else [])
    + (if b.alt then ["Alt"] else [])
    + (if b.key != "" then [KeyLabel(b.key)] else [])
  }

  /** The total length of the parts. */
  function PartsLength(parts: seq<string>): nat
    decreases |parts|
  {
    if |parts| == 0 then 0 else |parts[0]| + PartsLength(parts[1..])
  }

  /** `parts.join(sep)`. */
  function JoinWith(parts: seq<string>, sep: string): (r: string)
    ensures |parts| == 0 ==> r == ""
    ensures |parts| == 1 ==> r == parts[0]
    ensures |parts| > 0 ==> StartsWith(r, parts[0]) && EndsWith(r, parts[|parts| - 1])
    ensures |parts| > 0 ==> |r| >= |parts[0]|
    ensures |parts| > 1 ==> |r| >= |parts[0]| + |sep| + |parts[|parts| - 1]|
    decreases |parts|
  {
    if |parts| == 0 then ""
    else if |parts| == 1 then parts[0]
    else
      var rest := JoinWith(parts[1..], sep);
      assert parts[1..][|parts[1..]| - 1] == parts[|parts| - 1];
      assert (parts[0] + sep + rest)[..|parts[0]|] == parts[0];
      assert (parts[0] + sep + rest)[|parts[0] + sep + rest| - |parts[|parts| - 1]|..] == rest[|rest| - |parts[|parts| - 1]|..];
      parts[0] + sep + rest
  }

  /** Joining two or more parts puts the first, then the separator, then
      the join of the rest. */
  lemma JoinWithUnfold(parts: seq<string>, sep: string)
    requires |parts| > 1
    ensures JoinWith(parts, sep) == (parts[0] + sep) + JoinWith(parts[1..], sep)
  {
  }

  /** The joined text is as long as the parts plus one separator between
      each two of them. */
  lemma {:induction false} JoinWithLength(parts: seq<string>, sep: string)
    requires |parts| > 0
    ensures |JoinWith(parts, sep)| == PartsLength(parts) + (|parts| - 1) * |sep|
    decreases |parts|
  {
    if |parts| > 1 {
      JoinWithLength(parts[1..], sep);
      JoinWithUnfold(parts, sep);
      assert (|parts| - 1) * |sep| == |sep| + (|parts| - 2) * |sep|;
    }
  }

  /** Joining two non-empty runs of parts is joining each and putting the
      separator between them. With the one-part case this fixes the join of
      any list. */
  lemma {:induction false} JoinWithAppend(a: seq<string>, b: seq<string>, sep: string)
    requires |a| > 0 && |b| > 0
    ensures JoinWith(a + b, sep) == JoinWith(a, sep) + sep + JoinWith(b, sep)
    decreases |a|
  {
    assert (a + b)[0] == a[0];
    if |a| == 1 {
      assert (a + b)[1..] == b;
      JoinWithUnfold(a + b, sep);
    } else {
      assert (a + b)[1..] == a[1..] + b;
      JoinWithAppend(a[1..], b, sep);
      JoinWithUnfold(a + b, sep);
      JoinWithUnfold(a, sep);
    }
  }

  /** `formatShortcutDisplay`: the parts joined by ` + `, or `—` when
      there is nothing to show. */
  function FormatShortcut(b: Binding): (r: string)
    ensures DisplayParts(b) == [] <==> !b.ctrlOrMeta && !b.shift && !b.alt && b.key == ""
    ensures DisplayParts(b) == [] ==> r == "—"
    ensures DisplayParts(b) != [] ==> r == JoinWith(DisplayParts(b), " + ")
    ensures b.ctrlOrMeta ==> StartsWith(r, "Ctrl/Cmd")
    ensures b.key != "" ==> EndsWith(r, KeyLabel(b.key))
  {
    var joined := JoinWith(DisplayParts(b), " + ");
    if joined != "" then joined else "—"
  }

  lemma StartsWithAfter(head: string, rest: string, p: string)
    requires StartsWith(rest, p)
    ensures StartsWith(head + rest, head + p)
  {
    assert (head + rest)[..|head + p|] == head + rest[..|p|];
  }

  /** A join of two or more parts begins with the first two and the
      separator between them. */
  lemma JoinStartsWithFirstTwo(parts: seq<string>, sep: string)
    requires |parts| > 1
    ensures StartsWith(JoinWith(parts, sep), parts[0] + sep + parts[1])
  {
    JoinWithUnfold(parts, sep);
    assert parts[1..][0] == parts[1];
    StartsWithAfter(parts[0] + sep, JoinWith(parts[1..], sep), parts[1]);
  }

  /** With Ctrl/Cmd and Shift both set, the text begins `Ctrl/Cmd + Shift`. */
  lemma CtrlThenShift(b: Binding)
    requires b.ctrlOrMeta && b.shift
    ensures StartsWith(FormatShortcut(b), "Ctrl/Cmd + Shift")
  {
    var parts := DisplayParts(b);
    assert parts[0] == "Ctrl/Cmd" && parts[1] == "Shift";
    JoinStartsWithFirstTwo(parts, " + ");
    CtrlShiftSpelled();
  }

  lemma CtrlShiftSpelled()
    ensures "Ctrl/Cmd" + " + " + "Shift" == "Ctrl/Cmd + Shift"
  {
  }

  /** The placeholder `—` is shown exactly for a binding with no modifier
      and either no key or that very character as its key. */
  lemma PlaceholderMeansEmpty(b: Binding)
    ensures FormatShortcut(b) == "—" <==> !b.ctrlOrMeta && !b.shift && !b.alt && (b.key == "" || b.key == "—")
  {
    PlaceholderOnlyWhenEmpty(b);
    PlaceholderForDashKey(b);
  }

  lemma PlaceholderOnlyWhenEmpty(b: Binding)
    ensures FormatShortcut(b) == "—" ==> !b.ctrlOrMeta && !b.shift && !b.alt && (b.key == "" || b.key == "—")
  {
    var parts := DisplayParts(b);
    var joined := JoinWith(parts, " + ");
    if FormatShortcut(b) == "—" && |parts| > 0 {
      assert |joined| >= |parts[0]| > 0;
      assert StartsWith(joined, parts[0]);
      assert |parts| == 1;
      assert parts[0] == "—";
    }
  }

  lemma PlaceholderForDashKey(b: Binding)
    ensures !b.ctrlOrMeta && !b.shift && !b.alt && b.key == "—" ==> FormatShortcut(b) == "—"
  {
    if !b.ctrlOrMeta && !b.shift && !b.alt && b.key == "—" {
      assert |b.key| == 1 && UpperAscii(b.key[0]) == b.key[0];
      assert DisplayParts(b) == [KeyLabel(b.key)];
    }
  }

  // ---------------------------------------------------------------------
  // Editing and saving

  /** The bindings that are saved: those with a key, in order. */
  function Saved(bindings: seq<Binding>): (r: seq<Binding>)
    ensures forall b :: b in r <==> b in bindings && b.key != ""
    ensures |r| <= |bindings|
    decreases |bindings|
  {
    if |bindings| == 0 then []
    else
      var init := bindings[..|bindings| - 1];
      var last := bindings[|bindings| - 1];
      assert bindings == init + [last];
      Saved(init) + (if last.key != "" then [last] else [])
  }

  /** Saving keeps the relative order of what it keeps. */
  lemma {:induction false} SavedKeepsOrder(a: seq<Binding>, b: seq<Binding>)
    ensures Saved(a + b) == Saved(a) + Saved(b)
    decreases |b|
  {
    if |b| > 0 {
      assert (a + b)[..|a + b| - 1] == a + b[..|b| - 1];
      SavedKeepsOrder(a, b[..|b| - 1]);
    } else {
      assert a + b == a;
    }
  }

  /** The first binding with an id. */
  function FindBinding(bindings: seq<Binding>, id: string): (r: Option<Binding>)
    ensures r.Some? ==> r.value in bindings && r.value.id == id
    ensures r.None? <==> forall i :: 0 <= i < |bindings| ==> bindings[i].id != id
  {
    if |bindings| == 0 then None
    else if bindings[0].id == id then Some(bindings[0])
    else
      var r := FindBinding(bindings[1..], id);
      assert forall i :: 1 <= i < |bindings| ==> bindings[i] == bindings[1..][i - 1];
      r
  }

  /** `saveBinding`: what is sent, if anything. A missing binding or one
      with an error sends nothing; otherwise every keyed binding is sent. */
  function SaveBinding(bindings: seq<Binding>, id: string, validKey: Binding -> bool, builtin: Binding -> bool): (r: Option<seq<Binding>>)
    ensures r.Some? <==> FindBinding(bindings, id).Some? && BindingErrorOf(FindBinding(bindings, id).value, bindings, validKey, builtin).None?
    ensures r.Some? ==> r.value == Saved(bindings)
  {
    match FindBinding(bindings, id)
    case None => None
    case Some(b) => if BindingErrorOf(b, bindings, validKey, builtin).Some? then None else Some(Saved(bindings))
  }

  /** A key press while a binding listens. */
  datatype KeyPress = KeyPress(key: string, ctrlKey: bool, metaKey: bool, shiftKey: bool, altKey: bool)

  datatype Capture = Capture(bindings: seq<Binding>, listening: Option<string>)

  /** Whether a press is a lone modifier. */
  predicate ModifierOnly(key: string) {
    key in {"Control", "Shift", "Alt", "Meta"}
  }

  /** The key handler: a lone modifier is ignored and listening goes on;
      Escape stops listening and changes nothing; any other key becomes the
      combination of the listening binding, and listening stops. */
  function CaptureKey(bindings: seq<Binding>, listening: Option<string>, press: KeyPress): (r: Capture)
    ensures listening.None? || ModifierOnly(press.key) ==> r == Capture(bindings, listening)
    ensures listening.Some? && !ModifierOnly(press.key) ==> r.listening.None?
    ensures press.key == "Escape" ==> r.bindings == bindings
    ensures |r.bindings| == |bindings|
    ensures forall i :: 0 <= i < |bindings| && (listening.None? || bindings[i].id != listening.value) ==> r.bindings[i] == bindings[i]
    ensures listening.Some? && !ModifierOnly(press.key) && press.key != "Escape" ==>
              forall i :: 0 <= i < |bindings| && bindings[i].id == listening.value ==>
                r.bindings[i] == bindings[i].(key := press.key, ctrlOrMeta := press.ctrlKey || press.metaKey,
                                              shift := press.shiftKey, alt := press.altKey)
  {
    if listening.None? || ModifierOnly(press.key) then Capture(bindings, listening)
    else if press.key == "Escape" then Capture(bindings, None)
    else
      var id := listening.value;
      Capture(seq(|bindings|, i requires 0 <= i < |bindings| =>
                if bindings[i].id == id then
                  bindings[i].(key := press.key, ctrlOrMeta := press.ctrlKey || press.metaKey, shift := press.shiftKey, alt := press.altKey)
                else bindings[i]),
              None)
  }

  /** `addBinding`: a keyless workflow shortcut is appended and starts
      listening. */
  function AddBinding(bindings: seq<Binding>, newId: string): (r: Capture)
    ensures |r.bindings| == |bindings| + 1 && r.bindings[..|bindings|] == bindings
    ensures r.bindings[|bindings|] == Binding(newId, "executeWorkflow", "", false, false, false)
    ensures r.listening == Some(newId)
    ensures Saved(r.bindings) == Saved(bindings)
  {
    var b := Binding(newId, "executeWorkflow", "", false, false, false);
    SavedKeepsOrder(bindings, [b]);
    assert Saved([b]) == [] by { assert [b][..0] == []; }
    Capture(bindings + [b], Some(newId))
  }

  /** A freshly added binding has no error. */
  lemma NewBindingValid(bindings: seq<Binding>, newId: string, validKey: Binding -> bool, builtin: Binding -> bool)
    ensures var r := AddBinding(bindings, newId);
            BindingErrorOf(r.bindings[|bindings|], r.bindings, validKey, builtin).None?
  {
  }

  /** `removeBinding`: every binding with the id goes, the rest is saved
      in the order shown, and listening stops if it was that binding. */
  function RemoveBinding(bindings: seq<Binding>, id: string, listening: Option<string>): (r: (Capture, seq<Binding>))
    ensures forall b :: b in r.0.bindings <==> b in bindings && b.id != id
    ensures r.0.bindings == Without(bindings, id)
    ensures r.1 == Saved(r.0.bindings)
    ensures r.0.listening == (if listening == Some(id) then None else listening)
    decreases |bindings|
  {
    var next := Without(bindings, id);
    (Capture(next, if listening == Some(id) then None else listening), Saved(next))
  }

  /** The bindings whose id is not `id`, in order. */
  function Without(bindings: seq<Binding>, id: string): (r: seq<Binding>)
    ensures forall b :: b in r <==> b in bindings && b.id != id
    ensures |r| <= |bindings|
    ensures |bindings| == 1 ==> r == (if bindings[0].id != id then bindings else [])
    decreases |bindings|
  {
    if |bindings| == 0 then []
    else
      var init := bindings[..|bindings| - 1];
      var last := bindings[|bindings| - 1];
      assert bindings == init + [last];
      Without(init, id) + (if last.id != id then [last] else [])
  }

  /** Removing keeps the relative order of the bindings that stay: with the
      one-binding case this fixes the result as the filtered sequence. */
  lemma {:induction false} WithoutKeepsOrder(a: seq<Binding>, b: seq<Binding>, id: string)
    ensures Without(a + b, id) == Without(a, id) + Without(b, id)
    decreases |b|
  {
    if |b| > 0 {
      assert (a + b)[..|a + b| - 1] == a + b[..|b| - 1];
      WithoutKeepsOrder(a, b[..|b| - 1], id);
    } else {
      assert a + b == a;
    }
  }
}
