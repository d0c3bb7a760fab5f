/** What the workflow node handlers share: node properties, the execution
    context's variables, the fixed patterns they match paths against, and
    the order in which they look a file up on Drive. Drive itself is a pair
    of lookup functions supplied by the caller. */
module NodeCommon {
  import opened Wrappers
  import opened Text

  /** A workflow variable: the source stores strings and numbers. */
  datatype Value = Str(s: string) | Num(n: int)

  type Vars = map<string, Value>

  type Props = map<string, string>

  /** `node.properties[key] || ""`. */
  function PropOr(props: Props, key: string): (r: string)
    ensures r == "" <==> key !in props || props[key] == ""
  {
    if key in props then props[key] else ""
  }

  /** A property that is set and not the empty string. */
  predicate HasProp(props: Props, key: string) {
    key in props && props[key] != ""
  }

  /** A flag property such as `confirm` or `history`: set, and not `"false"`. */
  predicate FlagOn(props: Props, key: string) {
    HasProp(props, key) && props[key] != "false"
  }

  /** A variable holding a non-empty string. */
  function StringVar(vars: Vars, name: string): (r: Option<string>)
    ensures r.Some? <==> name in vars && vars[name].Str? && vars[name].s != ""
    ensures r.Some? ==> r.value == vars[name].s
  {
    if name in vars && vars[name].Str? && vars[name].s != "" then Some(vars[name].s) else None
  }

  // ---------------------------------------------------------------------
  // Fixed patterns

  /** The regular-expression class `\w`. */
  predicate IsWordChar(c: char) {
    'a' <= c <= 'z' || 'A' <= c <= 'Z' || '0' <= c <= '9' || c == '_'
  }

  /** The length of the longest prefix made of `\w` characters. */
  function WordRun(s: string): (r: nat)
    ensures r <= |s|
    ensures forall i :: 0 <= i < r ==> IsWordChar(s[i])
    ensures r < |s| ==> !IsWordChar(s[r])
  {
    if |s| == 0 || !IsWordChar(s[0]) then 0 else 1 + WordRun(s[1..])
  }

  /** `^\{\{(\w+)\}\}` (and with `whole`, `^\{\{(\w+)\}\}$`): the captured
      variable name. `}` is not a word character, so the greedy run is the
      only candidate for the group. */
  function TemplateVar(s: string, whole: bool): (r: Option<string>)
    ensures r.Some? ==> |r.value| > 0 && forall i :: 0 <= i < |r.value| ==> IsWordChar(r.value[i])
    ensures r.Some? ==> StartsWith(s, "{{" + r.value + "}}")
    ensures r.Some? && whole ==> s == "{{" + r.value + "}}"
  {
    if !StartsWith(s, "{{") then None
    else
      var rest := s[2..];
      var n := WordRun(rest);
      if n > 0 && StartsWith(rest[n..], "}}") && (!whole || |rest| == n + 2) then
        assert s[..n + 4] == "{{" + rest[..n] + "}}";
        Some(rest[..n])
      else None
  }

  /** A template reference followed by anything else yields its name; with
      nothing after it, the anchored form matches too. */
  lemma TemplateVarOf(name: string, tail: string)
    requires |name| > 0 && forall i :: 0 <= i < |name| ==> IsWordChar(name[i])
    ensures TemplateVar("{{" + name + "}}" + tail, false) == Some(name)
    ensures TemplateVar("{{" + name + "}}" + tail, true) == (if tail == "" then Some(name) else None)
  {
    var s := "{{" + name + "}}" + tail;
    var rest := s[2..];
    assert rest == name + "}}" + tail;
    assert WordRun(rest) == |name| by {
      WordRunOf(name, "}}" + tail);
      assert rest == name + ("}}" + tail);
    }
    assert rest[..|name|] == name;
    assert rest[|name|..][..2] == "}}";
  }

  /** The run stops exactly where the word characters do. */
  lemma {:induction false} WordRunOf(w: string, tail: string)
    requires forall i :: 0 <= i < |w| ==> IsWordChar(w[i])
    requires |tail| == 0 || !IsWordChar(tail[0])
    ensures WordRun(w + tail) == |w|
    decreases |w|
  {
    if |w| > 0 {
      assert (w + tail)[1..] == w[1..] + tail;
      WordRunOf(w[1..], tail);
    } else {
      assert w + tail == tail;
    }
  }

  /** Whether a character may appear in a Drive file id. */
  predicate IsIdChar(c: char) {
    IsWordChar(c) || c == '-'
  }

  /** `^[a-zA-Z0-9_-]{20,}$`: text that is read as a Drive file id. */
  predicate IsDriveId(s: string) {
    |s| >= 20 && forall i :: 0 <= i < |s| ==> IsIdChar(s[i])
  }

  // ---------------------------------------------------------------------
  // Drive lookups

  /** A Drive file as the search and exact-name lookups return it. */
  datatype FileRef = FileRef(id: string, name: string)

  /** `files.find(f => names includes f.name)`. */
  function FindNamed(files: seq<FileRef>, names: set<string>): (r: Option<FileRef>)
    ensures r.Some? ==> r.value in files && r.value.name in names
    ensures r.None? <==> forall i :: 0 <= i < |files| ==> files[i].name !in names
    ensures r.Some? ==> exists i :: 0 <= i < |files| && files[i] == r.value
                                    && forall j :: 0 <= j < i ==> files[j].name !in names
  {
    if |files| == 0 then None
    else if files[0].name in names then Some(files[0])
    else
      var r := FindNamed(files[1..], names);
      if r.Some? then
        var i :| 0 <= i < |files[1..]| && files[1..][i] == r.value
                 && forall j :: 0 <= j < i ==> files[1..][j].name !in names;
        assert files[i + 1] == r.value;
        r
      else r
  }

  /** The error thrown by the nodes that call Gemini when no key is set. */
  const NoApiKey := "Gemini API key not configured"

  /** The error thrown when no file of that name is on Drive. */
  function NotFound(path: string): string {
    "File not found on Drive: " + path
  }

  /** The lookup shared by drive-read and rag-sync: a search hit named
      `path` or `path.md`, else an exact-name match for `path`, else one for
      `path.md` when `path` does not already end in `.md`. */
  function LookupByName(path: string, search: string -> seq<FileRef>, exact: string -> Option<FileRef>): (r: Option<FileRef>)
    ensures FindNamed(search(path), {path, path + ".md"}).Some? ==> r == FindNamed(search(path), {path, path + ".md"})
    ensures FindNamed(search(path), {path, path + ".md"}).None? && exact(path).Some? ==> r == exact(path)
    ensures FindNamed(search(path), {path, path + ".md"}).None? && exact(path).None? ==>
              r == (if EndsWith(path, ".md") then None else exact(path + ".md"))
  {
    var hit := FindNamed(search(path), {path, path + ".md"});
    if hit.Some? then hit
    else if exact(path).Some? then exact(path)
    else if !EndsWith(path, ".md") then exact(path + ".md")
    else None
  }

  /** A name already ending in `.md` never triggers the second exact lookup. */
  lemma MdPathSingleExactLookup(path: string, search: string -> seq<FileRef>, exact: string -> Option<FileRef>)
    requires EndsWith(path, ".md")
    ensures LookupByName(path, search, exact).Some? <==>
              (exists i :: 0 <= i < |search(path)| && search(path)[i].name in {path, path + ".md"}) || exact(path).Some?
  {
    var hit := FindNamed(search(path), {path, path + ".md"});
    if hit.Some? {
      var i :| 0 <= i < |search(path)| && search(path)[i] == hit.value
               && forall j :: 0 <= j < i ==> search(path)[j].name !in {path, path + ".md"};
    }
  }
}
