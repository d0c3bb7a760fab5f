/** The `drive-file` and `drive-read` workflow nodes: writing text to a
    Drive file found by name (or picked earlier in the workflow), and reading
    one into a variable. Drive is given as three lookup functions: a search
    by name, an exact-name lookup, and a read that may fail with a message. */
module DriveNodes {
  import opened Wrappers
  import opened Text
  import opened NodeCommon

  // ---------------------------------------------------------------------
  // File naming

  /** `path.split("/").pop()`: the part after the last `/`. */
  function BaseName(path: string): (r: string)
    ensures '/' !in r
    ensures |r| <= |path| && r == path[|path| - |r|..]
  {
    path[LastIndexOf(path, '/') + 1..]
  }

  /** The written file's name: `.md` is appended only when the base name has
      no `.` at all. */
  function FileNameFor(path: string): string {
    if '.' in BaseName(path) then path else path + ".md"
  }

  /** The last `c` is unaffected by a suffix without `c`. */
  lemma {:induction false} LastIndexOfAppend(path: string, suffix: string, c: char)
    requires c !in suffix
    ensures LastIndexOf(path + suffix, c) == LastIndexOf(path, c)
    decreases |suffix|
  {
    var s := path + suffix;
    if |suffix| > 0 {
      assert s[|s| - 1] == suffix[|suffix| - 1];
      assert s[..|s| - 1] == path + suffix[..|suffix| - 1];
      LastIndexOfAppend(path, suffix[..|suffix| - 1], c);
    } else {
      assert s == path;
    }
  }

  /** A suffix without `/` extends the base name. */
  lemma BaseNameAppend(path: string, suffix: string)
    requires '/' !in suffix
    ensures BaseName(path + suffix) == BaseName(path) + suffix
  {
    LastIndexOfAppend(path, suffix, '/');
    var i := LastIndexOf(path, '/');
    assert (path + suffix)[i + 1..] == path[i + 1..] + suffix;
  }

  /** Every written name has a `.` in its base name. */
  lemma FileNameHasExtension(path: string)
    ensures '.' in BaseName(FileNameFor(path))
  {
    if '.' !in BaseName(path) {
      BaseNameAppend(path, ".md");
      assert (BaseName(path) + ".md")[|BaseName(path)|] == '.';
    }
  }

  /** Naming a path twice is naming it once, and a name that already has an
      extension is kept as it is. */
  lemma FileNameForIdempotent(path: string)
    ensures FileNameFor(FileNameFor(path)) == FileNameFor(path)
    ensures '.' in BaseName(path) <==> FileNameFor(path) == path
  {
    FileNameHasExtension(path);
  }

  // ---------------------------------------------------------------------
  // drive-file

  datatype Mode = Create | Append | Overwrite

  /** `properties.mode || "overwrite"`: anything but `create` or `append` overwrites. */
  function ModeOf(props: Props): (r: Mode)
    ensures r == Create <==> PropOr(props, "mode") == "create"
    ensures r == Append <==> PropOr(props, "mode") == "append"
  {
    var m := PropOr(props, "mode");
    if m == "create" then Create else if m == "append" then Append else Overwrite
  }

  /** The write sent to Drive, always with mime type `text/markdown`. */
  datatype DriveWrite = CreateFile(name: string, content: string) | UpdateFile(id: string, content: string)
  {
    function Content(): string {
      match this
      case CreateFile(_, c) => c
      case UpdateFile(_, c) => c
    }
  }

  /** The edit-history entry recorded for the write (source `workflow`). */
  datatype EditRecord = EditRecord(path: string, oldContent: string, newContent: string)

  datatype FileResult =
    | Cancelled                                        // the confirmation dialog was dismissed
    | AlreadyExists                                    // `create` mode and the file is there
    | Wrote(write: DriveWrite, edit: Option<EditRecord>)

  /** The Drive file id a file picker stored for the variable that the raw
      path starts with (`{{name}}…` gives `name_fileId`). */
  function PickedFileId(pathRaw: string, vars: Vars, whole: bool): (r: Option<string>)
    ensures r.Some? ==> exists n :: TemplateVar(Trim(pathRaw), whole) == Some(n) && StringVar(vars, n + "_fileId") == r
    ensures TemplateVar(Trim(pathRaw), whole).None? ==> r.None?
  {
    match TemplateVar(Trim(pathRaw), whole)
    case None => None
    case Some(n) => StringVar(vars, n + "_fileId")
  }

  /** The file a drive-file node writes to: the picked file, else a search
      hit with exactly that name, else an exact-name match. */
  function TargetFile(pathRaw: string, fileName: string, vars: Vars,
                      search: string -> seq<FileRef>, exact: string -> Option<FileRef>): (r: Option<FileRef>)
    ensures PickedFileId(pathRaw, vars, false).Some? ==> r == Some(FileRef(PickedFileId(pathRaw, vars, false).value, fileName))
    ensures PickedFileId(pathRaw, vars, false).None? && FindNamed(search(fileName), {fileName}).Some? ==>
              r == FindNamed(search(fileName), {fileName})
    ensures PickedFileId(pathRaw, vars, false).None? && FindNamed(search(fileName), {fileName}).None? ==>
              r == exact(fileName)
  {
    var picked := PickedFileId(pathRaw, vars, false);
    if picked.Some? then Some(FileRef(picked.value, fileName))
    else
      var hit := FindNamed(search(fileName), {fileName});
      if hit.Some? then hit else exact(fileName)
  }

  /** A picked file is used without consulting Drive's search at all. */
  lemma PickedFileSkipsSearch(pathRaw: string, fileName: string, vars: Vars,
                              search1: string -> seq<FileRef>, exact1: string -> Option<FileRef>,
                              search2: string -> seq<FileRef>, exact2: string -> Option<FileRef>)
    requires PickedFileId(pathRaw, vars, false).Some?
    ensures TargetFile(pathRaw, fileName, vars, search1, exact1) == TargetFile(pathRaw, fileName, vars, search2, exact2)
  {
  }

  /** The content as it was before the write, for the history entry: `""`
      when history is off, the file is new, or reading it fails. */
  function OldContent(track: bool, target: Option<FileRef>, read: string -> Result<string>): string {
    if track && target.Some? && read(target.value.id).Ok? then read(target.value.id).value else ""
  }

  const MissingFilePath := "drive-file node missing 'path' property"

  /** `handleDriveFileNode`. `subst` is `replaceVariables` over the current
      variables; `dialog` is the confirmation answer (`None` when no dialog
      can be shown, `Some(false)` for Cancel or a closed dialog);
      `historyOn` says whether edit-history settings exist. */
  function HandleDriveFile(props: Props, vars: Vars, subst: string -> string, dialog: Option<bool>, historyOn: bool,
                           search: string -> seq<FileRef>, exact: string -> Option<FileRef>,
                           read: string -> Result<string>): (r: Result<FileResult>)
    ensures subst(PropOr(props, "path")) == "" ==> r == Err(MissingFilePath)
    ensures r == Ok(Cancelled) <==>
              subst(PropOr(props, "path")) != "" && FlagOn(props, "confirm") && dialog == Some(false)
    ensures r.Err? && subst(PropOr(props, "path")) != "" ==>
              var target := TargetFile(PropOr(props, "path"), FileNameFor(subst(PropOr(props, "path"))), vars, search, exact);
              ModeOf(props) == Append && target.Some? && read(target.value.id).Err? && r == Err(read(target.value.id).error)
    ensures r == Ok(AlreadyExists) ==> ModeOf(props) == Create
  {
    var path := subst(PropOr(props, "path"));
    if path == "" then Err(MissingFilePath)
    else if FlagOn(props, "confirm") && dialog == Some(false) then Ok(Cancelled)
    else
      var name := FileNameFor(path);
      WriteFile(name, subst(PropOr(props, "content")), ModeOf(props), TargetFile(PropOr(props, "path"), name, vars, search, exact),
                FlagOn(props, "history") && historyOn, read)
  }

  /** What the node writes once it knows the file name, the content, the
      mode and the existing file; `track` says whether history is recorded. */
  function WriteFile(name: string, content: string, mode: Mode, target: Option<FileRef>, track: bool,
                     read: string -> Result<string>): (r: Result<FileResult>)
    ensures r.Ok? ==> !r.value.Cancelled?
    ensures r.Err? ==> mode == Append && target.Some? && read(target.value.id).Err? && r == Err(read(target.value.id).error)
    ensures r == Ok(AlreadyExists) <==> mode == Create && target.Some?
    // an existing file is updated in place and a missing one created under
    // the computed name; the history entry, when recorded, holds the previous
    // text and exactly what was written
    ensures r.Ok? && r.value.Wrote? ==>
              && (r.value.write.CreateFile? <==> target.None?)
              && (r.value.write.CreateFile? ==> r.value.write.name == name)
              && (r.value.write.UpdateFile? ==> r.value.write.id == target.value.id && mode != Create)
              && (mode != Append ==> r.value.write.Content() == content)
              && (r.value.edit.Some? <==> track)
              && (r.value.edit.Some? ==> r.value.edit.value == EditRecord(name, OldContent(true, target, read), r.value.write.Content()))
  {
    var before := OldContent(track, target, read);
    if target.None? then
      Ok(Wrote(CreateFile(name, content), if track then Some(EditRecord(name, before, content)) else None))
    else if mode == Create then Ok(AlreadyExists)
    else if mode == Append then
      match read(target.value.id)
      case Err(e) => Err(e)
      case Ok(current) =>
        var full := current + "\n" + content;
        Ok(Wrote(UpdateFile(target.value.id, full), if track then Some(EditRecord(name, before, full)) else None))
    else
      Ok(Wrote(UpdateFile(target.value.id, content), if track then Some(EditRecord(name, before, content)) else None))
  }

  /** Appending keeps the current text and adds the new content on a new line. */
  lemma AppendKeepsCurrent(name: string, content: string, target: Option<FileRef>, track: bool,
                           read: string -> Result<string>)
    requires target.Some? && read(target.value.id).Ok?
    ensures var r := WriteFile(name, content, Append, target, track, read);
            var current := read(target.value.id).value;
            r.Ok? && r.value.Wrote? && r.value.write == UpdateFile(target.value.id, current + "\n" + content)
            && StartsWith(r.value.write.content, current)
  {
    var current := read(target.value.id).value;
    assert (current + "\n" + content)[..|current|] == current;
  }

  /** Without a confirmation flag, or without a dialog to show, the node
      never stops for the user. */
  lemma NoDialogNoCancel(props: Props, vars: Vars, subst: string -> string, dialog: Option<bool>, historyOn: bool,
                         search: string -> seq<FileRef>, exact: string -> Option<FileRef>,
                         read: string -> Result<string>)
    requires !FlagOn(props, "confirm") || dialog != Some(false)
    ensures HandleDriveFile(props, vars, subst, dialog, historyOn, search, exact, read) != Ok(Cancelled)
  {
  }

  // ---------------------------------------------------------------------
  // drive-read

  const MissingSaveTo := "drive-read node missing 'saveTo' property"
  const MissingReadPath := "drive-read node missing 'path' property"

  /** The id a drive-read node reads: the path itself when it looks like a
      Drive id, else the picked file when the raw path is exactly one
      `{{name}}`, else the name lookup. */
  function ReadTarget(pathRaw: string, path: string, vars: Vars,
                      search: string -> seq<FileRef>, exact: string -> Option<FileRef>): (r: Option<string>)
    ensures IsDriveId(path) ==> r == Some(path)
    ensures !IsDriveId(path) && PickedFileId(pathRaw, vars, true).Some? ==> r == PickedFileId(pathRaw, vars, true)
    ensures !IsDriveId(path) && PickedFileId(pathRaw, vars, true).None? ==>
              (r.Some? <==> LookupByName(path, search, exact).Some?)
              && (r.Some? ==> r.value == LookupByName(path, search, exact).value.id)
  {
    if IsDriveId(path) then Some(path)
    else
      var picked := PickedFileId(pathRaw, vars, true);
      if picked.Some? then picked
      else
        var file := LookupByName(path, search, exact);
        if file.Some? then Some(file.value.id) else None
  }

  /** `handleDriveReadNode`: the variables after the node, or the error it throws. */
  function HandleDriveRead(props: Props, vars: Vars, subst: string -> string,
                           search: string -> seq<FileRef>, exact: string -> Option<FileRef>,
                           read: string -> Result<string>): (r: Result<Vars>)
    ensures !HasProp(props, "saveTo") ==> r == Err(MissingSaveTo)
    ensures HasProp(props, "saveTo") && Trim(PropOr(props, "path")) == "" ==> r == Err(MissingReadPath)
    ensures var id := ReadTarget(PropOr(props, "path"), subst(PropOr(props, "path")), vars, search, exact);
            r.Ok? <==> HasProp(props, "saveTo") && Trim(PropOr(props, "path")) != "" && id.Some? && read(id.value).Ok?
    ensures r.Ok? ==>
              var id := ReadTarget(PropOr(props, "path"), subst(PropOr(props, "path")), vars, search, exact);
              r.value == vars[props["saveTo"] := Str(read(id.value).value)]
    ensures HasProp(props, "saveTo") && Trim(PropOr(props, "path")) != "" ==>
              var path := subst(PropOr(props, "path"));
              var id := ReadTarget(PropOr(props, "path"), path, vars, search, exact);
              && (id.None? ==> r == Err(NotFound(path)))
              && (id.Some? && read(id.value).Err? ==> r == Err(read(id.value).error))
  {
    if !HasProp(props, "saveTo") then Err(MissingSaveTo)
    else if Trim(PropOr(props, "path")) == "" then Err(MissingReadPath)
    else
      var path := subst(PropOr(props, "path"));
      match ReadTarget(PropOr(props, "path"), path, vars, search, exact)
      case None => Err(NotFound(path))
      case Some(id) =>
        match read(id)
        case Err(e) => Err(e)
        case Ok(content) => Ok(vars[props["saveTo"] := Str(content)])
  }

  /** A successful read sets exactly the `saveTo` variable. */
  lemma ReadSetsOnlySaveTo(props: Props, vars: Vars, subst: string -> string,
                           search: string -> seq<FileRef>, exact: string -> Option<FileRef>,
                           read: string -> Result<string>, k: string)
    requires HandleDriveRead(props, vars, subst, search, exact, read).Ok?
    ensures var r := HandleDriveRead(props, vars, subst, search, exact, read).value;
            props["saveTo"] in r && r[props["saveTo"]].Str?
            && (k != props["saveTo"] ==> (k in r <==> k in vars) && (k in vars ==> r[k] == vars[k]))
  {
  }

  /** A path that looks like a Drive id is read directly, whatever the
      search would have found. */
  lemma DriveIdReadDirectly(props: Props, vars: Vars, subst: string -> string,
                            search1: string -> seq<FileRef>, exact1: string -> Option<FileRef>,
                            search2: string -> seq<FileRef>, exact2: string -> Option<FileRef>,
                            read: string -> Result<string>)
    requires IsDriveId(subst(PropOr(props, "path")))
    ensures HandleDriveRead(props, vars, subst, search1, exact1, read) == HandleDriveRead(props, vars, subst, search2, exact2, read)
  {
  }
}
