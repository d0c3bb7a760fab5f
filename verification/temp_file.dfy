/** Temporary edits kept in the `__TEMP__` Drive folder: listing them,
    saving one per file name, applying them to their target files (alone
    or all at once), and the `_temp-edit-meta.json` list of edit links.
    The folder's listing and the Drive calls' answers are parameters; a
    failed call is its error message. */
module TempFile {
  import opened Wrappers
  import opened Text
  import opened NodeCommon

  /** The JSON content of a temp file. */
  datatype Payload = Payload(fileId: string, content: string, savedAt: string)

  datatype TempFileInfo = TempFileInfo(tempFileId: string, fileName: string, displayName: string, payload: Payload)

  // ---------------------------------------------------------------------
  // Listing and lookup

  /** The info for one listed file, if it is listed: names starting with
      `_` are internal files, and a file whose payload cannot be read or
      parsed is skipped. */
  function InfoFor(f: FileRef, load: string -> Option<Payload>): (r: Option<TempFileInfo>)
    ensures r.Some? <==> !StartsWith(f.name, "_") && load(f.id).Some?
    ensures r.Some? ==> r.value == TempFileInfo(f.id, f.name, f.name, load(f.id).value)
  {
    if StartsWith(f.name, "_") then None
    else
      match load(f.id)
      case None => None
      case Some(p) => Some(TempFileInfo(f.id, f.name, f.name, p))
  }

  /** `listTempFiles`: the readable, non-internal temp files in folder
      order. `load` reads and parses a file (`None` when either throws). */
  function ListTempFiles(files: seq<FileRef>, load: string -> Option<Payload>): (r: seq<TempFileInfo>)
    ensures |r| <= |files|
    ensures forall i :: 0 <= i < |r| ==> !StartsWith(r[i].fileName, "_") && r[i].displayName == r[i].fileName
    decreases |files|
  {
    if |files| == 0 then []
    else
      var rest := ListTempFiles(files[..|files| - 1], load);
      match InfoFor(files[|files| - 1], load)
      case None => rest
      case Some(info) => rest + [info]
  }

  /** Every listed file is an info built from a folder entry and its
      parsed payload. */
  lemma {:induction false} ListedComeFromFolder(files: seq<FileRef>, load: string -> Option<Payload>, info: TempFileInfo)
    requires info in ListTempFiles(files, load)
    ensures FileRef(info.tempFileId, info.fileName) in files
    ensures load(info.tempFileId) == Some(info.payload)
    decreases |files|
  {
    var last := files[|files| - 1];
    if info in ListTempFiles(files[..|files| - 1], load) {
      ListedComeFromFolder(files[..|files| - 1], load, info);
    } else {
      assert InfoFor(last, load) == Some(info);
    }
  }

  /** Every readable, non-internal folder entry is listed. */
  lemma {:induction false} FolderEntriesListed(files: seq<FileRef>, load: string -> Option<Payload>, i: nat)
    requires i < |files| && !StartsWith(files[i].name, "_") && load(files[i].id).Some?
    ensures TempFileInfo(files[i].id, files[i].name, files[i].name, load(files[i].id).value) in ListTempFiles(files, load)
    decreases |files|
  {
    if i < |files| - 1 {
      FolderEntriesListed(files[..|files| - 1], load, i);
    }
  }

  /** The listing of two folder segments is the listing of the first
      followed by that of the second: folder order is kept. */
  lemma {:induction false} ListingKeepsOrder(a: seq<FileRef>, b: seq<FileRef>, load: string -> Option<Payload>)
    ensures ListTempFiles(a + b, load) == ListTempFiles(a, load) + ListTempFiles(b, load)
    decreases |b|
  {
    if |b| > 0 {
      assert (a + b)[..|a + b| - 1] == a + b[..|b| - 1];
      ListingKeepsOrder(a, b[..|b| - 1], load);
    } else {
      assert a + b == a;
    }
  }

  /** `findTempFile`: the first entry with that name; an unreadable one
      gives `None` without looking further. */
  function FindTempFile(files: seq<FileRef>, fileName: string, load: string -> Option<Payload>): (r: Option<TempFileInfo>)
    ensures FindNamed(files, {fileName}).None? ==> r.None?
    ensures r.Some? ==>
              && FindNamed(files, {fileName}).Some?
              && var f := FindNamed(files, {fileName}).value;
                 && f.name == fileName && load(f.id).Some?
                 && r.value == TempFileInfo(f.id, f.name, f.name, load(f.id).value)
    ensures FindNamed(files, {fileName}).Some? ==> (r.Some? <==> load(FindNamed(files, {fileName}).value.id).Some?)
  {
    match FindNamed(files, {fileName})
    case None => None
    case Some(f) =>
      match load(f.id)
      case None => None
      case Some(p) => Some(TempFileInfo(f.id, f.name, f.name, p))
  }

  // ---------------------------------------------------------------------
  // Saving

  /** A write into the temp folder: an update of an existing file or a
      creation under a name. */
  datatype FolderWrite = UpdateFile(id: string, content: string) | CreateFile(name: string, content: string)

  /** Write `content` under `name`: the first file of that name is
      updated, and only when there is none is a file created. Used for
      temp files and for the edit-link list alike. */
  function WriteNamed(files: seq<FileRef>, name: string, content: string): (r: FolderWrite)
    ensures r.content == content
    ensures r.CreateFile? <==> forall i :: 0 <= i < |files| ==> files[i].name != name
    ensures r.CreateFile? ==> r.name == name
    ensures r.UpdateFile? ==> exists i :: 0 <= i < |files| && files[i].id == r.id && files[i].name == name
                                           && forall j :: 0 <= j < i ==> files[j].name != name
  {
    match FindNamed(files, {name})
    case Some(f) => UpdateFile(f.id, content)
    case None => CreateFile(name, content)
  }

  /** `saveTempFile`: the payload serialized as JSON, written under the
      file name. */
  function SaveTempFile(files: seq<FileRef>, fileName: string, payload: Payload, stringify: Payload -> string): (r: FolderWrite)
    ensures r.content == stringify(payload)
    ensures r.CreateFile? <==> forall i :: 0 <= i < |files| ==> files[i].name != fileName
    ensures r.CreateFile? ==> r.name == fileName
  {
    WriteNamed(files, fileName, stringify(payload))
  }

  /** Saving twice under a name whose file already exists updates that one
      file both times: there is never a second temp file per name. */
  lemma SecondSaveUpdates(files: seq<FileRef>, fileName: string, p1: Payload, p2: Payload, stringify: Payload -> string, newId: string)
    requires SaveTempFile(files, fileName, p1, stringify).CreateFile?
    ensures SaveTempFile(files + [FileRef(newId, fileName)], fileName, p2, stringify) == UpdateFile(newId, stringify(p2))
  {
    var all := files + [FileRef(newId, fileName)];
    assert all[|files|].name == fileName;
    var r := SaveTempFile(all, fileName, p2, stringify);
    assert r.UpdateFile?;
    var i :| 0 <= i < |all| && all[i].id == r.id && all[i].name == fileName
             && forall j :: 0 <= j < i ==> all[j].name != fileName;
    assert i == |files|;
  }

  // ---------------------------------------------------------------------
  // Applying

  /** The file Drive reports after an update. */
  datatype Stamp = Stamp(md5Checksum: Option<string>, modifiedTime: Option<string>)

  datatype ApplyResult = ApplyResult(fileId: string, md5Checksum: string, modifiedTime: string, editEntry: Option<string>)

  /** The Drive calls an apply makes, in order. */
  datatype TempOp = UpdateTarget(fileId: string, content: string) | RecordEdit(path: string, oldContent: string, newContent: string) | DeleteTemp(tempFileId: string)

  /** The answers of Drive during one apply. `oldContent` is `None` when
      reading the target throws; `metaName` and `saveEdit` are the target's
      name and the saved history entry, or their errors; `deleteError` is
      the error of deleting the temp file, if any. */
  datatype ApplyEnv = ApplyEnv(oldContent: Option<string>, update: Result<Stamp>, historyOn: bool,
                               metaName: Result<string>, saveEdit: Result<string>, deleteError: Option<string>)

  datatype ApplyRun = ApplyRun(ops: seq<TempOp>, result: Result<Option<ApplyResult>>)

  /** An error that means the target is gone. */
  predicate IsNotFound(message: string) {
    Contains(message, "404")
  }

  /** What a failure of the update or of the temp file's deletion leads
      to: for a 404 the temp file is deleted (ignoring the outcome) and the
      apply gives `null`; any other error is raised. */
  function Recover(done: seq<TempOp>, tempFileId: string, message: string): (r: ApplyRun)
    ensures IsNotFound(message) ==> r == ApplyRun(done + [DeleteTemp(tempFileId)], Ok(None))
    ensures !IsNotFound(message) ==> r == ApplyRun(done, Err(message))
  {
    if IsNotFound(message) then ApplyRun(done + [DeleteTemp(tempFileId)], Ok(None))
    else ApplyRun(done, Err(message))
  }

  /** `applyTempFile`. */
  function ApplyTempFile(info: TempFileInfo, env: ApplyEnv): (r: ApplyRun)
    // the first call always writes the payload to its target
    ensures |r.ops| >= 1 && r.ops[0] == UpdateTarget(info.payload.fileId, info.payload.content)
    ensures env.update.Err? ==> r == Recover([r.ops[0]], info.tempFileId, env.update.error)
    // on success the temp file is deleted last and the answer reports the update
    ensures r.result.Ok? && r.result.value.Some? ==>
              && env.update.Ok? && env.deleteError.None?
              && r.ops[|r.ops| - 1] == DeleteTemp(info.tempFileId)
              && r.result.value.value.fileId == info.payload.fileId
              && r.result.value.value.md5Checksum == env.update.value.md5Checksum.GetOr("")
              && r.result.value.value.modifiedTime == env.update.value.modifiedTime.GetOr("")
    // a history failure does not stop the apply; it only drops the entry
    ensures env.update.Ok? && env.deleteError.None? ==>
              && r.result.Ok? && r.result.value.Some?
              && (r.result.value.value.editEntry.Some? <==> env.historyOn && env.metaName.Ok? && env.saveEdit.Ok?)
    // the recorded edit runs from the target's old content (or "") to the payload
    ensures env.update.Ok? && env.historyOn && env.metaName.Ok? ==>
              RecordEdit(env.metaName.value, env.oldContent.GetOr(""), info.payload.content) in r.ops
    // a 404 anywhere still deletes the temp file and gives null
    ensures r.result == Ok(None) ==> r.ops[|r.ops| - 1] == DeleteTemp(info.tempFileId)
  {
    var update := UpdateTarget(info.payload.fileId, info.payload.content);
    match env.update
    case Err(m) => Recover([update], info.tempFileId, m)
    case Ok(stamp) =>
      var record := env.historyOn && env.metaName.Ok?;
      var edit := if record then [RecordEdit(env.metaName.value, env.oldContent.GetOr(""), info.payload.content)] else [];
      var entry := if record && env.saveEdit.Ok? then Some(env.saveEdit.value) else None;
      var done := [update] + edit + [DeleteTemp(info.tempFileId)];
      match env.deleteError
      case Some(m) => Recover(done, info.tempFileId, m)
      case None =>
        ApplyRun(done, Ok(Some(ApplyResult(info.payload.fileId, stamp.md5Checksum.GetOr(""), stamp.modifiedTime.GetOr(""), entry))))
  }

  /** The applied results of a run of outcomes: the non-null ones, in
      order. */
  function Kept(outcomes: seq<Option<ApplyResult>>): seq<ApplyResult>
    decreases |outcomes|
  {
    if |outcomes| == 0 then []
    else Kept(outcomes[..|outcomes| - 1]) + (if outcomes[|outcomes| - 1].Some? then [outcomes[|outcomes| - 1].value] else [])
  }

  /** The outcomes of applying every listed file in order, up to the
      first error. */
  function Outcomes(infos: seq<TempFileInfo>, apply: TempFileInfo -> Result<Option<ApplyResult>>): (r: seq<Option<ApplyResult>>)
    ensures |r| <= |infos|
    ensures forall i :: 0 <= i < |r| ==> apply(infos[i]) == Ok(r[i])
    ensures |r| < |infos| ==> apply(infos[|r|]).Err?
    decreases |infos|
  {
    if |infos| == 0 then []
    else
      match apply(infos[0])
      case Err(_) => []
      case Ok(o) => [o] + Outcomes(infos[1..], apply)
  }

  /** `applyAllTempFiles` over an already computed listing: the first
      error is raised; otherwise the non-null results in listing order. */
  method ApplyAll(infos: seq<TempFileInfo>, apply: TempFileInfo -> Result<Option<ApplyResult>>)
    returns (r: Result<seq<ApplyResult>>)
    ensures r.Ok? <==> forall i :: 0 <= i < |infos| ==> apply(infos[i]).Ok?
    ensures r.Ok? ==> |Outcomes(infos, apply)| == |infos| && r.value == Kept(Outcomes(infos, apply))
    ensures r.Err? ==> exists i :: 0 <= i < |infos| && apply(infos[i]) == Err(r.error)
    // the error raised is the first one: every file before it applied
    ensures r.Err? ==> |Outcomes(infos, apply)| < |infos| && apply(infos[|Outcomes(infos, apply)|]) == Err(r.error)
  {
    var results: seq<ApplyResult> := [];
    var i := 0;
    while i < |infos|
      invariant 0 <= i <= |infos|
      invariant forall j :: 0 <= j < i ==> apply(infos[j]).Ok?
      invariant |Outcomes(infos, apply)| >= i
      invariant results == Kept(Outcomes(infos, apply)[..i])
    {
      var o := apply(infos[i]);
      if o.Err? {
        assert |Outcomes(infos, apply)| == i;
        return Err(o.error);
      }
      var outs := Outcomes(infos, apply);
      assert outs[..i + 1][..i] == outs[..i];
      if o.value.Some? {
        results := results + [o.value.value];
      }
      i := i + 1;
    }
    assert Outcomes(infos, apply)[..i] == Outcomes(infos, apply);
    return Ok(results);
  }

  // ---------------------------------------------------------------------
  // Edit links (`_temp-edit-meta.json`)

  const TempEditMetaName := "_temp-edit-meta.json"
  const DayMs := 24 * 60 * 60 * 1000

  datatype TempEditEntry = TempEditEntry(uuid: string, fileId: string, fileName: string, createdAt: string)

  /** The stored list, or `[]` when the file is missing or unparsable. */
  function ReadEntries(stored: Option<seq<TempEditEntry>>): (r: seq<TempEditEntry>)
    ensures stored.None? ==> r == []
    ensures stored.Some? ==> r == stored.value
  {
    if stored.Some? then stored.value else []
  }

  /** The entries a predicate keeps, in order. */
  function Filter(entries: seq<TempEditEntry>, keep: TempEditEntry -> bool): seq<TempEditEntry>
    decreases |entries|
  {
    if |entries| == 0 then []
    else Filter(entries[..|entries| - 1], keep) + (if keep(entries[|entries| - 1]) then [entries[|entries| - 1]] else [])
  }

  /** An entry is kept exactly when it was there and the predicate holds. */
  lemma {:induction false} FilterMembers(entries: seq<TempEditEntry>, keep: TempEditEntry -> bool, e: TempEditEntry)
    ensures e in Filter(entries, keep) <==> e in entries && keep(e)
    decreases |entries|
  {
    if |entries| > 0 {
      var init := entries[..|entries| - 1];
      FilterMembers(init, keep, e);
      assert entries == init + [entries[|entries| - 1]];
    }
  }

  /** Filtering two segments filters each: the kept entries keep their
      relative order. */
  lemma {:induction false} FilterKeepsOrder(a: seq<TempEditEntry>, b: seq<TempEditEntry>, keep: TempEditEntry -> bool)
    ensures Filter(a + b, keep) == Filter(a, keep) + Filter(b, keep)
    decreases |b|
  {
    if |b| > 0 {
      assert (a + b)[..|a + b| - 1] == a + b[..|b| - 1];
      FilterKeepsOrder(a, b[..|b| - 1], keep);
    } else {
      assert a + b == a;
    }
  }

  /** Whether an entry is newer than the cutoff; an unparsable time
      compares false and so drops the entry. `timeOf` is `Date` parsing. */
  predicate Fresh(e: TempEditEntry, timeOf: string -> Option<int>, nowMs: int) {
    timeOf(e.createdAt).Some? && timeOf(e.createdAt).value > nowMs - DayMs
  }

  /** `addTempEditEntry`: entries older than a day are pruned, then the new
      entry is appended. The answer is the list written back. */
  function AddTempEditEntry(stored: Option<seq<TempEditEntry>>, entry: TempEditEntry, timeOf: string -> Option<int>, nowMs: int): (r: seq<TempEditEntry>)
    ensures |r| >= 1 && r[|r| - 1] == entry
    ensures forall e :: e in r[..|r| - 1] <==> e in ReadEntries(stored) && Fresh(e, timeOf, nowMs)
  {
    var kept := Filter(ReadEntries(stored), (e: TempEditEntry) => Fresh(e, timeOf, nowMs));
    forall e ensures e in kept <==> e in ReadEntries(stored) && Fresh(e, timeOf, nowMs) {
      FilterMembers(ReadEntries(stored), (e: TempEditEntry) => Fresh(e, timeOf, nowMs), e);
    }
    assert (kept + [entry])[..|kept|] == kept;
    kept + [entry]
  }

  /** `removeTempEditEntry`: every entry with that uuid goes; the others
      stay. */
  function RemoveTempEditEntry(stored: Option<seq<TempEditEntry>>, uuid: string): (r: seq<TempEditEntry>)
    ensures forall e :: e in r <==> e in ReadEntries(stored) && e.uuid != uuid
    ensures |r| <= |ReadEntries(stored)|
  {
    var kept := Filter(ReadEntries(stored), (e: TempEditEntry) => e.uuid != uuid);
    forall e ensures e in kept <==> e in ReadEntries(stored) && e.uuid != uuid {
      FilterMembers(ReadEntries(stored), (e: TempEditEntry) => e.uuid != uuid, e);
    }
    FilterShorter(ReadEntries(stored), (e: TempEditEntry) => e.uuid != uuid);
    kept
  }

  lemma {:induction false} FilterShorter(entries: seq<TempEditEntry>, keep: TempEditEntry -> bool)
    ensures |Filter(entries, keep)| <= |entries|
    decreases |entries|
  {
    if |entries| > 0 {
      FilterShorter(entries[..|entries| - 1], keep);
    }
  }

  /** Removing a uuid from a list made of two parts removes it from each
      part, so the remaining entries keep their order. */
  lemma RemoveKeepsOrder(a: seq<TempEditEntry>, b: seq<TempEditEntry>, uuid: string)
    ensures RemoveTempEditEntry(Some(a + b), uuid) == RemoveTempEditEntry(Some(a), uuid) + RemoveTempEditEntry(Some(b), uuid)
  {
    FilterKeepsOrder(a, b, (e: TempEditEntry) => e.uuid != uuid);
  }

  /** An entry just added is removed again by its uuid, and the other
      surviving entries are left as they were. */
  lemma AddThenRemove(stored: Option<seq<TempEditEntry>>, entry: TempEditEntry, timeOf: string -> Option<int>, nowMs: int)
    requires forall e :: e in ReadEntries(stored) ==> e.uuid != entry.uuid
    ensures var added := AddTempEditEntry(stored, entry, timeOf, nowMs);
            RemoveTempEditEntry(Some(added), entry.uuid) == added[..|added| - 1]
  {
    var added := AddTempEditEntry(stored, entry, timeOf, nowMs);
    var init := added[..|added| - 1];
    assert added == init + [entry];
    FilterKeepsOrder(init, [entry], (e: TempEditEntry) => e.uuid != entry.uuid);
    assert Filter([entry], (e: TempEditEntry) => e.uuid != entry.uuid) == [] by {
      assert [entry][..0] == [];
    }
    FilterAllKept(init, (e: TempEditEntry) => e.uuid != entry.uuid);
  }

  /** A filter that keeps every entry changes nothing. */
  lemma {:induction false} FilterAllKept(entries: seq<TempEditEntry>, keep: TempEditEntry -> bool)
    requires forall e :: e in entries ==> keep(e)
    ensures Filter(entries, keep) == entries
    decreases |entries|
  {
    if |entries| > 0 {
      FilterAllKept(entries[..|entries| - 1], keep);
    }
  }

  /** `writeTempEditMeta`: the serialized list written to the meta file. */
  function WriteTempEditMeta(files: seq<FileRef>, entries: seq<TempEditEntry>, stringify: seq<TempEditEntry> -> string): (r: FolderWrite)
    ensures r.content == stringify(entries)
    ensures r.CreateFile? <==> forall i :: 0 <= i < |files| ==> files[i].name != TempEditMetaName
  {
    WriteNamed(files, TempEditMetaName, stringify(entries))
  }

  /** The meta file is internal: it never appears in the listing. */
  lemma MetaFileNotListed(f: FileRef, load: string -> Option<Payload>)
    requires f.name == TempEditMetaName
    ensures InfoFor(f, load).None?
  {
    assert StartsWith(f.name, "_");
  }
}
