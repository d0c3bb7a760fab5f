/** The `drive-save` workflow node: writing a file held in a variable (as
    `FileExplorerData` JSON) to Drive, recording it in the remote sync
    snapshot and telling the client through a `drive-file-updated` or
    `drive-file-created` event. JSON parsing and the Drive writes are
    functions supplied by the caller. */
module DriveSaveNode {
  import opened Wrappers
  import opened NodeCommon
  import SM = SyncMeta
  import UseSync
  import Sse = DriveFileSse

  /** `FileExplorerData` as far as the node uses it; `extension` is `""`
      when the field is missing. */
  datatype FileData = FileData(extension: string, data: string, binary: bool, mimeType: string)

  /** The write sent to Drive: an update of `existingId`, or a creation
      under `name` when there is none. */
  datatype SaveWrite = SaveWrite(existingId: Option<string>, name: string, content: string, binary: bool, mimeType: string)

  /** The event the client is sent. */
  datatype Notice = NotifyUpdated(updated: Sse.Updated) | NotifyCreated(created: Sse.Created)

  datatype SaveOutcome = SaveOutcome(write: SaveWrite, remoteMeta: SM.Meta, notice: Notice, vars: Vars)

  const MissingSource := "drive-save node missing 'source' property"
  const MissingSavePath := "drive-save node missing 'path' property"

  function InvalidData(sourceRaw: string): string {
    "Variable '" + sourceRaw + "' does not contain valid FileExplorerData JSON"
  }

  /** The saved name: the data's extension is added only when the path has
      no `.` anywhere. */
  function SavedName(path: string, extension: string): string {
    if '.' !in path && extension != "" then path + "." + extension else path
  }

  /** Naming is idempotent, and a saved name with a non-empty extension
      always holds a `.`. */
  lemma SavedNameIdempotent(path: string, extension: string)
    ensures SavedName(SavedName(path, extension), extension) == SavedName(path, extension)
    ensures extension != "" ==> '.' in SavedName(path, extension)
    ensures '.' in path ==> SavedName(path, extension) == path
  {
    if '.' !in path && extension != "" {
      assert (path + "." + extension)[|path|] == '.';
    }
  }

  /** The value parsed as the file: the variable named by the resolved
      source, or the resolved text itself when no such variable exists. */
  function SourceValue(vars: Vars, resolved: string): (r: Value)
    ensures resolved in vars ==> r == vars[resolved]
    ensures resolved !in vars ==> r == Str(resolved)
  {
    if resolved in vars then vars[resolved] else Str(resolved)
  }

  /** The event for a stored file: an update when the file was found by
      name, a creation (with checksum and time, `""` when Drive gave none)
      otherwise; binary content is sent as `""`. */
  function NoticeFor(existed: bool, file: SM.DriveFile, fd: FileData): (r: Notice)
    ensures r.NotifyUpdated? <==> existed
    ensures r.NotifyUpdated? ==> r.updated.fileId == file.id && r.updated.fileName == file.name
    ensures r.NotifyCreated? ==>
              && r.created.fileId == file.id && r.created.fileName == file.name
              && r.created.md5Checksum == file.md5Checksum.GetOr("")
              && r.created.modifiedTime == file.modifiedTime.GetOr("")
  {
    var shown := if fd.binary then "" else fd.data;
    if existed then NotifyUpdated(Sse.Updated(file.id, file.name, shown))
    else NotifyCreated(Sse.Created(file.id, file.name, shown, file.md5Checksum.GetOr(""), file.modifiedTime.GetOr("")))
  }

  /** `handleDriveSaveNode`. `parse` is `JSON.parse(String(value))`
      narrowed to the fields used (`None` when it throws); `store` performs
      the write and returns the file Drive reports; `remote` is the remote
      snapshot before the upsert. */
  function HandleDriveSave(props: Props, vars: Vars, subst: string -> string, parse: Value -> Option<FileData>,
                           search: string -> seq<FileRef>, store: SaveWrite -> SM.DriveFile,
                           remote: Option<SM.Meta>, nowIso: string): (r: Result<SaveOutcome>)
    ensures PropOr(props, "source") == "" ==> r == Err(MissingSource)
    ensures PropOr(props, "source") != "" && subst(PropOr(props, "path")) == "" ==> r == Err(MissingSavePath)
    ensures PropOr(props, "source") != "" && subst(PropOr(props, "path")) != "" ==>
              (r == Err(InvalidData(PropOr(props, "source"))) <==> parse(SourceValue(vars, subst(PropOr(props, "source")))).None?)
    ensures r.Ok? ==>
              var fd := parse(SourceValue(vars, subst(PropOr(props, "source")))).value;
              var name := SavedName(subst(PropOr(props, "path")), fd.extension);
              var existing := FindNamed(search(name), {name});
              var file := store(r.value.write);
              && r.value.write.name == name && r.value.write.content == fd.data
              && r.value.write.binary == fd.binary && r.value.write.mimeType == fd.mimeType
              && (r.value.write.existingId.Some? <==> existing.Some?)
              && (existing.Some? ==> r.value.write.existingId.value == existing.value.id)
              && r.value.remoteMeta == SM.Upsert(remote, file, nowIso)
              && r.value.notice == NoticeFor(existing.Some?, file, fd)
              && r.value.vars == (if HasProp(props, "savePathTo") then vars[props["savePathTo"] := Str(file.name)] else vars)
  {
    var sourceRaw := PropOr(props, "source");
    var path := subst(PropOr(props, "path"));
    if sourceRaw == "" then Err(MissingSource)
    else if path == "" then Err(MissingSavePath)
    else
      match parse(SourceValue(vars, subst(sourceRaw)))
      case None => Err(InvalidData(sourceRaw))
      case Some(fd) =>
        var name := SavedName(path, fd.extension);
        var existing := FindNamed(search(name), {name});
        var write := SaveWrite(if existing.Some? then Some(existing.value.id) else None, name, fd.data, fd.binary, fd.mimeType);
        var file := store(write);
        var vars' := if HasProp(props, "savePathTo") then vars[props["savePathTo"] := Str(file.name)] else vars;
        Ok(SaveOutcome(write, SM.Upsert(remote, file, nowIso), NoticeFor(existing.Some?, file, fd), vars'))
  }

  /** After a successful save the remote snapshot lists the stored file
      with Drive's checksum, and every other entry is untouched. */
  lemma SaveRecordedInSnapshot(props: Props, vars: Vars, subst: string -> string, parse: Value -> Option<FileData>,
                               search: string -> seq<FileRef>, store: SaveWrite -> SM.DriveFile,
                               remote: Option<SM.Meta>, nowIso: string, k: string)
    requires HandleDriveSave(props, vars, subst, parse, search, store, remote, nowIso).Ok?
    ensures var o := HandleDriveSave(props, vars, subst, parse, search, store, remote, nowIso).value;
            var file := store(o.write);
            file.id in o.remoteMeta.files
            && o.remoteMeta.files[file.id].md5Checksum == file.md5Checksum.GetOr("")
            && o.remoteMeta.lastUpdatedAt == nowIso
            && (k != file.id ==> (k in o.remoteMeta.files <==> k in SM.FilesOf(remote)))
  {
  }

  /** The save and the client's handling of its event agree: once a
      client has handled a creation event, its cache holds the saved text
      (for text files) under the new id, with Drive's checksum. */
  lemma CreatedEventCachesSavedText(props: Props, vars: Vars, subst: string -> string, parse: Value -> Option<FileData>,
                                    search: string -> seq<FileRef>, store: SaveWrite -> SM.DriveFile,
                                    remote: Option<SM.Meta>, nowIso: string, s: UseSync.Stores, completed: nat)
    requires HandleDriveSave(props, vars, subst, parse, search, store, remote, nowIso).Ok?
    requires HandleDriveSave(props, vars, subst, parse, search, store, remote, nowIso).value.notice.NotifyCreated?
    requires !HandleDriveSave(props, vars, subst, parse, search, store, remote, nowIso).value.write.binary
    requires completed >= 3
    ensures var o := HandleDriveSave(props, vars, subst, parse, search, store, remote, nowIso).value;
            var file := store(o.write);
            var after := Sse.OnCreated(s, o.notice.created, nowIso, completed).stores;
            file.id in after.cache
            && after.cache[file.id].content == o.write.content
            && after.cache[file.id].md5Checksum == file.md5Checksum.GetOr("")
            && o.write.existingId.None?
  {
    var o := HandleDriveSave(props, vars, subst, parse, search, store, remote, nowIso).value;
    Sse.CreatedRecordsFile(s, o.notice.created, nowIso, completed);
  }

  /** Likewise for an update event: the cached text becomes the saved text
      and the cached checksum is kept until the next sync. */
  lemma UpdatedEventCachesSavedText(props: Props, vars: Vars, subst: string -> string, parse: Value -> Option<FileData>,
                                    search: string -> seq<FileRef>, store: SaveWrite -> SM.DriveFile,
                                    remote: Option<SM.Meta>, nowIso: string, s: UseSync.Stores, completed: nat)
    requires HandleDriveSave(props, vars, subst, parse, search, store, remote, nowIso).Ok?
    requires HandleDriveSave(props, vars, subst, parse, search, store, remote, nowIso).value.notice.NotifyUpdated?
    requires !HandleDriveSave(props, vars, subst, parse, search, store, remote, nowIso).value.write.binary
    requires completed >= 4
    ensures var o := HandleDriveSave(props, vars, subst, parse, search, store, remote, nowIso).value;
            var file := store(o.write);
            var after := Sse.OnUpdated(s, o.notice.updated, completed).stores;
            file.id in after.cache
            && after.cache[file.id].content == o.write.content
            && o.write.existingId.Some?
  {
    var o := HandleDriveSave(props, vars, subst, parse, search, store, remote, nowIso).value;
    Sse.UpdatedKeepsChecksum(s, o.notice.updated, completed);
  }
}
