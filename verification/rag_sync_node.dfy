/** The `rag-sync` workflow node: finding a Drive file by name and
    uploading it to a named RAG store. The store lookup, the upload and
    `JSON.stringify` of the result record are functions supplied by the
    caller; a failure of the first two is the message they throw. */
module RagSyncNode {
  import opened Wrappers
  import opened Text
  import opened NodeCommon

  /** The record saved to `saveTo`; `mode` is always `upload`. */
  datatype SyncRecord = SyncRecord(path: string, ragSetting: string, fileId: string, mode: string, syncedAt: string)

  datatype SyncOutcome = SyncOutcome(uploaded: FileRef, storeName: string, record: SyncRecord, vars: Vars)

  const MissingRagPath := "rag-sync node missing 'path' property"
  const MissingRagSetting := "rag-sync node missing 'ragSetting' property"

  /** `handleRagSyncNode`. `apiKey` is the configured key (`""` when there
      is none); `storeFor` is `getOrCreateStore` and `upload` is
      `uploadDriveFile`, whose answer is the document id, possibly `""`. */
  function HandleRagSync(props: Props, vars: Vars, subst: string -> string, apiKey: string,
                         search: string -> seq<FileRef>, exact: string -> Option<FileRef>,
                         storeFor: string -> Result<string>, upload: (FileRef, string) -> Result<string>,
                         stringify: SyncRecord -> string, nowIso: string): (r: Result<SyncOutcome>)
    // the checks come in this order, each before any Drive access
    ensures subst(PropOr(props, "path")) == "" ==> r == Err(MissingRagPath)
    ensures subst(PropOr(props, "path")) != "" && subst(PropOr(props, "ragSetting")) == "" ==> r == Err(MissingRagSetting)
    ensures subst(PropOr(props, "path")) != "" && subst(PropOr(props, "ragSetting")) != "" && apiKey == "" ==> r == Err(NoApiKey)
    ensures subst(PropOr(props, "path")) != "" && subst(PropOr(props, "ragSetting")) != "" && apiKey != "" ==>
              (LookupByName(subst(PropOr(props, "path")), search, exact).None? ==> r == Err(NotFound(subst(PropOr(props, "path")))))
    // the uploaded file is the one the name lookup found, into the named store
    ensures r.Ok? ==>
              var path := subst(PropOr(props, "path"));
              var setting := subst(PropOr(props, "ragSetting"));
              && LookupByName(path, search, exact) == Some(r.value.uploaded)
              && storeFor(setting) == Ok(r.value.storeName)
              && upload(r.value.uploaded, r.value.storeName).Ok?
              && r.value.record.path == path && r.value.record.ragSetting == setting
              && r.value.record.mode == "upload" && r.value.record.syncedAt == nowIso
    // the recorded id is the uploaded document's, falling back to the Drive file's
    ensures r.Ok? ==>
              var doc := upload(r.value.uploaded, r.value.storeName).value;
              r.value.record.fileId == (if doc != "" then doc else r.value.uploaded.id)
    ensures r.Ok? ==>
              r.value.vars == (if HasProp(props, "saveTo") then vars[props["saveTo"] := Str(stringify(r.value.record))] else vars)
  {
    var path := subst(PropOr(props, "path"));
    var setting := subst(PropOr(props, "ragSetting"));
    if path == "" then Err(MissingRagPath)
    else if setting == "" then Err(MissingRagSetting)
    else if apiKey == "" then Err(NoApiKey)
    else
      match LookupByName(path, search, exact)
      case None => Err(NotFound(path))
      case Some(file) =>
        match storeFor(setting)
        case Err(e) => Err(e)
        case Ok(storeName) =>
          match upload(file, storeName)
          case Err(e) => Err(e)
          case Ok(doc) =>
            var record := SyncRecord(path, setting, if doc != "" then doc else file.id, "upload", nowIso);
            var vars' := if HasProp(props, "saveTo") then vars[props["saveTo"] := Str(stringify(record))] else vars;
            Ok(SyncOutcome(file, storeName, record, vars'))
  }

  /** A node whose path already ends in `.md` never falls back to a second
      exact lookup: a miss of both the search and the exact name is final. */
  lemma MdPathNotFound(props: Props, vars: Vars, subst: string -> string, apiKey: string,
                       search: string -> seq<FileRef>, exact: string -> Option<FileRef>,
                       storeFor: string -> Result<string>, upload: (FileRef, string) -> Result<string>,
                       stringify: SyncRecord -> string, nowIso: string)
    requires var path := subst(PropOr(props, "path"));
             && EndsWith(path, ".md") && subst(PropOr(props, "ragSetting")) != "" && apiKey != ""
             && (forall i :: 0 <= i < |search(path)| ==> search(path)[i].name !in {path, path + ".md"})
             && exact(path).None?
    ensures HandleRagSync(props, vars, subst, apiKey, search, exact, storeFor, upload, stringify, nowIso)
            == Err(NotFound(subst(PropOr(props, "path"))))
  {
    var path := subst(PropOr(props, "path"));
    MdPathSingleExactLookup(path, search, exact);
  }
}
