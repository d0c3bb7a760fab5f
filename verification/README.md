# gemihub sync and workflow core in Dafny

This project models the parts of gemihub whose behaviour can be stated without a browser, Google Drive or Gemini:

- **Offline sync layer.**
  - The three-way diff between the client's sync snapshot, the server's snapshot (`_sync-meta.json`) and the current Drive listing.
  - Snapshot bookkeeping and conflict-backup naming.
  - The client's push, pull, conflict resolution, full pull and full push.
  - The sync exclusion and MIME filters.
- **Edit history.** Reconstruction of an older file version from a newest-first chain of local and remote diffs.
- **Markdown blank lines.** The encoding and decoding the WYSIWYG editor uses to keep blank lines.
- **RAG tracking.**
  - Per-file RAG tracking on the server: register, save, delete and retry.
  - The client's registration sequence.
- **Workflow nodes and execution status.**
  - The decision logic of the `drive-file`, `drive-read`, `drive-save`, `rag-sync`, `command` and `mcp` workflow nodes.
  - The execution store's stop and prompt behaviour.
  - The client's execution status machine.
- **Small validators and encoders.**
  - The MCP server URL check.
  - Shortcut validation and display.
  - HTML escaping for PDF export.
  - The search endpoint.
  - The AI workflow dialog's stream framing and YAML extraction.
  - Diff-line classification.
  - Temp-file operations.
  - MCP server id normalisation.

Each source file becomes one module in a file of the same name. `Wrappers` (`Option`, `Result`) and `Text` (JavaScript string built-ins) are shared helpers.

The model is functional. Entities are immutable datatypes over maps, sequences and strings. Every operation is a pure function or a state transition. Drive, Gemini, MCP, `fetch`, IndexedDB, `JSON.parse`/`JSON.stringify`, regular-expression exclude patterns and the clock are parameters (oracles) of the operations that use them. A call that throws is `Err(message)`.

Where the code and the design description disagree, the model follows the code:

- **`computeSyncDiff`.** The design prose speaks of a set of locally modified files. The code instead derives "locally changed" by comparing the client snapshot with the server snapshot, and "remotely changed" by comparing the server snapshot with the current Drive listing. `SyncMeta.ComputeSyncDiff` models that comparison.
- **Transport errors in `useWorkflowExecution`.** The `onerror` handler moves the status to `error` only from `running`. For a connection failure, though, the `error` listener registered before it runs first and sets `error` whatever the status, so the running-only guard never decides anything. `WorkflowExecution.TransportErrorAlwaysFails` states the behaviour as written.
- **Edit history, the `settings.mcp` normalisation and the execution store.** The implementations of `reverseApplyDiff`/`reconstructContent`, of `normalizeSelectedMcpServerIds` and of `execution-store.server.ts` are not part of this model. Their behaviour is modelled from their test files. Where a test fixes nothing, the model's choice is a reconstruction, and each one is listed under "Left out".

## Model

| member | source | states |
|---|---|---|
| SyncClientUtils.StripLeadingSlashes | app/services/sync-client-utils.ts:11 | exactly the run of leading slashes is removed; the rest of the path is kept |
| SyncClientUtils.LeadingSlashIrrelevant | app/services/sync-client-utils.ts:10-14 | a leading slash never changes whether a path is excluded |
| SyncClientUtils.ExcludedIff | app/services/sync-client-utils.ts:1-14 | a path is excluded iff, without its leading slashes, it is one of the two system files or starts with one of the five folders |
| SyncClientUtils.RootedFolderExcluded | app/services/sync-client-utils.ts:11-13 | any path under `//history/` is excluded: the slashes are stripped before the folder test |
| SyncClientUtils.NestedFolderSynced | app/services/sync-client-utils.ts:13 | `notes/history/a.md` is not excluded |
| SyncClientUtils.BinaryIsMediaOrApplication | app/services/sync-client-utils.ts:35-45 | every binary type is a media or font type or an `application/` type |
| SyncClientUtils.MissingMimeNotBinary | app/services/sync-client-utils.ts:36 | absent and empty MIME types are not binary |
| SyncClientUtils.TextNotBinary | app/services/sync-client-utils.ts:35-45 | no `text/` type is binary |
| SyncClientUtils.BinaryExamples | app/services/sync-client-utils.ts:16-44 | `image/png` and `application/vnd.ms-excel` are binary; `application/json` is not |
| SyncClientUtils.NatToString | app/services/sync-client-utils.ts:56 | a count renders as decimal digits without a leading zero |
| SyncClientUtils.NatToStringRoundTrip | app/services/sync-client-utils.ts:56 | reading the rendered count back gives the count |
| SyncClientUtils.SyncCompletionStatus | app/services/sync-client-utils.ts:49-60 | a warning iff files were skipped, and then the message names the label and the count; otherwise idle with no error |
| TempFile.InfoFor | app/services/temp-file.server.ts:51-65 | a folder entry is listed iff its name does not start with `_` and its payload can be read and parsed |
| TempFile.ListTempFiles | app/services/temp-file.server.ts:43-68 | no listed file is internal, and each is displayed under its own name |
| TempFile.ListedComeFromFolder | app/services/temp-file.server.ts:51-62 | every listed file is built from a folder entry and its parsed payload |
| TempFile.FolderEntriesListed | app/services/temp-file.server.ts:51-62 | every readable, non-internal folder entry is listed |
| TempFile.ListingKeepsOrder | app/services/temp-file.server.ts:51-67 | the listing keeps folder order |
| TempFile.FindTempFile | app/services/temp-file.server.ts:70-92 | the first entry of that name is read; none, or an unreadable one, gives null |
| TempFile.WriteNamed | app/services/temp-file.server.ts:104-111 | the first file of that name is updated; a file is created iff none has that name |
| TempFile.SaveTempFile | app/services/temp-file.server.ts:94-112 | the serialized payload is written, creating a file iff none has that name |
| TempFile.SecondSaveUpdates | app/services/temp-file.server.ts:104-111 | saving again under a name already present updates that file, so there is one temp file per name |
| TempFile.Recover | app/services/temp-file.server.ts:176-187 | a 404 deletes the temp file and gives null; any other error is raised |
| TempFile.ApplyTempFile | app/services/temp-file.server.ts:122-188 | the content is written to the target first; on success the temp file is deleted and the result carries the checksum and time, defaulting to `""`; a failure of the edit history never stops the apply |
| TempFile.Outcomes | app/services/temp-file.server.ts:198-208 | the outcomes of applying the files in order, up to the first error |
| TempFile.ApplyAll | app/services/temp-file.server.ts:190-211 | succeeds iff every apply does, and then gives the non-null results in listing order; otherwise the error of the first failing apply, every earlier one having applied |
| TempFile.ReadEntries | app/services/temp-file.server.ts:243-257 | a missing or unparsable list reads as empty |
| TempFile.FilterMembers | app/services/temp-file.server.ts:283-296 | a filter keeps exactly the entries that satisfy the predicate |
| TempFile.FilterKeepsOrder | app/services/temp-file.server.ts:283-296 | filtering keeps the relative order of entries |
| TempFile.AddTempEditEntry | app/services/temp-file.server.ts:275-288 | entries not newer than a day ago are dropped, and the new entry is appended last |
| TempFile.RemoveTempEditEntry | app/services/temp-file.server.ts:290-298 | exactly the entries with that uuid are removed |
| TempFile.RemoveKeepsOrder | app/services/temp-file.server.ts:296 | the remaining entries keep their order |
| TempFile.AddThenRemove | app/services/temp-file.server.ts:275-298 | removing a just-added entry by its uuid leaves the pruned list, minus that uuid |
| TempFile.WriteTempEditMeta | app/services/temp-file.server.ts:259-273 | the serialized list is written, creating the meta file iff it does not exist |
| TempFile.MetaFileNotListed | app/services/temp-file.server.ts:52-53 | the meta file never appears in the listing |
| NodeCommon.PropOr | app/engine/handlers/ragSync.ts:12-13 | a property reads as empty iff it is unset or empty |
| NodeCommon.StringVar | app/engine/handlers/drive.ts:48-49 | a variable counts iff it holds a non-empty string, and then gives that string |
| NodeCommon.WordRun | app/engine/handlers/drive.ts:46 | measures exactly the leading run of word characters |
| NodeCommon.TemplateVar | app/engine/handlers/drive.ts:46 | a match gives a non-empty word that the text starts with inside `{{` `}}`; anchored, the text is exactly that reference |
| NodeCommon.TemplateVarOf | app/engine/handlers/drive.ts:135 | a reference followed by anything gives its name; anchored, only when nothing follows |
| NodeCommon.FindNamed | app/engine/handlers/ragSync.ts:27 | the result is the first file whose name is one of the names; there is none iff no file has such a name |
| NodeCommon.LookupByName | app/engine/handlers/ragSync.ts:26-33 | a search hit named `path` or `path.md` first, then an exact match for `path`, then one for `path.md` only when `path` does not end in `.md` |
| NodeCommon.MdPathSingleExactLookup | app/engine/handlers/ragSync.ts:30 | a path already ending in `.md` is found only by the search or its own exact name |
| Shortcuts.HasDuplicate | app/components/settings/ShortcutsTab.tsx:43-53 | a duplicate is found iff some other keyed binding has the same key ignoring case and the same three modifier flags |
| Shortcuts.BindingErrorOf | app/components/settings/ShortcutsTab.tsx:35-55 | no key gives no error; then a missing modifier, then a built-in conflict, then a duplicate, in that order of precedence |
| Shortcuts.NoSelfDuplicate | app/components/settings/ShortcutsTab.tsx:44 | a binding never conflicts with itself |
| Shortcuts.DuplicateBothWays | app/components/settings/ShortcutsTab.tsx:43-53 | two bindings taking the same combination are each reported as a duplicate |
| Shortcuts.KeyLabel | app/components/settings/ShortcutsTab.tsx:29 | a one-character key is shown upper-cased; longer key names as they are |
| Shortcuts.DisplayParts | app/components/settings/ShortcutsTab.tsx:25-29 | one part per set modifier and per key, in the order Ctrl/Cmd, Shift, Alt, key, each at its position |
| Shortcuts.JoinWith | app/components/settings/ShortcutsTab.tsx:30 | no parts give the empty text and one part gives itself; the joined text starts with the first part and ends with the last, with room for the separator between them |
| Shortcuts.JoinWithLength | app/components/settings/ShortcutsTab.tsx:30 | the joined text is as long as the parts plus one separator between each two of them |
| Shortcuts.JoinWithAppend | app/components/settings/ShortcutsTab.tsx:30 | joining two non-empty runs of parts is joining each with the separator between them, which with the one-part case fixes the join of any list |
| Shortcuts.FormatShortcut | app/components/settings/ShortcutsTab.tsx:24-31 | there is nothing to show iff no modifier and no key is set, and then `—` is shown; otherwise the display parts joined by ` + `, starting with Ctrl/Cmd when set and ending with the key label |
| Shortcuts.CtrlThenShift | app/components/settings/ShortcutsTab.tsx:25-30 | with Ctrl/Cmd and Shift set the text begins `Ctrl/Cmd + Shift` |
| Shortcuts.PlaceholderMeansEmpty | app/components/settings/ShortcutsTab.tsx:30 | `—` is shown exactly when no modifier is set and the key is empty or is that character itself |
| Shortcuts.Saved | app/components/settings/ShortcutsTab.tsx:80 | exactly the bindings with a key are saved |
| Shortcuts.SavedKeepsOrder | app/components/settings/ShortcutsTab.tsx:80 | saving keeps the order of the kept bindings |
| Shortcuts.FindBinding | app/components/settings/ShortcutsTab.tsx:183 | the first binding with the id, and none iff no binding has it |
| Shortcuts.SaveBinding | app/components/settings/ShortcutsTab.tsx:181-188 | something is sent iff the binding exists and has no error, and then it is every keyed binding |
| Shortcuts.CaptureKey | app/components/settings/ShortcutsTab.tsx:103-126 | a lone modifier is ignored; Escape stops listening and changes no binding; any other key sets the listening binding's combination and stops listening |
| Shortcuts.AddBinding | app/components/settings/ShortcutsTab.tsx:147-161 | a keyless workflow binding is appended and listened to; what is saved does not change |
| Shortcuts.NewBindingValid | app/components/settings/ShortcutsTab.tsx:39 | a freshly added binding has no error |
| Shortcuts.RemoveBinding | app/components/settings/ShortcutsTab.tsx:163-170 | exactly the bindings with the id go, the rest stay in their order (`Without`) and are saved, and listening stops if it was that binding |
| Shortcuts.Without | app/components/settings/ShortcutsTab.tsx:165 | the bindings whose id differs; one binding is kept iff its id differs |
| Shortcuts.WithoutKeepsOrder | app/components/settings/ShortcutsTab.tsx:165 | the filter distributes over concatenation, so the kept bindings keep their relative order |
| ManageFiles.FirstStamp | app/components/settings/ManageFilesDialog.tsx:31 | finds the first position holding `_DDDDDDDD_DDDDDD` followed by a dot, or reports none |
| ManageFiles.StripTimestamp | app/components/settings/ManageFilesDialog.tsx:29-32 | the first stamp followed by a dot is cut out; without one the name is unchanged |
| ManageFiles.StripUndoesBackup | app/components/settings/ManageFilesDialog.tsx:29-32 | stripping a conflict backup's name gives back the safe name, when that name has an extension after index 0 and no stamp of its own |
| ManageFiles.ExtensionlessBackupKeepsStamp | app/components/settings/ManageFilesDialog.tsx:31 | the backup of a name without an extension keeps its stamp |
| ManageFiles.ToggleOne | app/components/settings/ManageFilesDialog.tsx:81-88 | the id flips in or out of the selection; every other id stays |
| ManageFiles.ToggleOneTwice | app/components/settings/ManageFilesDialog.tsx:98-105 | toggling an id twice restores the selection |
| ManageFiles.ToggleAll | app/components/settings/ManageFilesDialog.tsx:73-79 | a selection as large as the list is cleared; any other becomes every listed id |
| ManageFiles.IdsCount | app/components/settings/ManageFilesDialog.tsx:77 | distinct ids give as many ids as files |
| ManageFiles.ToggleAllAlternates | app/components/settings/ManageFilesDialog.tsx:90-96 | with distinct ids, select-all clears a full selection and fills an empty one |
| ManageFiles.DefaultRenames | app/components/settings/ManageFilesDialog.tsx:59-62 | every listed id gets a default name, and no other id does |
| ManageFiles.DefaultRenameOf | app/components/settings/ManageFilesDialog.tsx:60-62 | a listed file's default is its name without the stamp |
| ManageFiles.PrefillRenames | app/components/settings/ManageFilesDialog.tsx:59-63 | names the user already set take precedence over the defaults |
| ManageFiles.DeleteSelected | app/components/settings/ManageFilesDialog.tsx:107-127 | nothing without a selection or without confirmation; otherwise the selected ids are sent for deletion, and the selection is cleared unless the request threw |
| ManageFiles.RestoreTrashSelected | app/components/settings/ManageFilesDialog.tsx:129-148 | nothing without a selection; otherwise the selected ids are sent for restoring, and the selection is cleared unless the request threw |
| ManageFiles.SelectedRenames | app/components/settings/ManageFilesDialog.tsx:177-180 | exactly the selected ids with a non-empty rename are sent, with that rename |
| ManageFiles.RestoreConflictSelected | app/components/settings/ManageFilesDialog.tsx:172-190 | nothing without a selection; otherwise the selected ids are restored under their non-empty renames, and the selection is cleared unless the request threw |
| ManageFiles.RestoreUsesStrippedName | app/components/settings/ManageFilesDialog.tsx:59-63 | a backup the user never renamed is restored under its name without the stamp |
| ManageFiles.RetryAfterThrow | app/components/settings/ManageFilesDialog.tsx:107-190 | after a bulk action whose request threw, the kept selection sends the same request again |
| SyncRag.DefaultSetting | app/services/sync-rag.server.ts:98-102 | with no stored default store, registration starts from an empty setting with no store name |
| SyncRag.ToPending | app/services/sync-rag.server.ts:53-63 | a pending entry keeps the old checksum, takes the current time and pins the given document id |
| SyncRag.UploadPayload | app/services/sync-rag.server.ts:121-138 | Drive bytes when a file id is given and the read works; otherwise the supplied content; a failed read with no content is an error (500) and no source at all is a 400 |
| SyncRag.RagRegister | app/services/sync-rag.server.ts:74-167 | a missing name is a 400 and an ineligible one is skipped; no key or registration switched off saves nothing; a registration records the returned document under the name |
| SyncRag.RegisterSkipsKnownContent | app/services/sync-rag.server.ts:107-145 | excluded names and content whose checksum is already tracked are never uploaded |
| SyncRag.MergeOne | app/services/sync-rag.server.ts:201-233 | one update changes only its own name: an untracked name is dropped or kept pending with its document id; a tracked one takes the update unless it is a placeholder over an entry with a document |
| SyncRag.MergeFrame | app/services/sync-rag.server.ts:201-233 | entries that no update names are left as they were |
| SyncRag.MergeUntrackedPending | app/services/sync-rag.server.ts:204-222 | every untracked name an update mentions is gone, or pending with the document id still to delete |
| SyncRag.PlaceholdersKeepDocument | app/services/sync-rag.server.ts:223-231 | a tracked entry with a document id survives any number of placeholder updates unchanged |
| SyncRag.PendingCountBounded | app/services/sync-rag.server.ts:236 | the pending count never exceeds the number of entries |
| SyncRag.RagSave | app/services/sync-rag.server.ts:169-238 | skipped iff registration is off; otherwise RAG is switched on only when some update is registered, and the reply counts the pending entries after the merge |
| SyncRag.RegisterThenSaveIsStable | app/services/sync-rag.server.ts:74-238 | a registered and saved file is tracked as registered with its document, and registering the same content again uploads nothing |
| SyncRag.RagDeleteDoc | app/services/sync-rag.server.ts:240-251 | a missing document id is a 400, no key skips, otherwise the reply is the deletion's outcome |
| SyncRag.PendingEntries | app/services/sync-rag.server.ts:271-275 | the retry visits exactly the untracked entries and the pending ones |
| SyncRag.LastNamed | app/services/sync-rag.server.ts:283-285 | finds the last listed file with a name, or reports none |
| SyncRag.NameIndexLastWins | app/services/sync-rag.server.ts:282-285 | each name maps to the id of its last listed file |
| SyncRag.FateOf | app/services/sync-rag.server.ts:290-333 | an untracked entry is dropped or kept pending with its document id, never re-registered; a tracked name missing from Drive is dropped |
| SyncRag.ApplyFate | app/services/sync-rag.server.ts:296-328 | a fate changes only its own name's entry |
| SyncRag.RetryLoopPerName | app/services/sync-rag.server.ts:290-334 | each visited name ends as its own fate says; unvisited names are untouched |
| SyncRag.RetryLoopCounts | app/services/sync-rag.server.ts:287-333 | `retried` counts re-registered names and `stillPending` counts kept and failed ones |
| SyncRag.RagRetryPending | app/services/sync-rag.server.ts:253-345 | no key skips; registration off, no store or nothing pending changes nothing and counts zero |
| SyncRag.RetryOutcomePerName | app/services/sync-rag.server.ts:290-341 | after a retry untracked names are gone or pending, tracked names missing from Drive are gone, and a success is recorded as registered |
| RagSyncClient.Eligible | app/services/rag-sync.ts:55 | exactly the eligible files are processed |
| RagSyncClient.Placeholders | app/services/rag-sync.ts:58-61 | one pending placeholder per eligible file, with empty checksum and no document id |
| RagSyncClient.UpdateFor | app/services/rag-sync.ts:66-77 | a failure or a throw gives a pending placeholder; a registration gives a registered entry; a skip gives nothing |
| RagSyncClient.LastNamingStore | app/services/rag-sync.ts:73 | finds the last file whose answer names a store, or reports none |
| RagSyncClient.StoreNameIsLastReported | app/services/rag-sync.ts:65-73 | the store name sent is the last one reported, or `""` when none was |
| RagSyncClient.Trace | app/services/rag-sync.ts:58-83 | the first save; if it rejects, nothing more; else one registration per eligible file in order, the second save only when there are updates, and the retry iff that save was not sent or did not reject |
| RagSyncClient.RegisterInBackground | app/services/rag-sync.ts:51-84 | no request at all iff no file is eligible |
| RagSyncClient.RegistersExactlyEligible | app/services/rag-sync.ts:55-68 | no ineligible file is registered; a rejected first save registers none; otherwise every eligible file is registered, in order |
| RagSyncClient.SavesAroundRegistrations | app/services/rag-sync.ts:62-83 | the first save comes first; the retry is sent iff no save rejected; when none rejects the retry is last and the second save is sent iff some answer produced an update; a rejected second save ends the requests |
| RagSyncClient.RegisterNewFile | app/services/rag-sync.ts:46-49 | an ineligible name sends nothing; a rejected first save sends only that save; otherwise the one file is registered with its content defaulting to `""` |
| RagSyncClient.FirstSaveKeepsDocuments | app/services/rag-sync.ts:58-62 | the placeholder save never removes a tracked entry's document on the server |
| DriveFileSse.Perform | app/utils/drive-file-sse.ts:16-27 | each step writes only its own store |
| DriveFileSse.RunAllFrame | app/utils/drive-file-sse.ts:14-37 | a store that no step writes keeps its value |
| DriveFileSse.Run | app/utils/drive-file-sse.ts:34-36 | a throw after some steps keeps exactly the steps done before it |
| DriveFileSse.UpdatedSteps | app/utils/drive-file-sse.ts:16-27 | a boundary, the edit, the cache read and write, then a boundary |
| DriveFileSse.UpdatedKeepsChecksum | app/utils/drive-file-sse.ts:18-26 | the cache entry gets the new content and name with the cached checksum and time, or `""`; the snapshot is not touched |
| DriveFileSse.UpdatedFailureKeepsCache | app/utils/drive-file-sse.ts:34-36 | a throw before the cache write leaves the cache as it was |
| DriveFileSse.CreatedMeta | app/utils/drive-file-sse.ts:54-59 | an absent snapshot is created with the current time; only the created file's entry changes |
| DriveFileSse.CreatedSteps | app/utils/drive-file-sse.ts:46-61 | the cache write with the supplied checksum and time, then the snapshot write; no edit is recorded |
| DriveFileSse.CreatedRecordsFile | app/utils/drive-file-sse.ts:46-60 | the file is cached as sent and recorded in the snapshot; every other entry is left alone |
| DriveFileSse.CreatedFailureFrames | app/utils/drive-file-sse.ts:62-64 | a throw at the cache write changes nothing; one before the snapshot write leaves the snapshot alone |
| DriveNodes.BaseName | app/engine/handlers/drive.ts:37 | the part of the path after its last `/`, which holds no `/` |
| DriveNodes.BaseNameAppend | app/engine/handlers/drive.ts:37-39 | a suffix without `/` extends the base name |
| DriveNodes.FileNameHasExtension | app/engine/handlers/drive.ts:36-39 | every written name has a `.` in its base name |
| DriveNodes.FileNameForIdempotent | app/engine/handlers/drive.ts:36-39 | `.md` is appended iff the base name has no `.`, so naming twice is naming once |
| DriveNodes.ModeOf | app/engine/handlers/drive.ts:15 | `create` and `append` are recognised; anything else, or nothing, overwrites |
| DriveNodes.PickedFileId | app/engine/handlers/drive.ts:43-52 | a picked id exists only when the raw path starts with `{{name}}` and `name_fileId` holds a non-empty string, which is the id |
| DriveNodes.TargetFile | app/engine/handlers/drive.ts:43-68 | the picked file, else a search hit with exactly that name, else the exact-name lookup |
| DriveNodes.PickedFileSkipsSearch | app/engine/handlers/drive.ts:55-68 | a picked file is used whatever Drive's search would return |
| DriveNodes.HandleDriveFile | app/engine/handlers/drive.ts:7-110 | an empty path throws; with confirmation asked and a dialog present, a refusal writes nothing; `create` over an existing file writes nothing |
| DriveNodes.WriteFile | app/engine/handlers/drive.ts:78-97 | `create` skips an existing file; `append` updates it with the old text, a newline and the content; otherwise the file is updated or created with the content; only a failed append read throws |
| DriveNodes.AppendKeepsCurrent | app/engine/handlers/drive.ts:82-86 | appending keeps the current text and adds the content on a new line |
| DriveNodes.NoDialogNoCancel | app/engine/handlers/drive.ts:21-34 | without a confirmation flag, or without a dialog, the node never stops for the user |
| DriveNodes.ReadTarget | app/engine/handlers/drive.ts:127-158 | a Drive-id-shaped path is read directly; else the picked file when the raw path is exactly one reference; else the name lookup |
| DriveNodes.HandleDriveRead | app/engine/handlers/drive.ts:113-162 | a missing `saveTo` throws, then a blank path; a file found is read into `saveTo`; none found throws `File not found` |
| DriveNodes.ReadSetsOnlySaveTo | app/engine/handlers/drive.ts:160-161 | a successful read sets exactly the `saveTo` variable |
| DriveNodes.DriveIdReadDirectly | app/engine/handlers/drive.ts:127-132 | an id-shaped path is read whatever the search would return |
| DriveSaveNode.SavedNameIdempotent | app/engine/handlers/driveSave.ts:33-36 | the extension is appended only when the path has no `.`; naming twice is naming once |
| DriveSaveNode.SourceValue | app/engine/handlers/driveSave.ts:18-20 | the variable named by the resolved source, else the resolved text itself |
| DriveSaveNode.NoticeFor | app/engine/handlers/driveSave.ts:95-109 | an update event iff the file existed, else a creation event with checksum and time defaulting to `""`; binary content is sent as `""` |
| DriveSaveNode.HandleDriveSave | app/engine/handlers/driveSave.ts:6-114 | a missing source throws, then a missing path, then unparsable data; the existing same-name file is updated or a file is created; exactly one event fires and `savePathTo` gets Drive's name |
| DriveSaveNode.SaveRecordedInSnapshot | app/engine/handlers/driveSave.ts:92-93 | the remote snapshot records the stored file with Drive's checksum; other entries are untouched |
| DriveSaveNode.CreatedEventCachesSavedText | app/engine/handlers/driveSave.ts:101-108 | after the client handles the creation event, its cache holds the saved text under the new id with Drive's checksum |
| DriveSaveNode.UpdatedEventCachesSavedText | app/engine/handlers/driveSave.ts:95-100 | after the client handles the update event, its cache holds the saved text and keeps its checksum |
| RagSyncNode.HandleRagSync | app/engine/handlers/ragSync.ts:7-53 | a missing path throws, then a missing setting, then a missing key; an unresolved file throws `File not found`; `saveTo` gets a record whose document id is the uploaded one or else the Drive id |
| RagSyncNode.MdPathNotFound | app/engine/handlers/ragSync.ts:28-34 | a `.md` path missed by the search and the exact lookup is not found, with no second lookup |
| EditHistory.Apply | app/services/edit-history-local.test.ts:74-79 | a patch applies iff the lines match its old side exactly, and then yields its new side |
| EditHistory.InvertSwapsSides | app/services/edit-history-local.test.ts:38-72 | the inverted patch expects the new side and produces the old side; inverting twice gives the patch back |
| EditHistory.LinePatch | app/services/edit-history-local.test.ts:11-32 | the patch built between two line lists has the first as its old side and the second as its new side |
| EditHistory.SidesAppend | app/services/edit-history-local.test.ts:11-32 | the sides of concatenated patches are the concatenated sides |
| EditHistory.MakeDiff | app/services/edit-history-local.test.ts:11-32 | the stored diff of two versions expects the old version's lines and produces the new version's lines |
| EditHistory.ReverseApplyDiff | app/services/edit-history-local.test.ts:38-79 | undoing succeeds iff the content's lines are the diff's new side, and then gives the old side joined by newlines |
| EditHistory.ReverseApplyRoundTrip | app/services/edit-history-local.test.ts:38-72 | undoing the diff of two versions on the newer one gives exactly the older one |
| EditHistory.ReverseApplyMismatch | app/services/edit-history-local.test.ts:74-79 | undoing a diff on any content other than its newer version is null |
| EditHistory.ReconstructEmpty | app/services/edit-history-local.test.ts:378-381 | no diffs leave the content unchanged |
| EditHistory.ReconstructAppend | app/services/edit-history-local.test.ts:95-113 | folding a concatenated list folds the second part over the result of the first; a null is final |
| EditHistory.ReconstructFailsMidChain | app/services/edit-history-local.test.ts:383-400 | a diff that cannot be undone anywhere in the list makes the whole result null |
| EditHistory.Chain | app/services/edit-history-local.test.ts:183-215 | a history of n+1 versions has n diffs, newest first |
| EditHistory.StepBack | app/services/edit-history-local.test.ts:85-93 | undoing the newest edit, local or remote, steps back exactly one version |
| EditHistory.ChainRestoresFirst | app/services/edit-history-local.test.ts:183-215 | folding a whole history from its latest version gives its first version |
| EditHistory.ChainPrefix | app/services/edit-history-local.test.ts:115-129 | the k newest diffs of a history are the history of its last k+1 versions |
| EditHistory.ChainRestoresVersion | app/services/edit-history-local.test.ts:217-295 | folding the k newest diffs gives the version k edits before the latest |
| EditHistory.RemoteSkippedAtOldSide | app/services/edit-history-local.test.ts:135-146 | a remote diff whose old side is the content is skipped |
| EditHistory.RemoteUndoneAtNewSide | app/services/edit-history-local.test.ts:148-157 | a remote diff whose new side is the content is undone |
| EditHistory.UnpulledRemotePush | app/services/edit-history-local.test.ts:296-320 | a local edit over an unpulled push: undoing both gives back the version both started from |
| CommandNode.ModelFor | app/engine/handlers/command.ts:43-47 | the node's model property, else the settings' selected model, else the plan's default, the plan being `paid` when none is set |
| CommandNode.StoresFor | app/engine/handlers/command.ts:49-62 | no stores for `""`, `__none__`, `__websearch__` or an unknown setting; else the setting's store ids, or its single store id, or none |
| CommandNode.WebSearchExcludesStores | app/engine/handlers/command.ts:51-53 | web search and RAG stores never go together |
| CommandNode.WithoutSearch | app/engine/handlers/command.ts:71 | exactly the tools that are not search tools |
| CommandNode.DriveTools | app/engine/handlers/command.ts:67-75 | `none` (the default) gives no tools, `noSearch` all but the search tools, anything else all of them |
| CommandNode.CommaList | app/engine/handlers/command.ts:79-81 | every trimmed, non-empty comma-separated name, and no empty one |
| CommandNode.EnabledServers | app/engine/handlers/command.ts:82-84 | exactly the configured servers whose name the node lists |
| CommandNode.RouteFor | app/engine/handlers/command.ts:104-117 | Drive names go to Drive; listed MCP names go to MCP while a server is enabled; anything else is unknown |
| CommandNode.Dispatch | app/engine/handlers/command.ts:100-118 | Drive answers Drive names, MCP answers listed MCP names, and any other name gets `Unknown tool: ` and the name |
| CommandNode.CollectedApps | app/engine/handlers/command.ts:112-115 | every collected app comes from a call routed to MCP |
| CommandNode.KindOf | app/engine/handlers/command.ts:132-133 | `image` iff the type starts with `image/`, `pdf` iff it is `application/pdf`, else `text` |
| CommandNode.AttachmentOf | app/engine/handlers/command.ts:126-141 | an attachment exists iff the variable holds a non-empty string that parses with non-empty data and MIME type |
| CommandNode.Attachments | app/engine/handlers/command.ts:120-143 | the usable attachments of the listed variables, in order; unusable ones are skipped |
| CommandNode.Fold | app/engine/handlers/command.ts:212-219 | the stream succeeds iff no chunk is an error; an error chunk fails it |
| CommandNode.FoldIsText | app/engine/handlers/command.ts:212-219 | without an error the answer is all the text chunks, in stream order |
| CommandNode.TextOfAppend | app/engine/handlers/command.ts:214-215 | splitting the stream splits the text |
| CommandNode.LastImage | app/engine/handlers/command.ts:165-180 | the last generated image of the stream, and none iff there is no image |
| CommandNode.ImageFileOf | app/engine/handlers/command.ts:169-179 | a PNG is saved as `generated.png`, anything else as `generated.jpg`, as binary data |
| CommandNode.RequestFor | app/engine/handlers/command.ts:32-210 | the request carries the substituted prompt, the chosen model, and web search only without stores |
| CommandNode.Outputs | app/engine/handlers/command.ts:180-188 | `saveTo` gets the answer text; the image is kept unless `saveTo` names the same variable; other variables are unchanged |
| CommandNode.SavedImage | app/engine/handlers/command.ts:161-180 | an image is saved iff the model generates images, `saveImageTo` is set and the stream carries one |
| CommandNode.HandleCommand | app/engine/handlers/command.ts:26-235 | a missing prompt throws, then a missing key; otherwise the request is built from the node and the stream decides the outputs |
| CommandNode.ImageModelSavesLastImage | app/engine/handlers/command.ts:160-191 | an image model saves the last image under `saveImageTo` and reports no MCP apps |
| CommandNode.AppsComeFromMcpCalls | app/engine/handlers/command.ts:231-234 | every reported MCP app comes from a call the dispatcher sent to MCP |
| McpNode.TextItems | app/engine/handlers/mcp.ts:51-53 | exactly the non-empty texts of the text items, in order |
| McpNode.ResultText | app/engine/handlers/mcp.ts:51-55 | the text items joined by newlines, or the serialized content when there is none |
| McpNode.JsonProp | app/engine/handlers/mcp.ts:22-42 | an unset property gives nothing; an unparsable one throws an error naming the substituted text |
| McpNode.Session | app/engine/handlers/mcp.ts:44-98 | initialize, then the tool call, and `close` last on every path, success or throw |
| McpNode.UiRecordOf | app/engine/handlers/mcp.ts:77-82 | the MIME type defaults to `text/html`; the content is the text, else the blob, else `""` |
| McpNode.HandleMcp | app/engine/handlers/mcp.ts:8-99 | a missing url throws, then a missing tool, then invalid headers or args, all before any client call |
| McpNode.UiReadFailureNonFatal | app/engine/handlers/mcp.ts:72-92 | a failed UI read still reports the app, without a resource, and writes no `saveUiTo` |
| McpNode.SaveUiOnlyWithResource | app/engine/handlers/mcp.ts:76-83 | `saveUiTo` is written exactly when a UI resource was obtained |
| ExecutionStore.CreateExecution | app/services/execution-store.server.test.ts:4-12 | a new execution is running with no prompt; every other execution is unchanged |
| ExecutionStore.RequestPrompt | app/services/execution-store.server.test.ts:10-18 | a cancelled or unknown execution answers null at once and is left as it is; otherwise it waits for the prompt |
| ExecutionStore.StopExecution | app/services/execution-store.server.test.ts:20-31 | an existing execution becomes cancelled and its waiting prompt is answered with null; the answer is true iff it exists |
| ExecutionStore.ResolvePrompt | app/services/execution-store.server.test.ts:20-31 | a waiting prompt receives the answer and the execution runs again; otherwise nothing changes |
| ExecutionStore.PromptAfterStopIsNull | app/services/execution-store.server.test.ts:10-18 | a prompt requested after a stop is null at once and the execution stays cancelled |
| ExecutionStore.StopAnswersPendingPrompt | app/services/execution-store.server.test.ts:20-31 | stopping while a prompt waits returns true, answers the prompt with null and leaves the execution cancelled |
| ExecutionStore.CancelledIsFinal | app/services/execution-store.server.test.ts:17-30 | a cancelled execution stays cancelled whatever is requested, answered or stopped |
| WorkflowExecution.SystemLog | app/hooks/useWorkflowExecution.ts:114-123 | a hook-written log entry is a system error entry with the given message |
| WorkflowExecution.Start | app/hooks/useWorkflowExecution.ts:95-125 | logs are cleared and there is no prompt; the run fails iff the request throws, and then gets one system log with the message; otherwise it is running with the stream attached, and a body without an execution id (a refusal included, since the status is never checked) leaves no id |
| WorkflowExecution.Reconnect | app/hooks/useWorkflowExecution.ts:127-137 | logs are cleared; the status is waiting for a prompt iff prompt data is given, else running |
| WorkflowExecution.Stop | app/hooks/useWorkflowExecution.ts:139-172 | without an execution, or with an empty id, nothing happens; a refused or failed request adds one system log; the status is left to the stream |
| WorkflowExecution.EmptyIdActsAsNone | app/hooks/useWorkflowExecution.ts:105-106 | a start whose body carries an empty id neither stops nor answers prompts, like one with no id |
| WorkflowExecution.PromptResponse | app/hooks/useWorkflowExecution.ts:174-187 | a reply is sent iff the execution id is non-empty; without one nothing happens; otherwise the prompt is cleared, the run resumes and the answer is sent |
| WorkflowExecution.OnStreamError | app/hooks/useWorkflowExecution.ts:88-92 | a closed stream turns running into error; no other status changes |
| WorkflowExecution.OnEvent | app/hooks/useWorkflowExecution.ts:42-92 | a log event appends one entry; `complete` and `cancelled` set their status and close; an error event logs its message and fails; a prompt request waits with its data; a closed stream ignores events |
| WorkflowExecution.SeenCount | app/hooks/useWorkflowExecution.ts:52-78 | the events up to and including the first one that closes the stream |
| WorkflowExecution.ReplayLogs | app/hooks/useWorkflowExecution.ts:42-45 | the logs are the earlier ones followed by the entries of the events the stream delivers, in arrival order |
| WorkflowExecution.ClosedIgnores | app/hooks/useWorkflowExecution.ts:54-77 | a closed stream delivers nothing |
| WorkflowExecution.TransportErrorAlwaysFails | app/hooks/useWorkflowExecution.ts:62-92 | a transport error leaves the run failed and the stream closed, whatever the status before it |
| UseSync.PushGate | app/hooks/useSync.ts:111-144 | without a local snapshot no check is made; a failed diff is an error; conflicts halt; a newer server with files to pull rejects the push |
| UseSync.NewerClientNotRejected | app/hooks/useSync.ts:134-143 | a client whose snapshot is newer than the server's is never rejected |
| UseSync.TrackedModified | app/hooks/useSync.ts:148-151 | exactly the modified ids tracked in the cached server snapshot are pushed |
| UseSync.PushFileOf | app/hooks/useSync.ts:159-161 | a file is registered under its cached name, else its id |
| UseSync.UpdateOf | app/hooks/useSync.ts:163-176 | no update for an ineligible name; otherwise the one its returned registration answer calls for (a thrown registration is handled by `UseSync.Step`) |
| UseSync.KeptUpdates | app/hooks/useSync.ts:209-210 | every kept update is for an eligible file |
| UseSync.Step | app/hooks/useSync.ts:158-211 | an uncached id is skipped; a refused registration cannot stop the push, but a thrown one stops it with its message before Drive is asked; the update is kept only if Drive accepts the file |
| UseSync.PushLoop | app/hooks/useSync.ts:158-211 | cache contents are unchanged and every written file was cached, listed, registered without an exception and accepted |
| UseSync.PushLoopUpdates | app/hooks/useSync.ts:209-210 | the kept updates are exactly those of the written files |
| UseSync.PushLoopFailure | app/hooks/useSync.ts:163-197 | the loop stops at the first file whose registration throws (with that message, deleting nothing) or that Drive refuses (deleting the document registered for it); otherwise every cached id is written |
| UseSync.PushLoopRecords | app/hooks/useSync.ts:198-208 | Drive's checksum and time reach the snapshot and the cache for every written file; other entries stay |
| UseSync.UpdatesOnlyForWrittenFiles | app/hooks/useSync.ts:209-210 | every kept update belongs to a file Drive accepted |
| UseSync.Rebuild | app/hooks/useSync.ts:224-243 | the rebuilt snapshot has the server's time and exactly its files |
| UseSync.RebuildNothingLocallyChanged | app/hooks/useSync.ts:224-243 | against the server snapshot it came from, a rebuilt snapshot has nothing changed by the client |
| UseSync.Push | app/hooks/useSync.ts:104-258 | conflicts halt before any write; otherwise only tracked, cached files are written; the push ends idle iff the gate passed, every file was pushed, the batch save of the tracking updates did not reject and the rebuild request did not throw; a rejected save is an error with its message and the history kept; a thrown rebuild is an error with its message after the history is cleared |
| UseSync.FullPush | app/hooks/useSync.ts:494-600 | every modified cached id is written with no gate; the push ends idle iff every registration returns, every write, the batch save and the final request succeed; a rejected batch save is an error with its message and the snapshot not saved; a refused final request is "Full push failed", a thrown one its message, with the snapshot already saved |
| UseSync.Apply | app/hooks/useSync.ts:335-349 | every pulled file gets an entry, the last one for an id wins, and other entries stay |
| UseSync.Cleanup | app/hooks/useSync.ts:287-302 | local-only ids leave the cache, the history and the snapshot; other entries stay |
| UseSync.Pull | app/hooks/useSync.ts:260-361 | a failed diff is an error; conflicts halt; otherwise local-only ids are cleaned up and files to pull, then remote-only files, are fetched and recorded |
| UseSync.WithoutConflict | app/hooks/useSync.ts:419 | exactly the conflicts of other files remain |
| UseSync.ResolveConflict | app/hooks/useSync.ts:363-434 | the cached content is sent only when Drive wins; only that file's conflict goes, idle when none remain; the server's entry for the file is copied into the snapshot |
| UseSync.ResolveTwiceSameConflicts | app/hooks/useSync.ts:419 | resolving the same file twice changes nothing more |
| UseSync.SkipHashes | app/hooks/useSync.ts:440-447 | exactly the cached files with a non-empty checksum are sent, with that checksum |
| UseSync.FullPull | app/hooks/useSync.ts:436-492 | the client snapshot becomes exactly the server's files, skipped ones included |
| UseSync.FullPullNothingLocallyChanged | app/hooks/useSync.ts:459-471 | after a full pull the client agrees with the server snapshot on every file |
| MarkdownPdf.ReplaceAll | app/services/markdown-pdf.server.tsx:8-12 | no occurrence of the character is left when the replacement does not hold it; every output character comes from the input or the replacement |
| MarkdownPdf.EscapeHtml | app/services/markdown-pdf.server.tsx:6-13 | the output holds no `<`, `>`, `"` or `'` |
| MarkdownPdf.ReplaceAppend | app/services/markdown-pdf.server.tsx:8-12 | replacing distributes over concatenation |
| MarkdownPdf.EscapeIsPerChar | app/services/markdown-pdf.server.tsx:6-13 | the five replacements in sequence escape each character on its own: no entity is escaped twice |
| MarkdownPdf.UnescapeEscape | app/services/markdown-pdf.server.tsx:6-13 | reading the entities back gives the original text, so escaping loses nothing |
| MarkdownPdf.PlainTextUnchanged | app/services/markdown-pdf.server.tsx:6-13 | characters other than the five are kept as they are |
| MarkdownPdf.RenderHtml | app/services/markdown-pdf.server.tsx:100-116 | a text holding `<html` followed by whitespace or `>`, in any case, is returned unchanged; anything else is placed verbatim in the body of a document titled with the escaped title |
| MarkdownPdf.HeadHasTag | app/services/markdown-pdf.server.tsx:105-106 | the wrapping document opens an `<html` tag right after the doctype |
| MarkdownPdf.RenderIdempotent | app/services/markdown-pdf.server.tsx:100-116 | the wrapper is itself a full document, so rendering twice changes nothing more |
| SearchRoute.ClampTopK | app/routes/api.search.tsx:48 | the result lies in 1 to 20; an absent value gives 5; a value in range is kept |
| SearchRoute.AllowedModels | app/routes/api.search.tsx:58-61 | the free plan gets the two free models; any other plan the two paid ones |
| SearchRoute.SelectModel | app/routes/api.search.tsx:62-65 | the requested model iff it is allowed, otherwise the first allowed model |
| SearchRoute.Fallback | app/routes/api.search.tsx:66 | the first allowed model other than the selected one; none iff all allowed models equal it |
| SearchRoute.FallbackIsTheOther | app/routes/api.search.tsx:58-66 | with two distinct models allowed, the fallback is the other one |
| SearchRoute.RunWithFallback | app/routes/api.search.tsx:81-91 | the fallback is tried once, only after a failure whose message mentions `tool_type`, `fileSearch` or `not supported`, and only when it exists |
| SearchRoute.HitsSound | app/routes/api.search.tsx:109-121 | every hit comes from a titled chunk with its snippet, and no two hits share a title and URI |
| SearchRoute.HitsComplete | app/routes/api.search.tsx:112-119 | every titled chunk is represented by a hit with its title and URI |
| SearchRoute.UntitledIgnored | app/routes/api.search.tsx:116 | untitled chunks contribute nothing |
| SearchRoute.AiText | app/routes/api.search.tsx:105-107 | the first candidate's part texts concatenated, or empty |
| SearchRoute.RagResults | app/routes/api.search.tsx:93-123 | the hits of the first candidate's chunks, or none |
| SearchRoute.RagSearch | app/routes/api.search.tsx:38-124 | no key is a 400, then no store ids is a 400; a failed search is a 500 with its message; otherwise the hits and the summary |
| SearchRoute.Search | app/routes/api.search.tsx:7-146 | a non-POST is a 405; bad JSON, a missing query and an unknown mode are 400s; drive mode lists the name-search hits |
| SearchRoute.RagRepliesDeduplicated | app/routes/api.search.tsx:116-117 | a RAG reply never lists two hits with the same title and URI, and every hit has a title |
| AiWorkflowDialog.Begin | app/components/ide/AIWorkflowDialog.tsx:108-113 | generation starts with empty thinking and text, no error, and the trimmed description remembered; the history is kept |
| AiWorkflowDialog.Framing | app/components/ide/AIWorkflowDialog.tsx:153-161 | however the stream is cut into reads, the lines handed on are the newline-separated lines of the whole text except the last piece, which stays in the buffer |
| AiWorkflowDialog.BatchLinesSingle | app/components/ide/AIWorkflowDialog.tsx:160-161 | no line handed on holds a line break |
| AiWorkflowDialog.Leftover | app/components/ide/AIWorkflowDialog.tsx:161 | the buffer kept back holds no line break |
| AiWorkflowDialog.OnPayload | app/components/ide/AIWorkflowDialog.tsx:171-182 | thinking and text chunks are appended; a thinking chunk opens the thinking panel only when the flag captured at click time was false; an error chunk stops generation and returns to input; other kinds are ignored |
| AiWorkflowDialog.ThinkingPanelFlipsOnClick | app/components/ide/AIWorkflowDialog.tsx:108-176 | after the first thinking chunk the panel is open exactly when it was closed at click time, since the start closes it and the chunk tests the captured flag |
| AiWorkflowDialog.OnLine | app/components/ide/AIWorkflowDialog.tsx:164-186 | an `event: ` line sets the type; a `data: ` payload that does not parse, and any other line, change nothing |
| AiWorkflowDialog.ScanLines | app/components/ide/AIWorkflowDialog.tsx:164-187 | reading lines never changes the history, the mode, the name or the description |
| AiWorkflowDialog.ScanGrows | app/components/ide/AIWorkflowDialog.tsx:171-177 | thinking and generated text only grow; an error returns the dialog to input |
| AiWorkflowDialog.ScanBatches | app/components/ide/AIWorkflowDialog.tsx:153-188 | every read starts with no event type; the history and the inputs are kept |
| AiWorkflowDialog.EventTypePerBatch | app/components/ide/AIWorkflowDialog.tsx:163-166 | an event line types the data lines after it in the same read, and not those of the next read |
| AiWorkflowDialog.UnparsedIgnored | app/components/ide/AIWorkflowDialog.tsx:183-185 | a payload that does not parse changes nothing |
| AiWorkflowDialog.StreamGrows | app/components/ide/AIWorkflowDialog.tsx:153-188 | reading the stream never takes text away, and an error returns the dialog to input |
| AiWorkflowDialog.FindFrom | app/components/ide/AIWorkflowDialog.tsx:192 | the first occurrence of a pattern at or after a position, or none |
| AiWorkflowDialog.SkipSpaces | app/components/ide/AIWorkflowDialog.tsx:192 | skips exactly the white space at a position |
| AiWorkflowDialog.ExtractYaml | app/components/ide/AIWorkflowDialog.tsx:190-195 | text without a fence is taken whole |
| AiWorkflowDialog.FencedBlockExtracted | app/components/ide/AIWorkflowDialog.tsx:190-195 | a reply holding one `yaml` block, with no backtick before it, gives back the block's content |
| AiWorkflowDialog.OnThrown | app/components/ide/AIWorkflowDialog.tsx:211-215 | an abort leaves the dialog as it is; any other throw shows its message, or the generic one, and returns to input |
| AiWorkflowDialog.Finish | app/components/ide/AIWorkflowDialog.tsx:190-210 | blank YAML is an error and returns to input; otherwise it is shown for preview and the user and model turns are added to the history |
| AiWorkflowDialog.Generate | app/components/ide/AIWorkflowDialog.tsx:103-216 | nothing happens with a blank description, or a blank name when creating; a refused request shows its error; no stream shows its own error |
| AiWorkflowDialog.HistoryGrowsByExchange | app/components/ide/AIWorkflowDialog.tsx:205-210 | the history grows only by a user turn then a model turn, and only when a preview is reached |
| AiWorkflowDialog.PreviewIsNotBlank | app/components/ide/AIWorkflowDialog.tsx:197-203 | a preview never shows blank YAML |
| AiWorkflowDialog.Cancel | app/components/ide/AIWorkflowDialog.tsx:218-221 | cancelling returns to input and keeps the history and the description |
| AiWorkflowDialog.RejectPreview | app/components/ide/AIWorkflowDialog.tsx:234-239 | rejecting returns to input with an empty description and keeps the history |
| AiWorkflowDialog.AcceptPreview | app/components/ide/AIWorkflowDialog.tsx:223-232 | the YAML is accepted under the trimmed name when creating, and under the current name, or `workflow`, when modifying |
| DiffView.Classify | app/components/shared/DiffView.tsx:13-22 | added iff `+` but not `+++`; removed iff `-` but not `---`; hunk header iff `@@`; else context |
| DiffView.RowsOf | app/components/shared/DiffView.tsx:12-29 | one row per line, holding the line and its mark |
| DiffView.Render | app/components/shared/DiffView.tsx:1-32 | the placeholder iff the diff is empty; otherwise one row per newline-separated line |
| DiffView.RowsShowDiff | app/components/shared/DiffView.tsx:8-29 | the rows' texts, joined by line breaks, are the diff, and no row holds a line break |
| DiffView.OneMarkPerLine | app/components/shared/DiffView.tsx:13-22 | a line is context iff it is neither added, removed nor a hunk header |
| DiffView.FileHeadersAreContext | app/components/shared/DiffView.tsx:14-17 | `+++` and `---` lines are context |
| DiffView.ChangeLines | app/components/shared/DiffView.tsx:14-19 | a single sign followed by something other than the same sign twice marks a change |
| McpServerIds.IdsNamed | app/types/settings.mcp.test.ts:23-43 | the ids of the servers with a name, in order; none iff no server has it |
| McpServerIds.NormalizeOne | app/types/settings.mcp.test.ts:18-43 | an id stays; a name held by exactly one server becomes its id; anything else is dropped |
| McpServerIds.Normalize | app/types/settings.mcp.test.ts:18-43 | only configured ids come out, never more than went in |
| McpServerIds.NormalizeAppend | app/types/settings.mcp.test.ts:18-21 | the order of the entries is kept |
| McpServerIds.IdsKept | app/types/settings.mcp.test.ts:18-21 | configured ids come back unchanged, in their order |
| McpServerIds.UniqueNameMapped | app/types/settings.mcp.test.ts:23-26 | a name held by one server is replaced by its id |
| McpServerIds.AmbiguousNameDropped | app/types/settings.mcp.test.ts:28-43 | a name held by two servers is dropped |
| McpServerIds.ConfiguredServers | app/types/settings.mcp.test.ts:5-26 | with `Alpha` and `Beta` configured, ids keep their order and `Alpha` maps to its id |
| McpServerIds.DuplicateServers | app/types/settings.mcp.test.ts:28-43 | with two servers named `Duplicate`, the name is dropped |
| UrlValidator.Unbracket | app/services/url-validator.server.ts:25-28 | strips the brackets of a bracketed host and changes nothing else |
| UrlValidator.LoopbackV6MissedAsWritten | app/services/url-validator.server.ts:6-28 | the host `[::1]` is not recognised as private by the check as written |
| UrlValidator.BracketedHostsChecked | app/services/url-validator.server.ts:6-28 | the corrected check treats a bracketed address exactly as the patterns treat the bare address |
| UrlValidator.BracketedLoopback | app/services/url-validator.server.ts:6-28 | the corrected check treats `[::1]` as private |
| UrlValidator.BracketedLocalRanges | app/services/url-validator.server.ts:6-28 | the corrected check treats `[fe80::1]` and `[fd12::1]` as private |
| UrlValidator.UnbracketedAgree | app/services/url-validator.server.ts:19-28 | on hosts without brackets the corrected check agrees with the check as written |
| UrlValidator.ValidateWith | app/services/url-validator.server.ts:36-56 | an unparsable URL is refused; outside production everything else passes; in production a private host is refused, then a non-HTTPS protocol |
| UrlValidator.ValidateMcpServerUrlAsWritten | app/services/url-validator.server.ts:36-56 | the validation with the host check as written |
| UrlValidator.ValidateMcpServerUrl | app/services/url-validator.server.ts:36-56 | the validation with the corrected host check |
| UrlValidator.LoopbackUrlInProduction | app/services/url-validator.server.ts:25-56 | an HTTPS URL to `[::1]` passes in production as written and is refused by the corrected check |
| UrlValidator.FdPrefixCatchesNames | app/services/url-validator.server.ts:15 | any host name beginning with `fd` is treated as private |
| MarkdownSpacing.LeadingSpaces | app/components/editor/markdown-spacing.ts:10 | counts exactly the leading whitespace characters |
| MarkdownSpacing.RunOf | app/components/editor/markdown-spacing.ts:10 | counts exactly the run of one character at the start |
| MarkdownSpacing.FenceInfo | app/components/editor/markdown-spacing.ts:9-15 | a fence is found iff at most three whitespace characters are followed by three or more backticks or tildes; its length is the whole run |
| MarkdownSpacing.BlankIsNoFence | app/components/editor/markdown-spacing.ts:9-15 | a blank line is not a fence |
| MarkdownSpacing.MarkerIsNoFence | app/components/editor/markdown-spacing.ts:1-15 | the placeholder line is not a fence |
| MarkdownSpacing.NextFence | app/components/editor/markdown-spacing.ts:72-80 | a fence line opens a block when none is open, and closes the open one iff it uses the same character and is at least as long; other lines change nothing |
| MarkdownSpacing.Pairs | app/components/editor/markdown-spacing.ts:54-58 | k extra blank lines become k placeholder-and-blank pairs |
| MarkdownSpacing.Flush | app/components/editor/markdown-spacing.ts:34-60 | blank runs inside a fence or next to indented code are written unchanged; other runs become one blank line followed by placeholder pairs |
| MarkdownSpacing.CountPairs | app/components/editor/markdown-spacing.ts:97-108 | the pairs skipped after a blank line stay within the input |
| MarkdownSpacing.CountPairsOfPairs | app/components/editor/markdown-spacing.ts:97-108 | after a blank line followed by k pairs and other text, exactly k pairs are counted |
| MarkdownSpacing.DecFlush | app/components/editor/markdown-spacing.ts:34-60 | decoding what a flush wrote gives back the run of blank lines |
| MarkdownSpacing.DecEnc | app/components/editor/markdown-spacing.ts:25-132 | decoding the encoder's lines restores the pending blank run and the input lines, when no line is the placeholder |
| MarkdownSpacing.DecIdentity | app/components/editor/markdown-spacing.ts:87-132 | decoding leaves line lists without a placeholder unchanged |
| MarkdownSpacing.EncIdentity | app/components/editor/markdown-spacing.ts:25-85 | an encoding that wrote no placeholder changed nothing |
| MarkdownSpacing.FlushLines | app/components/editor/markdown-spacing.ts:34-60 | a flush writes only blank lines and placeholders |
| MarkdownSpacing.EncNoNewline | app/components/editor/markdown-spacing.ts:25-85 | no encoded line contains a newline |
| MarkdownSpacing.RoundTrip | app/components/editor/markdown-spacing.ts:25-132 | decoding the encoding of any text with no placeholder line gives the text back |
| MarkdownSpacing.Shortcuts | app/components/editor/markdown-spacing.ts:26-88 | text without a triple newline is not encoded, and text without the placeholder is not decoded |
| MarkdownSpacing.EncKeepsContent | app/components/editor/markdown-spacing.ts:62-83 | the encoder emits every content line, unchanged and in order, and adds none |
| MarkdownSpacing.DecKeepsContent | app/components/editor/markdown-spacing.ts:94-129 | the decoder emits every content line, unchanged and in order, and adds none |
| RagEligibility.ExtensionOf | app/constants/rag.ts:14-16 | there is no extension iff the name has no dot; otherwise it begins at the last dot |
| RagEligibility.ExtensionOfSuffix | app/constants/rag.ts:14-16 | a dot-initial suffix with no other dot is the extension, whatever precedes it |
| RagEligibility.EligibleIffExtension | app/constants/rag.ts:1-17 | a name is eligible iff its lower-cased extension is in the list |
| RagEligibility.NoDotIneligible | app/constants/rag.ts:15 | a name without a dot is not eligible |
| RagEligibility.LastExtensionDecides | app/constants/rag.ts:14-16 | only the part from the last dot decides |
| RagEligibility.CaseInsensitive | app/constants/rag.ts:16 | letter case does not matter |
| RagEligibility.TrailingDotIneligible | app/constants/rag.ts:14-16 | a name ending in a dot is not eligible |
| RagEligibility.EarlierExtensionIgnored | app/constants/rag.ts:14-16 | `notes.md.backup` is not eligible |
| RagEligibility.UpperCaseExtensionEligible | app/constants/rag.ts:16 | `Notes.MD` is eligible |
| SyncMeta.Upsert | app/services/sync-meta.server.ts:146-166 | the file is recorded under its id with name and type, checksum and modified time defaulting to the empty string; a missing snapshot starts empty; the snapshot time is the given time |
| SyncMeta.Remove | app/services/sync-meta.server.ts:171-185 | only the given id is deleted; every other entry is kept unchanged |
| SyncMeta.RemoveUndoesUpsert | app/services/sync-meta.server.ts:146-185 | removing an id just upserted gives back the entries the snapshot had |
| SyncMeta.UpsertIdempotent | app/services/sync-meta.server.ts:156-163 | upserting the same file twice is upserting it once |
| SyncMeta.DropDashColon | app/services/sync-meta.server.ts:199 | the result holds no `-` and no `:` and is no longer than the input |
| SyncMeta.DropIsoSeparators | app/services/sync-meta.server.ts:199 | removing separators from an ISO time keeps the date digits, the `T`, and the time digits in order |
| SyncMeta.IsoStampShape | app/services/sync-meta.server.ts:199 | the backup stamp of an ISO time is `YYYYMMDD_HHMMSS`, built from the time's own digits |
| SyncMeta.BackupName | app/services/sync-meta.server.ts:199-205 | slashes become underscores; `_<ts>` goes before the last dot when that dot's index is above 0, otherwise it is appended |
| SyncMeta.BackupNameSlashFree | app/services/sync-meta.server.ts:199-205 | a backup name holds no `/`, so the backup lands directly in the backup folder, whenever the stamp holds none |
| SyncMeta.CurrentRemoteMap | app/services/sync-meta.server.ts:235-241 | the current Drive map holds exactly the listed files that are neither system files nor excluded, each under its own id |
| SyncMeta.CurrentRemoteMapLastWins | app/services/sync-meta.server.ts:236-241 | for a repeated id, the last kept listing entry is the one recorded |
| SyncMeta.AllFileIds | app/services/sync-meta.server.ts:249-257 | an id is examined iff a snapshot records it under a name that is not excluded, or it is in the current Drive map |
| SyncMeta.ComputeSyncDiff | app/services/sync-meta.server.ts:213-295 | every examined id lands in the list its classification names and in no other; the lists are duplicate-free; conflicts carry the client's and Drive's checksums and times |
| SyncMeta.PlaceAll | app/services/sync-meta.server.ts:259-292 | the loop over the id set, taken in any order, places each id once, in the list its classification names |
| SyncMeta.PlacedExclusive | app/services/sync-meta.server.ts:259-291 | no id is in two lists, and ids unchanged on both sides are in none |
| SyncMeta.ClassifyPresence | app/services/sync-meta.server.ts:274-277 | a snapshot entry with no current Drive file is local-only; a current Drive file with no client entry is remote-only |
| SyncMeta.ConflictIffBothChanged | app/services/sync-meta.server.ts:264-291 | a file on both sides is a conflict iff both sides changed, to push iff only the client changed, and to pull iff only Drive changed; a conflict is named after the Drive file |
| SyncMeta.AgreeingChecksumsUnchanged | app/services/sync-meta.server.ts:264-272 | a file whose three checksums agree is in no list |
| SyncMeta.GoneEverywhereUnchanged | app/services/sync-meta.server.ts:259-291 | a file that only the server snapshot still records is in no list |
| SyncMeta.SystemFilesNotCurrent | app/services/sync-meta.server.ts:222-241 | `_sync-meta.json`, `settings.json` and excluded names never appear as current Drive files |
| SyncMeta.ExcludedIdsIgnored | app/services/sync-meta.server.ts:249-257 | an id recorded only under excluded names, and absent from Drive, is not examined |

## Left out

- **I/O and external services.** Network and Drive I/O, authentication, sessions, React state batching, effects and the fire-and-forget background task in `rag-sync.ts` are not modelled. Each operation is one sequential transition, and every external answer is a parameter.
- **Opaque computations.** `JSON.parse`/`JSON.stringify`, MD5 checksums, `new URL(...)`, `Date.now()` and ISO timestamps, and the regular-expression engine for user exclude patterns are parameters. The fixed patterns in the source are written out by hand.
- **Case mapping.** `toLowerCase`/`toUpperCase` are modelled on ASCII letters only. For the RAG extension list this is exact, since no extension contains a letter whose case mapping leaves ASCII.
- **Set iteration order.** The order in which `computeSyncDiff` iterates its id set (JavaScript insertion order) is not modelled. The output lists follow an arbitrary enumeration, and the properties are stated per id.
- **`reverseApplyDiff` hunk format.** The `diff` library's hunk format (context window, line numbers) is replaced by a whole-file line edit script with exact-match application. This covers every scenario in the edit-history tests.
- **`serverHeaders` in the mcp handler test.** The handler never sets this field, so the test's claim about it is not modelled.
- **`executor.test.ts`.** The workflow executor's traversal is not part of this model: its implementation is not available and a single assertion does not fix it.
- **Settings helpers.** `updateBinding` in the shortcuts tab, `isValidShortcutKey` and `isBuiltinShortcut` are not modelled. The last two are predicates passed in.
- **Temp-file helpers.** `readTempFile` and `deleteTempFiles` in `temp-file.server.ts` are thin Drive wrappers and are not modelled.
- **`renderMarkdownToPrintableHtml`.** It renders React markdown to HTML and is not modelled. Only `escapeHtml` and the wrapping of HTML are.
- **`systemInstruction` prompt texts.** The prompt texts of the search endpoint and the AI workflow dialog are opaque strings.
- **Non-`Error` throws in the search route.** A thrown value that is not an `Error` gives the message `Search failed`. The model represents every failure by its message.
- CommandNode.HandleCommand: when an error chunk follows an image chunk, the source has already written `saveImageTo` before it throws. The model returns the error without that partial write.
- McpNode.HandleMcp: a tool result without a `content` field is treated as empty content.
- UseSync.Pull: each pulled file is first passed to `commitSnapshot`, which records the file's new content in the local edit history. `edit-history-local.ts` is not part of this model, so the model treats that call as leaving the set of ids with an edit history unchanged.
- UseSync.ResolveConflict: when Drive wins, the same `commitSnapshot` call runs on the returned file first. It is likewise treated as leaving the edit-history set unchanged.
- UseSync.FullPull: every pulled file goes through the same `commitSnapshot` call first. It is likewise treated as leaving the edit-history set unchanged.
- AiWorkflowDialog.Generate: the request body (mode, trimmed name, description, current YAML, the selected `model`, the history and the execution steps) is not modelled. The reply is a parameter, so nothing in the model depends on what was sent.
- SearchRoute.ClampTopK: `topK` comes from the JSON body and is taken to be an integer, or absent or `null`. A fraction would pass the clamp unrounded, a numeric string is compared as a number, and any other value gives `NaN`; none of these is modelled.
- McpServerIds.NormalizeOne: no test fixes what happens to an entry that is neither a configured id nor a server name, or to one that is an id and also another server's name. The model drops the first and keeps the second as an id; both are reconstructions.
- McpServerIds.Normalize: no test fixes repeated entries. The model keeps every one, in order, which is a reconstruction.
- ExecutionStore.CreateExecution: the initial state of a new execution (running, no prompt, its workflow id) is reconstructed. The tests only create executions and then request prompts or stop them.
- ExecutionStore.RequestPrompt: that an unknown id is answered with `null` at once, and that a prompt on a running execution sets the status to waiting, are reconstructed. The tests fix only the cancelled case and the pending prompt's answer on a stop.
- ExecutionStore.ResolvePrompt: no test answers a prompt. That the answer is delivered and the execution runs again is reconstructed.
- ExecutionStore.StopExecution: the tests stop only running executions. That a completed or failed execution also becomes cancelled, with `true`, is reconstructed.
- Shortcuts.KeyLabel: a string here is a sequence of Unicode scalar values, while JavaScript's `length` counts UTF-16 code units. A key that is one character outside the Basic Multilingual Plane has length 2 in the source and 1 here, so it takes the other branch. The label comes out the same only because case mapping is modelled on ASCII letters alone. Every other length and index in the model shares this difference.
- **UI-only components** (editor, previews, modals, headers) have no stateable logic and are not modelled.

## Findings

| source | as written | input that shows it | evidently intended | confidence | as-written member | corrected member |
|---|---|---|---|---|---|---|
| app/services/url-validator.server.ts:13-16 | the IPv6 patterns (`::1`, `fc00:`, `fd`, `fe80:`) are tested against the host name the URL parser reports, which keeps IPv6 addresses in square brackets, so they never match an IPv6 literal | `https://[::1]/` in production passes the check | bracketed IPv6 loopback and private addresses are refused like the bare addresses | not executed | UrlValidator.LoopbackUrlInProduction | UrlValidator.BracketedHostsChecked |
