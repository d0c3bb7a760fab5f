/** Server-side RAG tracking: the `ragRegister`, `ragSave`, `ragDeleteDoc`
    and `ragRetryPending` actions over the `fileName -> info` tracking map of
    the default store. Drive reads, Gemini uploads and deletes, checksums and
    regex tests are parameters; `now` stands for `Date.now()`. */
module SyncRag {
  import opened Wrappers
  import opened RagEligibility

  const DefaultStoreKey: string := "gemihub"

  datatype RagStatus = Registered | Pending

  datatype RagFileInfo = RagFileInfo(checksum: string, uploadedAt: int, fileId: Option<string>, status: RagStatus)

  /** One store's setting; `storeName == ""` is an unset store name. */
  datatype RagSetting = RagSetting(storeName: string, files: map<string, RagFileInfo>, excludePatterns: seq<string>)

  /** The settings fields these actions read and write; `selectedRagSetting == ""` is unset. */
  datatype Settings = Settings(
    ragRegistrationOnPush: bool,
    ragEnabled: bool,
    selectedRagSetting: string,
    ragSettings: map<string, RagSetting>)

  const DefaultRagSetting: RagSetting := RagSetting("", map[], [])

  /** JavaScript truthiness of an optional string. */
  predicate Truthy(s: Option<string>) {
    s.Some? && s.value != ""
  }

  /** `matchesExcludePatterns`; `test(pattern, name)` is the regex test and is false for an invalid pattern. */
  predicate MatchesExclude(fileName: string, patterns: seq<string>, test: (string, string) -> bool) {
    exists i :: 0 <= i < |patterns| && test(patterns[i], fileName)
  }

  /** A name the store should hold: an eligible extension and no exclude match. */
  predicate Tracked(fileName: string, patterns: seq<string>, test: (string, string) -> bool) {
    IsRagEligible(fileName) && !MatchesExclude(fileName, patterns, test)
  }

  /** The default store's setting, or the built-in default when there is none. */
  function DefaultSetting(settings: Settings): (r: RagSetting)
    ensures DefaultStoreKey !in settings.ragSettings ==> r.files == map[] && r.storeName == ""
  {
    if DefaultStoreKey in settings.ragSettings then settings.ragSettings[DefaultStoreKey] else DefaultRagSetting
  }

  /** `toPendingRagInfo`: keep the checksum, stamp the time, pin the document id. */
  function ToPending(fallback: RagFileInfo, fileId: Option<string>, now: int): (r: RagFileInfo)
    ensures r.status == Pending && r.fileId == fileId && r.checksum == fallback.checksum && r.uploadedAt == now
  {
    RagFileInfo(fallback.checksum, now, fileId, Pending)
  }

  function Lookup(files: map<string, RagFileInfo>, name: string): Option<RagFileInfo> {
    if name in files then Some(files[name]) else None
  }

  // ---------------------------------------------------------------------
  // ragRegister

  datatype RegisterRequest = RegisterRequest(content: Option<string>, fileName: Option<string>, fileId: Option<string>)

  datatype UploadResult = UploadResult(checksum: string, fileId: Option<string>)

  datatype Payload = Bytes(data: string) | ReadError | NoSource

  /** The bytes to upload: Drive bytes when a file id is given and the read
      succeeds, otherwise the supplied content; `readBytes` returns `None`
      where the Drive read throws. */
  function UploadPayload(content: Option<string>, fileId: Option<string>, readBytes: string -> Option<string>): (r: Payload)
    ensures r.ReadError? <==> Truthy(fileId) && readBytes(fileId.value).None? && content.None?
    ensures r.NoSource? <==> !Truthy(fileId) && content.None?
    ensures r.Bytes? && Truthy(fileId) && readBytes(fileId.value).Some? ==> r.data == readBytes(fileId.value).value
    ensures r.Bytes? && !(Truthy(fileId) && readBytes(fileId.value).Some?) ==> r.data == content.value
  {
    if Truthy(fileId) then
      match readBytes(fileId.value)
      case Some(bytes) => Bytes(bytes)
      case None => if content.None? then ReadError else Bytes(content.value)
    else if content.Some? then Bytes(content.value)
    else NoSource
  }

  datatype RegisterReply =
    | MissingFileName                 // 400
    | IneligibleExtension             // ok, skipped, reason "ineligible-extension"
    | SkippedRegistration             // ok, skipped
    | ReadFailed                      // 500
    | MissingContent                  // 400
    | RegisteredFile(result: UploadResult, uploadedAt: int, storeName: string)

  /** The reply, and the settings saved on the way when the store had to be created. */
  datatype RegisterOutcome = RegisterOutcome(reply: RegisterReply, saved: Option<Settings>)

  /** The default setting with its store name filled in, as it is after the store check. */
  function StoreReady(settings: Settings, createdStore: string): RagSetting {
    var rs := DefaultSetting(settings);
    if rs.storeName == "" then rs.(storeName := createdStore) else rs
  }

  /** `handleRagAction("ragRegister", …)`; `createdStore` is what
      `getOrCreateStore` returns, `register(store, name, payload, priorDocId)`
      is `registerSingleFile`. */
  function RagRegister(
    req: RegisterRequest, settings: Settings, apiKey: Option<string>, now: int,
    test: (string, string) -> bool, createdStore: string,
    readBytes: string -> Option<string>, checksumOf: string -> string,
    register: (string, string, string, Option<string>) -> UploadResult): (r: RegisterOutcome)
    ensures r.reply == MissingFileName <==> !Truthy(req.fileName)
    ensures r.reply == IneligibleExtension <==> Truthy(req.fileName) && !IsRagEligible(req.fileName.value)
    ensures Truthy(req.fileName) && (!Truthy(apiKey) || !settings.ragRegistrationOnPush) ==> r.saved == None
    ensures r.reply.RegisteredFile? ==>
              var name := req.fileName.value;
              var rs := StoreReady(settings, createdStore);
              var payload := UploadPayload(req.content, req.fileId, readBytes);
              Truthy(apiKey) && settings.ragRegistrationOnPush && Tracked(name, rs.excludePatterns, test)
              && payload.Bytes?
              && (name in rs.files ==> rs.files[name].checksum != checksumOf(payload.data))
              && r.reply == RegisteredFile(
                   register(rs.storeName, name, payload.data, if name in rs.files then rs.files[name].fileId else None),
                   now, rs.storeName)
    ensures r.saved.Some? ==>
              DefaultSetting(settings).storeName == ""
              && r.saved.value == settings.(ragSettings := settings.ragSettings[DefaultStoreKey := StoreReady(settings, createdStore)])
  {
    if !Truthy(req.fileName) then RegisterOutcome(MissingFileName, None)
    else
      var name := req.fileName.value;
      if !IsRagEligible(name) then RegisterOutcome(IneligibleExtension, None)
      else if !Truthy(apiKey) || !settings.ragRegistrationOnPush then RegisterOutcome(SkippedRegistration, None)
      else if MatchesExclude(name, DefaultSetting(settings).excludePatterns, test) then RegisterOutcome(SkippedRegistration, None)
      else
        var rs := StoreReady(settings, createdStore);
        var saved :=
          if DefaultSetting(settings).storeName == "" then Some(settings.(ragSettings := settings.ragSettings[DefaultStoreKey := rs]))
          else None;
        match UploadPayload(req.content, req.fileId, readBytes)
        case ReadError => RegisterOutcome(ReadFailed, saved)
        case NoSource => RegisterOutcome(MissingContent, saved)
        case Bytes(data) =>
          if name in rs.files && rs.files[name].checksum == checksumOf(data) then RegisterOutcome(SkippedRegistration, saved)
          else
            var prior := if name in rs.files then rs.files[name].fileId else None;
            RegisterOutcome(RegisteredFile(register(rs.storeName, name, data, prior), now, rs.storeName), saved)
  }

  /** Excluded names, and names whose content checksum is already tracked, are never uploaded. */
  lemma RegisterSkipsKnownContent(
    req: RegisterRequest, settings: Settings, apiKey: Option<string>, now: int,
    test: (string, string) -> bool, createdStore: string,
    readBytes: string -> Option<string>, checksumOf: string -> string,
    register: (string, string, string, Option<string>) -> UploadResult)
    requires Truthy(req.fileName)
    requires var rs := StoreReady(settings, createdStore);
             var payload := UploadPayload(req.content, req.fileId, readBytes);
             !Tracked(req.fileName.value, rs.excludePatterns, test)
             || (payload.Bytes? && req.fileName.value in rs.files
                 && rs.files[req.fileName.value].checksum == checksumOf(payload.data))
    ensures !RagRegister(req, settings, apiKey, now, test, createdStore, readBytes, checksumOf, register).reply.RegisteredFile?
  {
  }

  // ---------------------------------------------------------------------
  // ragSave

  datatype RagUpdate = RagUpdate(fileName: string, info: RagFileInfo)

  /** A pending placeholder from the first, pending-first save: no checksum and no document. */
  predicate IsPlaceholder(info: RagFileInfo) {
    info.status == Pending && info.checksum == "" && !Truthy(info.fileId)
  }

  /** The document id an untracked update refers to: the stored entry's, else the update's. */
  function DocIdFor(files: map<string, RagFileInfo>, u: RagUpdate): Option<string> {
    if u.fileName in files && files[u.fileName].fileId.Some? then files[u.fileName].fileId else u.info.fileId
  }

  /** One iteration of the `ragSave` loop. */
  function MergeOne(
    files: map<string, RagFileInfo>, u: RagUpdate, patterns: seq<string>, apiKey: Option<string>,
    now: int, deleteOk: string -> bool, test: (string, string) -> bool): (r: map<string, RagFileInfo>)
    ensures forall k :: k != u.fileName ==> (k in r <==> k in files) && (k in r ==> r[k] == files[k])
    ensures !Tracked(u.fileName, patterns, test) ==>
              var docId := DocIdFor(files, u);
              (u.fileName !in r <==> !Truthy(docId) || (Truthy(apiKey) && deleteOk(docId.value)))
              && (u.fileName in r ==> r[u.fileName].status == Pending && r[u.fileName].fileId == docId && Truthy(docId))
    ensures Tracked(u.fileName, patterns, test) ==>
              u.fileName in r
              && (r[u.fileName] == u.info
                  || (IsPlaceholder(u.info) && u.fileName in files && Truthy(files[u.fileName].fileId)
                      && r[u.fileName] == files[u.fileName]))
  {
    var existing := Lookup(files, u.fileName);
    if !Tracked(u.fileName, patterns, test) then
      var docId := DocIdFor(files, u);
      if !Truthy(docId) then files - {u.fileName}
      else if !Truthy(apiKey) then files[u.fileName := ToPending(existing.GetOr(u.info), docId, now)]
      else if deleteOk(docId.value) then files - {u.fileName}
      else files[u.fileName := ToPending(existing.GetOr(u.info), docId, now)]
    else if IsPlaceholder(u.info) && existing.Some? && Truthy(existing.value.fileId) then files
    else files[u.fileName := u.info]
  }

  /** The `ragSave` loop over all updates, in order. */
  function MergeUpdates(
    files: map<string, RagFileInfo>, updates: seq<RagUpdate>, patterns: seq<string>, apiKey: Option<string>,
    now: int, deleteOk: string -> bool, test: (string, string) -> bool): map<string, RagFileInfo>
    decreases |updates|
  {
    if |updates| == 0 then files
    else MergeUpdates(MergeOne(files, updates[0], patterns, apiKey, now, deleteOk, test), updates[1..], patterns, apiKey, now, deleteOk, test)
  }

  predicate Mentions(updates: seq<RagUpdate>, name: string) {
    exists i :: 0 <= i < |updates| && updates[i].fileName == name
  }

  /** Entries no update names are left exactly as they were. */
  lemma {:induction false} MergeFrame(
    files: map<string, RagFileInfo>, updates: seq<RagUpdate>, patterns: seq<string>, apiKey: Option<string>,
    now: int, deleteOk: string -> bool, test: (string, string) -> bool, k: string)
    requires !Mentions(updates, k)
    ensures var r := MergeUpdates(files, updates, patterns, apiKey, now, deleteOk, test);
            (k in r <==> k in files) && (k in r ==> r[k] == files[k])
    decreases |updates|
  {
    if |updates| > 0 {
      assert !Mentions(updates[1..], k) by {
        forall i | 0 <= i < |updates[1..]| ensures updates[1..][i].fileName != k {
          assert updates[1..][i] == updates[i + 1];
        }
      }
      MergeFrame(MergeOne(files, updates[0], patterns, apiKey, now, deleteOk, test), updates[1..], patterns, apiKey, now, deleteOk, test, k);
    }
  }

  /** After a save, every untracked name an update mentioned is either gone
      or kept as pending with the document id that still has to be deleted. */
  lemma {:induction false} MergeUntrackedPending(
    files: map<string, RagFileInfo>, updates: seq<RagUpdate>, patterns: seq<string>, apiKey: Option<string>,
    now: int, deleteOk: string -> bool, test: (string, string) -> bool, k: string)
    requires Mentions(updates, k) && !Tracked(k, patterns, test)
    ensures var r := MergeUpdates(files, updates, patterns, apiKey, now, deleteOk, test);
            k in r ==> r[k].status == Pending && Truthy(r[k].fileId)
    decreases |updates|
  {
    var next := MergeOne(files, updates[0], patterns, apiKey, now, deleteOk, test);
    if Mentions(updates[1..], k) {
      MergeUntrackedPending(next, updates[1..], patterns, apiKey, now, deleteOk, test, k);
    } else {
      assert updates[0].fileName == k;
      MergeFrame(next, updates[1..], patterns, apiKey, now, deleteOk, test, k);
    }
  }

  /** A tracked entry that already has a document id survives any number of
      placeholder updates for its name untouched. */
  lemma {:induction false} PlaceholdersKeepDocument(
    files: map<string, RagFileInfo>, updates: seq<RagUpdate>, patterns: seq<string>, apiKey: Option<string>,
    now: int, deleteOk: string -> bool, test: (string, string) -> bool, k: string)
    requires Tracked(k, patterns, test) && k in files && Truthy(files[k].fileId)
    requires forall i :: 0 <= i < |updates| && updates[i].fileName == k ==> IsPlaceholder(updates[i].info)
    ensures var r := MergeUpdates(files, updates, patterns, apiKey, now, deleteOk, test);
            k in r && r[k] == files[k]
    decreases |updates|
  {
    if |updates| > 0 {
      var next := MergeOne(files, updates[0], patterns, apiKey, now, deleteOk, test);
      assert k in next && next[k] == files[k];
      forall i | 0 <= i < |updates[1..]| && updates[1..][i].fileName == k ensures IsPlaceholder(updates[1..][i].info) {
        assert updates[1..][i] == updates[i + 1];
      }
      PlaceholdersKeepDocument(next, updates[1..], patterns, apiKey, now, deleteOk, test, k);
    }
  }

  /** The number of tracking entries still waiting for registration. */
  function PendingCount(files: map<string, RagFileInfo>): nat {
    |set k | k in files && files[k].status == Pending|
  }

  lemma PendingCountBounded(files: map<string, RagFileInfo>)
    ensures PendingCount(files) <= |files|
  {
    var pending := set k | k in files && files[k].status == Pending;
    assert pending <= files.Keys;
    assert |files.Keys| == |files|;
    SubsetCard(pending, files.Keys);
  }

  lemma {:induction false} SubsetCard<T>(a: set<T>, b: set<T>)
    requires a <= b
    ensures |a| <= |b|
    decreases |b|
  {
    if a != {} {
      var x :| x in a;
      SubsetCard(a - {x}, b - {x});
    }
  }

  predicate SomeRegistered(updates: seq<RagUpdate>) {
    exists i :: 0 <= i < |updates| && updates[i].info.status == Registered
  }

  datatype SaveOutcome = SaveOutcome(skipped: bool, pendingCount: nat, saved: Option<Settings>)

  /** `handleRagAction("ragSave", …)`; `deleteOk(docId)` is `deleteSingleFileFromRag`. */
  function RagSave(
    updates: seq<RagUpdate>, storeName: string, settings: Settings, apiKey: Option<string>,
    now: int, deleteOk: string -> bool, test: (string, string) -> bool): (r: SaveOutcome)
    ensures r.skipped <==> !settings.ragRegistrationOnPush
    ensures r.skipped ==> r.pendingCount == 0 && r.saved == None
    ensures !r.skipped ==>
              r.saved.Some? && DefaultStoreKey in r.saved.value.ragSettings
              && var s := r.saved.value;
                 (s.ragEnabled <==> settings.ragEnabled || SomeRegistered(updates))
                 && s.selectedRagSetting
                    == (if SomeRegistered(updates) && settings.selectedRagSetting == "" then DefaultStoreKey
                        else settings.selectedRagSetting)
                 && r.pendingCount == PendingCount(s.ragSettings[DefaultStoreKey].files)
                 && s.ragRegistrationOnPush == settings.ragRegistrationOnPush
                 && (forall key :: key != DefaultStoreKey ==>
                       (key in s.ragSettings <==> key in settings.ragSettings)
                       && (key in s.ragSettings ==> s.ragSettings[key] == settings.ragSettings[key]))
  {
    if !settings.ragRegistrationOnPush then SaveOutcome(true, 0, None)
    else
      var rs :=
        if DefaultStoreKey in settings.ragSettings then settings.ragSettings[DefaultStoreKey]
        else DefaultRagSetting.(storeName := storeName);
      var enabled :=
        if SomeRegistered(updates) then
          settings.(ragEnabled := true,
                    selectedRagSetting := if settings.selectedRagSetting == "" then DefaultStoreKey else settings.selectedRagSetting)
        else settings;
      var files := MergeUpdates(rs.files, updates, rs.excludePatterns, apiKey, now, deleteOk, test);
      var saved := enabled.(ragSettings := settings.ragSettings[DefaultStoreKey := rs.(files := files)]);
      SaveOutcome(false, PendingCount(files), Some(saved))
  }

  /** The push round trip: a file registered by `ragRegister` and recorded
      by `ragSave` is tracked as registered with the returned document, RAG
      is switched on, and registering the same content again is skipped. */
  lemma RegisterThenSaveIsStable(
    req: RegisterRequest, settings: Settings, apiKey: Option<string>, now: int,
    test: (string, string) -> bool, createdStore: string,
    readBytes: string -> Option<string>, checksumOf: string -> string,
    register: (string, string, string, Option<string>) -> UploadResult,
    later: int, deleteOk: string -> bool)
    requires RagRegister(req, settings, apiKey, now, test, createdStore, readBytes, checksumOf, register).reply.RegisteredFile?
    requires var payload := UploadPayload(req.content, req.fileId, readBytes);
             payload.Bytes? ==>
               RagRegister(req, settings, apiKey, now, test, createdStore, readBytes, checksumOf, register).reply.result.checksum
               == checksumOf(payload.data)
    ensures var first := RagRegister(req, settings, apiKey, now, test, createdStore, readBytes, checksumOf, register);
            var res := first.reply.result;
            var name := req.fileName.value;
            var current := if first.saved.Some? then first.saved.value else settings;
            var update := RagUpdate(name, RagFileInfo(res.checksum, first.reply.uploadedAt, res.fileId, Registered));
            var save := RagSave([update], first.reply.storeName, current, apiKey, later, deleteOk, test);
            save.saved.Some?
            && save.saved.value.ragEnabled
            && DefaultStoreKey in save.saved.value.ragSettings
            && name in save.saved.value.ragSettings[DefaultStoreKey].files
            && save.saved.value.ragSettings[DefaultStoreKey].files[name] == update.info
            && RagRegister(req, save.saved.value, apiKey, later, test, createdStore, readBytes, checksumOf, register).reply
               == SkippedRegistration
  {
    var first := RagRegister(req, settings, apiKey, now, test, createdStore, readBytes, checksumOf, register);
    var name := req.fileName.value;
    var current := if first.saved.Some? then first.saved.value else settings;
    var rs := StoreReady(settings, createdStore);
    assert DefaultStoreKey in current.ragSettings && current.ragSettings[DefaultStoreKey] == rs;
    var update := RagUpdate(name, RagFileInfo(first.reply.result.checksum, first.reply.uploadedAt, first.reply.result.fileId, Registered));
    assert SomeRegistered([update]) by { assert [update][0].info.status == Registered; }
    var merged := MergeOne(rs.files, update, rs.excludePatterns, apiKey, later, deleteOk, test);
    assert MergeUpdates(rs.files, [update], rs.excludePatterns, apiKey, later, deleteOk, test) == merged by {
      assert [update][1..] == [];
    }
    assert merged[name] == update.info;
  }

  // ---------------------------------------------------------------------
  // ragDeleteDoc

  datatype DeleteReply = MissingDocumentId | NoApiKey | DeleteResult(ok: bool)

  /** `handleRagAction("ragDeleteDoc", …)`. */
  function RagDeleteDoc(documentId: Option<string>, apiKey: Option<string>, deleteOk: string -> bool): (r: DeleteReply)
    ensures r == MissingDocumentId <==> !Truthy(documentId)
    ensures r == NoApiKey <==> Truthy(documentId) && !Truthy(apiKey)
    ensures r.DeleteResult? ==> r.ok == deleteOk(documentId.value)
  {
    if !Truthy(documentId) then MissingDocumentId
    else if !Truthy(apiKey) then NoApiKey
    else DeleteResult(deleteOk(documentId.value))
  }

  // ---------------------------------------------------------------------
  // ragRetryPending

  /** The retry filter: every untracked entry, and tracked entries still pending. */
  predicate NeedsRetry(name: string, info: RagFileInfo, patterns: seq<string>, test: (string, string) -> bool) {
    !Tracked(name, patterns, test) || info.status == Pending
  }

  /** The entries the retry visits, in enumeration order. */
  function PendingEntries(order: seq<string>, files: map<string, RagFileInfo>, patterns: seq<string>, test: (string, string) -> bool): (r: seq<string>)
    ensures forall k :: k in r <==> k in order && k in files && NeedsRetry(k, files[k], patterns, test)
    ensures NoDup(order) ==> NoDup(r)
  {
    if |order| == 0 then []
    else
      var rest := PendingEntries(order[1..], files, patterns, test);
      assert forall k :: k in order[1..] ==> k in order;
      if order[0] in files && NeedsRetry(order[0], files[order[0]], patterns, test) then
        assert NoDup(order) ==> order[0] !in order[1..];
        [order[0]] + rest
      else rest
  }

  /** The index of the last listed file with a given name, or -1. */
  function LastNamed(remote: seq<(string, string)>, name: string): (r: int)
    ensures -1 <= r < |remote|
    ensures r >= 0 ==> remote[r].1 == name && forall j :: r < j < |remote| ==> remote[j].1 != name
    ensures r == -1 <==> forall i :: 0 <= i < |remote| ==> remote[i].1 != name
  {
    if |remote| == 0 then -1
    else if remote[|remote| - 1].1 == name then |remote| - 1
    else LastNamed(remote[..|remote| - 1], name)
  }

  /** `nameToFileId`, built from the rebuilt sync meta's `(fileId, name)` pairs in order. */
  function NameIndex(remote: seq<(string, string)>): map<string, string> {
    if |remote| == 0 then map[]
    else NameIndex(remote[..|remote| - 1])[remote[|remote| - 1].1 := remote[|remote| - 1].0]
  }

  /** A later file with the same name overwrites an earlier one: each name maps to the id of its last file. */
  lemma {:induction false} NameIndexLastWins(remote: seq<(string, string)>, name: string)
    ensures name in NameIndex(remote) <==> LastNamed(remote, name) >= 0
    ensures name in NameIndex(remote) ==> NameIndex(remote)[name] == remote[LastNamed(remote, name)].0
  {
    if |remote| > 0 && remote[|remote| - 1].1 != name {
      NameIndexLastWins(remote[..|remote| - 1], name);
    }
  }

  /** What the retry does with one entry. */
  datatype RetryFate =
    | Drop                            // removed from tracking
    | KeepPending(info: RagFileInfo)  // excluded document whose delete failed
    | Refresh(info: RagFileInfo)      // re-registered
    | StillFailing                    // registration threw; entry unchanged

  /** The fate of one visited entry; `retry(name, driveId, priorDocId)` reads
      the Drive bytes and registers them, `None` where either throws. */
  function FateOf(
    name: string, info: RagFileInfo, patterns: seq<string>, driveIds: map<string, string>,
    now: int, deleteOk: string -> bool, retry: (string, string, Option<string>) -> Option<UploadResult>,
    test: (string, string) -> bool): (r: RetryFate)
    ensures !Tracked(name, patterns, test) ==> r.Drop? || (r.KeepPending? && r.info.status == Pending && r.info.fileId == info.fileId)
    ensures r.Refresh? ==> r.info.status == Registered && Tracked(name, patterns, test)
    ensures Tracked(name, patterns, test) && (name !in driveIds || driveIds[name] == "") ==> r.Drop?
  {
    if !Tracked(name, patterns, test) then
      if Truthy(info.fileId) && !deleteOk(info.fileId.value) then KeepPending(ToPending(info, info.fileId, now))
      else Drop
    else if name !in driveIds || driveIds[name] == "" then Drop
    else
      match retry(name, driveIds[name], info.fileId)
      case Some(res) => Refresh(RagFileInfo(res.checksum, now, res.fileId, Registered))
      case None => StillFailing
  }

  /** A tracking entry after its fate. */
  function AfterFate(fate: RetryFate, before: Option<RagFileInfo>): Option<RagFileInfo> {
    match fate
    case Drop => None
    case KeepPending(info) => Some(info)
    case Refresh(info) => Some(info)
    case StillFailing => before
  }

  function ApplyFate(files: map<string, RagFileInfo>, name: string, fate: RetryFate): (r: map<string, RagFileInfo>)
    ensures forall k :: k != name ==> (k in r <==> k in files) && (k in r ==> r[k] == files[k])
    ensures Lookup(r, name) == AfterFate(fate, Lookup(files, name))
  {
    match fate
    case Drop => files - {name}
    case KeepPending(info) => files[name := info]
    case Refresh(info) => files[name := info]
    case StillFailing => files
  }

  datatype RetryTally = RetryTally(files: map<string, RagFileInfo>, retried: nat, stillPending: nat)

  /** The retry loop over the visited entries; `snapshot` is the map they were read from. */
  function RetryLoop(
    entries: seq<string>, snapshot: map<string, RagFileInfo>, files: map<string, RagFileInfo>,
    patterns: seq<string>, driveIds: map<string, string>, now: int, deleteOk: string -> bool,
    retry: (string, string, Option<string>) -> Option<UploadResult>, test: (string, string) -> bool): (r: RetryTally)
    requires forall k :: k in entries ==> k in snapshot
    decreases |entries|
  {
    if |entries| == 0 then RetryTally(files, 0, 0)
    else
      var name := entries[0];
      var fate := FateOf(name, snapshot[name], patterns, driveIds, now, deleteOk, retry, test);
      var rest := RetryLoop(entries[1..], snapshot, ApplyFate(files, name, fate), patterns, driveIds, now, deleteOk, retry, test);
      RetryTally(rest.files,
                 rest.retried + (if fate.Refresh? then 1 else 0),
                 rest.stillPending + (if fate.KeepPending? || fate.StillFailing? then 1 else 0))
  }

  /** Each visited name ends exactly as its own fate says, and unvisited names are untouched. */
  lemma {:induction false} RetryLoopPerName(
    entries: seq<string>, snapshot: map<string, RagFileInfo>, files: map<string, RagFileInfo>,
    patterns: seq<string>, driveIds: map<string, string>, now: int, deleteOk: string -> bool,
    retry: (string, string, Option<string>) -> Option<UploadResult>, test: (string, string) -> bool, k: string)
    requires forall x :: x in entries ==> x in snapshot
    requires NoDup(entries)
    ensures var r := RetryLoop(entries, snapshot, files, patterns, driveIds, now, deleteOk, retry, test);
            Lookup(r.files, k)
            == if k in entries then AfterFate(FateOf(k, snapshot[k], patterns, driveIds, now, deleteOk, retry, test), Lookup(files, k))
               else Lookup(files, k)
    decreases |entries|
  {
    if |entries| > 0 {
      var name := entries[0];
      var fate := FateOf(name, snapshot[name], patterns, driveIds, now, deleteOk, retry, test);
      var next := ApplyFate(files, name, fate);
      assert forall x :: x in entries[1..] ==> x in entries;
      assert NoDup(entries[1..]) by {
        forall i, j | 0 <= i < j < |entries[1..]| ensures entries[1..][i] != entries[1..][j] {
          assert entries[1..][i] == entries[i + 1] && entries[1..][j] == entries[j + 1];
        }
      }
      RetryLoopPerName(entries[1..], snapshot, next, patterns, driveIds, now, deleteOk, retry, test, k);
      if k == name {
        assert k !in entries[1..] by {
          forall i | 0 <= i < |entries[1..]| ensures entries[1..][i] != k {
            assert entries[1..][i] == entries[i + 1];
          }
        }
      } else {
        assert k in entries <==> k in entries[1..];
      }
    }
  }

  /** How many visited names meet a condition on their fate. */
  function CountFates(
    entries: seq<string>, snapshot: map<string, RagFileInfo>, patterns: seq<string>, driveIds: map<string, string>,
    now: int, deleteOk: string -> bool, retry: (string, string, Option<string>) -> Option<UploadResult>,
    test: (string, string) -> bool, counted: RetryFate -> bool): nat
    requires forall k :: k in entries ==> k in snapshot
    decreases |entries|
  {
    if |entries| == 0 then 0
    else
      (if counted(FateOf(entries[0], snapshot[entries[0]], patterns, driveIds, now, deleteOk, retry, test)) then 1 else 0)
      + CountFates(entries[1..], snapshot, patterns, driveIds, now, deleteOk, retry, test, counted)
  }

  /** `retried` counts re-registered names; `stillPending` counts kept and failed ones. */
  lemma {:induction false} RetryLoopCounts(
    entries: seq<string>, snapshot: map<string, RagFileInfo>, files: map<string, RagFileInfo>,
    patterns: seq<string>, driveIds: map<string, string>, now: int, deleteOk: string -> bool,
    retry: (string, string, Option<string>) -> Option<UploadResult>, test: (string, string) -> bool)
    requires forall k :: k in entries ==> k in snapshot
    ensures var r := RetryLoop(entries, snapshot, files, patterns, driveIds, now, deleteOk, retry, test);
            r.retried == CountFates(entries, snapshot, patterns, driveIds, now, deleteOk, retry, test, (f: RetryFate) => f.Refresh?)
            && r.stillPending
               == CountFates(entries, snapshot, patterns, driveIds, now, deleteOk, retry, test, (f: RetryFate) => f.KeepPending? || f.StillFailing?)
            && r.retried + r.stillPending <= |entries|
    decreases |entries|
  {
    if |entries| > 0 {
      var name := entries[0];
      var fate := FateOf(name, snapshot[name], patterns, driveIds, now, deleteOk, retry, test);
      RetryLoopCounts(entries[1..], snapshot, ApplyFate(files, name, fate), patterns, driveIds, now, deleteOk, retry, test);
    }
  }

  datatype RetryOutcome = RetryOutcome(noApiKey: bool, retried: nat, stillPending: nat, saved: Option<Settings>)

  /** Whether `order` enumerates the default store's tracking map, as `Object.entries` does. */
  ghost predicate EnumeratesFiles(order: seq<string>, settings: Settings) {
    DefaultStoreKey in settings.ragSettings ==>
      NoDup(order) && forall k :: k in order <==> k in settings.ragSettings[DefaultStoreKey].files
  }

  /** `handleRagAction("ragRetryPending", …)`; `remote` lists the rebuilt
      sync meta's `(fileId, name)` pairs. */
  function RagRetryPending(
    settings: Settings, apiKey: Option<string>, now: int, order: seq<string>, remote: seq<(string, string)>,
    deleteOk: string -> bool, retry: (string, string, Option<string>) -> Option<UploadResult>,
    test: (string, string) -> bool): (r: RetryOutcome)
    requires EnumeratesFiles(order, settings)
    ensures r.noApiKey <==> !Truthy(apiKey)
    ensures r.saved.Some? ==>
              Truthy(apiKey) && settings.ragRegistrationOnPush && DefaultStoreKey in settings.ragSettings
              && DefaultStoreKey in r.saved.value.ragSettings
              && var before := settings.ragSettings[DefaultStoreKey];
                 var after := r.saved.value.ragSettings[DefaultStoreKey];
                 var entries := PendingEntries(order, before.files, before.excludePatterns, test);
                 var tally := RetryLoop(entries, before.files, before.files, before.excludePatterns,
                                        NameIndex(remote), now, deleteOk, retry, test);
                 after == before.(files := tally.files)
                 && r.retried == tally.retried && r.stillPending == tally.stillPending
                 && (r.saved.value.ragEnabled <==> settings.ragEnabled || r.retried > 0)
    ensures r.saved.None? ==> r.retried == 0 && r.stillPending == 0
  {
    if !Truthy(apiKey) then RetryOutcome(true, 0, 0, None)
    else if !settings.ragRegistrationOnPush then RetryOutcome(false, 0, 0, None)
    else if DefaultStoreKey !in settings.ragSettings || settings.ragSettings[DefaultStoreKey].storeName == "" then
      RetryOutcome(false, 0, 0, None)
    else
      var rs := settings.ragSettings[DefaultStoreKey];
      var entries := PendingEntries(order, rs.files, rs.excludePatterns, test);
      if |entries| == 0 then RetryOutcome(false, 0, 0, None)
      else
        var tally := RetryLoop(entries, rs.files, rs.files, rs.excludePatterns, NameIndex(remote), now, deleteOk, retry, test);
        var enabled :=
          if tally.retried > 0 then
            settings.(ragEnabled := true,
                      selectedRagSetting := if settings.selectedRagSetting == "" then DefaultStoreKey else settings.selectedRagSetting)
          else settings;
        RetryOutcome(false, tally.retried, tally.stillPending,
                     Some(enabled.(ragSettings := settings.ragSettings[DefaultStoreKey := rs.(files := tally.files)])))
  }

  /** After a retry: untracked names are gone or pending (never re-registered),
      tracked pending names missing from Drive are gone, registered tracked
      names are untouched, and a successful re-registration is recorded. */
  lemma RetryOutcomePerName(
    settings: Settings, apiKey: Option<string>, now: int, order: seq<string>, remote: seq<(string, string)>,
    deleteOk: string -> bool, retry: (string, string, Option<string>) -> Option<UploadResult>,
    test: (string, string) -> bool, k: string)
    requires EnumeratesFiles(order, settings)
    requires RagRetryPending(settings, apiKey, now, order, remote, deleteOk, retry, test).saved.Some?
    ensures var before := settings.ragSettings[DefaultStoreKey];
            var after := RagRetryPending(settings, apiKey, now, order, remote, deleteOk, retry, test).saved.value.ragSettings[DefaultStoreKey];
            var ids := NameIndex(remote);
            var tracked := Tracked(k, before.excludePatterns, test);
            (k !in before.files ==> k !in after.files)
            && (k in before.files && !tracked ==> k !in after.files || after.files[k].status == Pending)
            && (k in before.files && tracked && before.files[k].status == Registered ==> k in after.files && after.files[k] == before.files[k])
            && (k in before.files && tracked && before.files[k].status == Pending && (k !in ids || ids[k] == "") ==> k !in after.files)
            && (k in before.files && tracked && before.files[k].status == Pending && k in ids && ids[k] != ""
                && retry(k, ids[k], before.files[k].fileId).Some? ==>
                  k in after.files && after.files[k].status == Registered
                  && after.files[k].checksum == retry(k, ids[k], before.files[k].fileId).value.checksum
                  && after.files[k].fileId == retry(k, ids[k], before.files[k].fileId).value.fileId)
  {
    var before := settings.ragSettings[DefaultStoreKey];
    var entries := PendingEntries(order, before.files, before.excludePatterns, test);
    RetryLoopPerName(entries, before.files, before.files, before.excludePatterns, NameIndex(remote), now, deleteOk, retry, test, k);
  }
}
