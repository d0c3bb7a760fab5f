/** The client's sync actions (`push`, `pull`, `resolveConflict`,
    `fullPull`, `fullPush`) as transitions over the client's stores: the
    local sync snapshot, the file cache and the edit history. Every reply
    from the server or from Drive is a parameter. */
module UseSync {
  import opened Wrappers
  import opened Text
  import opened RagEligibility
  import opened SyncRag
  import opened RagSyncClient
  import SM = SyncMeta

  datatype SyncStatus = Idle | Pushing | Pulling | Conflict | Error

  /** The client's record of one synced file. */
  datatype LocalEntry = LocalEntry(md5Checksum: string, modifiedTime: string)

  datatype LocalMeta = LocalMeta(lastUpdatedAt: string, files: map<string, LocalEntry>)

  datatype CachedFile = CachedFile(content: string, md5Checksum: string, modifiedTime: string, fileName: Option<string>)

  /** The client's persistent stores, keyed by Drive file id; `history`
      holds the ids that have a local edit history. */
  datatype Stores = Stores(localMeta: Option<LocalMeta>, cache: map<string, CachedFile>, history: set<string>)

  /** What the hook shows: status, error message and open conflicts. */
  datatype View = View(status: SyncStatus, error: Option<string>, conflicts: seq<SM.Conflict>)

  /** An ok `diff` reply; a non-ok reply is `None` where one is expected. */
  datatype DiffReply = DiffReply(diff: SM.SyncDiff, remoteMeta: Option<SM.Meta>)

  /** A file as the server sends it back on a pull or a resolve. */
  datatype PulledFile = PulledFile(fileId: string, content: string, md5Checksum: string,
                                   modifiedTime: string, fileName: Option<string>)

  function LocalFiles(meta: Option<LocalMeta>): map<string, LocalEntry> {
    if meta.Some? then meta.value.files else map[]
  }

  // ---------------------------------------------------------------------
  // The push gate

  datatype Gate = Proceed | DiffFailed | HaltConflicts(conflicts: seq<SM.Conflict>) | Rejected

  /** The server snapshot is newer than the client's and has something to pull. */
  predicate RemoteIsAhead(reply: DiffReply, local: LocalMeta) {
    reply.remoteMeta.Some? && reply.remoteMeta.value.lastUpdatedAt != ""
    && local.lastUpdatedAt != ""
    && StrLess(local.lastUpdatedAt, reply.remoteMeta.value.lastUpdatedAt)
    && (|reply.diff.toPull| > 0 || |reply.diff.remoteOnly| > 0)
  }

  /** The checks `push` makes before writing anything; without a local
      snapshot no diff is requested and nothing is checked. */
  function PushGate(localMeta: Option<LocalMeta>, diff: Option<DiffReply>): (r: Gate)
    ensures localMeta.None? ==> r == Proceed
    ensures r.DiffFailed? <==> localMeta.Some? && diff.None?
    ensures r.HaltConflicts? <==> localMeta.Some? && diff.Some? && |diff.value.diff.conflicts| > 0
    ensures r.HaltConflicts? ==> r.conflicts == diff.value.diff.conflicts
    ensures r.Rejected? <==> localMeta.Some? && diff.Some? && |diff.value.diff.conflicts| == 0
                             && RemoteIsAhead(diff.value, localMeta.value)
  {
    if localMeta.None? then Proceed
    else if diff.None? then DiffFailed
    else if |diff.value.diff.conflicts| > 0 then HaltConflicts(diff.value.diff.conflicts)
    else if RemoteIsAhead(diff.value, localMeta.value) then Rejected
    else Proceed
  }

  /** A client whose snapshot is newer than the server's is never rejected. */
  lemma NewerClientNotRejected(local: LocalMeta, reply: DiffReply)
    requires reply.remoteMeta.Some? && StrLess(reply.remoteMeta.value.lastUpdatedAt, local.lastUpdatedAt)
    ensures PushGate(Some(local), Some(reply)) != Rejected
  {
    StrLessAsymmetric(reply.remoteMeta.value.lastUpdatedAt, local.lastUpdatedAt);
  }

  /** Only ids tracked in the cached server snapshot are pushed. */
  function TrackedModified(modified: seq<string>, cachedRemote: Option<SM.Meta>): (r: seq<string>)
    ensures forall id :: id in r <==> id in modified && id in SM.FilesOf(cachedRemote)
    ensures |r| <= |modified|
    ensures NoDup(modified) ==> NoDup(r)
  {
    if |modified| == 0 then []
    else
      var rest := TrackedModified(modified[1..], cachedRemote);
      if modified[0] in SM.FilesOf(cachedRemote) then [modified[0]] + rest else rest
  }

  // ---------------------------------------------------------------------
  // The per-file push loop, shared by `push` and `fullPush`

  /** Drive's answer to one file update. */
  datatype DriveReply = Written(md5Checksum: string, modifiedTime: string) | NotOk | Threw(message: string)

  /** The fate of a request whose reply is read only when it is ok: the
      reply's body, a refusal, or the message of the exception it threw. */
  datatype Reply<T> = Got(body: T) | Refused | Raised(message: string)

  /** The file as sent for registration: its cached name, else its id. */
  function PushFileOf(fid: string, f: CachedFile): (r: PushFile)
    ensures r.fileName == f.fileName.GetOr(fid) && r.content == f.content
  {
    PushFile(fid, f.content, f.fileName.GetOr(fid))
  }

  /** The tracking update a file contributes once Drive accepted it: none
      for an ineligible name, else the one its registration answer calls for. */
  function UpdateOf(pf: PushFile, answer: PushFile -> RegisterAnswer, now: int): (r: Option<RagUpdate>)
    ensures r.Some? ==> IsRagEligible(r.value.fileName) && r.value.fileName == pf.fileName
    ensures !IsRagEligible(pf.fileName) ==> r == None
  {
    if IsRagEligible(pf.fileName) then UpdateFor(pf, answer(pf), now) else None
  }

  function PendingUpdate(fid: string, f: CachedFile, answer: PushFile -> RegisterAnswer, now: int): Option<RagUpdate> {
    UpdateOf(PushFileOf(fid, f), answer, now)
  }

  /** The registration of a cached file throws. Here, unlike in the RAG sync
      service, `tryRagRegister` catches nothing: `throws(f)` is the message of
      the exception when the request or the reading of its reply throws for
      `f`, and `answer(f)` is its reply otherwise, `Failed` when not ok.
      Only eligible files are registered. */
  predicate RegisterThrows(fid: string, f: CachedFile, throws: PushFile -> Option<string>) {
    IsRagEligible(PushFileOf(fid, f).fileName) && throws(PushFileOf(fid, f)).Some?
  }

  /** The loop writes a cached file: its registration returns and Drive accepts it. */
  predicate Pushed(fid: string, f: CachedFile, throws: PushFile -> Option<string>, drive: string -> DriveReply) {
    !RegisterThrows(fid, f, throws) && drive(fid).Written?
  }

  /** The document to clean up if Drive refuses the file: the one a fresh
      registration just created. */
  function PendingDocId(fid: string, f: CachedFile, answer: PushFile -> RegisterAnswer): Option<string> {
    var pf := PushFileOf(fid, f);
    var a := answer(pf);
    if IsRagEligible(pf.fileName) && a.Answered? && !a.skipped && a.info.Some? then a.info.value.fileId else None
  }

  datatype PushFailure = PushFailure(fileId: string, message: string, deletedDoc: Option<string>)

  datatype Progress = Progress(
    files: map<string, LocalEntry>,
    cache: map<string, CachedFile>,
    updates: seq<RagUpdate>,
    storeName: string,
    written: seq<string>,
    failure: Option<PushFailure>)

  /** The updates of the written files, in order. */
  function KeptUpdates(written: seq<string>, cache: map<string, CachedFile>,
                       answer: PushFile -> RegisterAnswer, now: int): (r: seq<RagUpdate>)
    requires forall id :: id in written ==> id in cache
    ensures |r| <= |written|
    ensures forall k :: 0 <= k < |r| ==> IsRagEligible(r[k].fileName)
    decreases |written|
  {
    if |written| == 0 then []
    else
      var last := written[|written| - 1];
      var u := PendingUpdate(last, cache[last], answer, now);
      KeptUpdates(written[..|written| - 1], cache, answer, now) + (if u.Some? then [u.value] else [])
  }

  /** The ids of a list that are cached, in order. */
  function CachedIds(ids: seq<string>, cache: map<string, CachedFile>): (r: seq<string>)
    ensures forall id :: id in r <==> id in ids && id in cache
    decreases |ids|
  {
    if |ids| == 0 then []
    else CachedIds(ids[..|ids| - 1], cache) + (if ids[|ids| - 1] in cache then [ids[|ids| - 1]] else [])
  }

  /** One iteration: uncached ids are skipped; the registration happens
      first, and a refused one cannot stop the push, but a thrown one stops
      it before Drive is asked; the update is kept only if Drive accepts the
      file. */
  function Step(p: Progress, fid: string, answer: PushFile -> RegisterAnswer, throws: PushFile -> Option<string>,
                drive: string -> DriveReply, now: int): (r: Progress)
    ensures fid !in p.cache ==> r == p
    ensures fid in p.cache && RegisterThrows(fid, p.cache[fid], throws) ==>
              r == p.(failure := Some(PushFailure(fid, throws(PushFileOf(fid, p.cache[fid])).value, None)))
    ensures fid in p.cache && Pushed(fid, p.cache[fid], throws, drive) ==>
              var d := drive(fid);
              var u := PendingUpdate(fid, p.cache[fid], answer, now);
              r.files == p.files[fid := LocalEntry(d.md5Checksum, d.modifiedTime)]
              && r.cache == p.cache[fid := p.cache[fid].(md5Checksum := d.md5Checksum, modifiedTime := d.modifiedTime)]
              && r.updates == p.updates + (if u.Some? then [u.value] else [])
              && r.written == p.written + [fid] && r.failure == p.failure
    ensures fid in p.cache && !RegisterThrows(fid, p.cache[fid], throws) && !drive(fid).Written? ==>
              var doc := PendingDocId(fid, p.cache[fid], answer);
              r.files == p.files && r.cache == p.cache && r.updates == p.updates && r.written == p.written
              && r.failure.Some? && r.failure.value.fileId == fid
              && r.failure.value.deletedDoc == (if Truthy(doc) then doc else None)
  {
    if fid !in p.cache then p
    else
      var f := p.cache[fid];
      var pf := PushFileOf(fid, f);
      if IsRagEligible(pf.fileName) && throws(pf).Some? then
        p.(failure := Some(PushFailure(fid, throws(pf).value, None)))
      else
        var store := if IsRagEligible(pf.fileName) && NamesStore(pf, answer) then answer(pf).storeName else p.storeName;
        var doc := PendingDocId(fid, f, answer);
        var toDelete := if Truthy(doc) then doc else None;
        match drive(fid)
        case Written(md5, mtime) =>
          var u := PendingUpdate(fid, f, answer, now);
          p.(files := p.files[fid := LocalEntry(md5, mtime)],
             cache := p.cache[fid := f.(md5Checksum := md5, modifiedTime := mtime)],
             updates := p.updates + (if u.Some? then [u.value] else []),
             storeName := store,
             written := p.written + [fid])
        case NotOk =>
          p.(storeName := store, failure := Some(PushFailure(fid, "Failed to update file " + pf.fileName, toDelete)))
        case Threw(msg) =>
          p.(storeName := store, failure := Some(PushFailure(fid, msg, toDelete)))
  }

  /** One step keeps the cached files' names and contents and adds at most
      its own id to the written ones. */
  lemma StepFrame(p: Progress, fid: string, answer: PushFile -> RegisterAnswer, throws: PushFile -> Option<string>,
                  drive: string -> DriveReply, now: int)
    ensures var r := Step(p, fid, answer, throws, drive, now);
            && r.cache.Keys == p.cache.Keys
            && (forall id :: id in r.cache ==> r.cache[id].content == p.cache[id].content
                                               && r.cache[id].fileName == p.cache[id].fileName)
            && (forall id :: id in r.written ==> id in p.written || (id == fid && fid in p.cache && Pushed(fid, p.cache[fid], throws, drive)))
  {
  }

  /** The loop over the ids to push, stopping at the first failure. */
  function PushLoop(ids: seq<string>, files0: map<string, LocalEntry>, cache0: map<string, CachedFile>,
                    answer: PushFile -> RegisterAnswer, throws: PushFile -> Option<string>,
                    drive: string -> DriveReply, now: int): (r: Progress)
    ensures r.cache.Keys == cache0.Keys
    ensures forall id :: id in r.cache ==> r.cache[id].content == cache0[id].content
                                           && r.cache[id].fileName == cache0[id].fileName
    ensures forall id :: id in r.written ==> id in ids && id in cache0 && Pushed(id, cache0[id], throws, drive)
    decreases |ids|
  {
    if |ids| == 0 then Progress(files0, cache0, [], "", [], None)
    else
      var init := ids[..|ids| - 1];
      var fid := ids[|ids| - 1];
      var p := PushLoop(init, files0, cache0, answer, throws, drive, now);
      if p.failure.Some? then p
      else
        StepFrame(p, fid, answer, throws, drive, now);
        assert fid in p.cache ==> PushFileOf(fid, p.cache[fid]) == PushFileOf(fid, cache0[fid]);
        Step(p, fid, answer, throws, drive, now)
  }

  /** The updates kept are exactly those of the written files. */
  lemma {:induction false} PushLoopUpdates(ids: seq<string>, files0: map<string, LocalEntry>, cache0: map<string, CachedFile>,
                                           answer: PushFile -> RegisterAnswer, throws: PushFile -> Option<string>,
                                           drive: string -> DriveReply, now: int)
    ensures var r := PushLoop(ids, files0, cache0, answer, throws, drive, now);
            r.updates == KeptUpdates(r.written, cache0, answer, now)
    decreases |ids|
  {
    if |ids| > 0 {
      var init := ids[..|ids| - 1];
      var fid := ids[|ids| - 1];
      PushLoopUpdates(init, files0, cache0, answer, throws, drive, now);
      var p := PushLoop(init, files0, cache0, answer, throws, drive, now);
      var r := PushLoop(ids, files0, cache0, answer, throws, drive, now);
      if p.failure.None? && fid in p.cache && Pushed(fid, p.cache[fid], throws, drive) {
        assert r == Step(p, fid, answer, throws, drive, now);
        var u := PendingUpdate(fid, p.cache[fid], answer, now);
        assert u == PendingUpdate(fid, cache0[fid], answer, now) by {
          assert PushFileOf(fid, p.cache[fid]) == PushFileOf(fid, cache0[fid]);
        }
        var w := p.written + [fid];
        assert r.written == w && r.updates == p.updates + (if u.Some? then [u.value] else []);
        assert w[..|w| - 1] == p.written && w[|w| - 1] == fid;
      } else {
        assert r.updates == p.updates && r.written == p.written;
      }
    }
  }

  /** The document a failed file leaves to clean up: none when its
      registration threw, else the one a fresh registration just created. */
  function FailedDocId(fid: string, f: CachedFile, answer: PushFile -> RegisterAnswer, throws: PushFile -> Option<string>): Option<string> {
    if RegisterThrows(fid, f, throws) then None
    else
      var doc := PendingDocId(fid, f, answer);
      if Truthy(doc) then doc else None
  }

  /** The loop stops at the first file whose registration throws or that
      Drive refuses, and cleans up the document registered for it; without
      a failure every cached id is written. */
  lemma {:induction false} PushLoopFailure(ids: seq<string>, files0: map<string, LocalEntry>, cache0: map<string, CachedFile>,
                                           answer: PushFile -> RegisterAnswer, throws: PushFile -> Option<string>,
                                           drive: string -> DriveReply, now: int)
    ensures var r := PushLoop(ids, files0, cache0, answer, throws, drive, now);
            (r.failure.None? ==> r.written == CachedIds(ids, cache0))
            && (r.failure.Some? ==>
                  var fid := r.failure.value.fileId;
                  fid in ids && fid in cache0 && !Pushed(fid, cache0[fid], throws, drive) && fid !in r.written
                  && r.failure.value.deletedDoc == FailedDocId(fid, cache0[fid], answer, throws)
                  && (RegisterThrows(fid, cache0[fid], throws) ==>
                        r.failure.value.message == throws(PushFileOf(fid, cache0[fid])).value))
    decreases |ids|
  {
    if |ids| > 0 {
      var init := ids[..|ids| - 1];
      var fid := ids[|ids| - 1];
      PushLoopFailure(init, files0, cache0, answer, throws, drive, now);
      var p := PushLoop(init, files0, cache0, answer, throws, drive, now);
      var r := PushLoop(ids, files0, cache0, answer, throws, drive, now);
      if p.failure.None? {
        assert r == Step(p, fid, answer, throws, drive, now);
        assert fid in p.cache ==> PushFileOf(fid, p.cache[fid]) == PushFileOf(fid, cache0[fid]);
        StepFailure(p, fid, cache0, answer, throws, drive, now);
        assert CachedIds(ids, cache0) == CachedIds(init, cache0) + (if fid in cache0 then [fid] else []);
      } else {
        assert r == p;
      }
    }
  }

  /** One step from a progress without failure, as `PushLoopFailure` needs it. */
  lemma StepFailure(p: Progress, fid: string, cache0: map<string, CachedFile>, answer: PushFile -> RegisterAnswer,
                    throws: PushFile -> Option<string>, drive: string -> DriveReply, now: int)
    requires p.failure.None? && p.cache.Keys == cache0.Keys
    requires fid in p.cache ==> PushFileOf(fid, p.cache[fid]) == PushFileOf(fid, cache0[fid])
    requires forall id :: id in p.written ==> id in cache0 && Pushed(id, cache0[id], throws, drive)
    ensures var r := Step(p, fid, answer, throws, drive, now);
            (r.failure.None? ==> r.written == p.written + (if fid in cache0 then [fid] else []))
            && (r.failure.Some? ==>
                  && r.failure.value.fileId == fid && fid in cache0 && !Pushed(fid, cache0[fid], throws, drive)
                  && fid !in r.written
                  && r.failure.value.deletedDoc == FailedDocId(fid, cache0[fid], answer, throws)
                  && (RegisterThrows(fid, cache0[fid], throws) ==>
                        r.failure.value.message == throws(PushFileOf(fid, cache0[fid])).value))
  {
    if fid in p.cache {
      assert RegisterThrows(fid, p.cache[fid], throws) == RegisterThrows(fid, cache0[fid], throws);
      assert Pushed(fid, p.cache[fid], throws, drive) == Pushed(fid, cache0[fid], throws, drive);
      assert PendingDocId(fid, p.cache[fid], answer) == PendingDocId(fid, cache0[fid], answer);
    }
  }

  /** One step, seen from one id: only a written id changes, and it takes
      Drive's checksum and time. */
  lemma StepRecords(p: Progress, fid: string, answer: PushFile -> RegisterAnswer, throws: PushFile -> Option<string>,
                    drive: string -> DriveReply, now: int, id: string)
    ensures var r := Step(p, fid, answer, throws, drive, now);
            var w := fid in p.cache && Pushed(fid, p.cache[fid], throws, drive);
            && r.written == (if w then p.written + [fid] else p.written)
            && (id in r.files <==> id in p.files || (w && id == fid))
            && (id in r.cache <==> id in p.cache)
            && (w && id == fid ==>
                  r.files[id] == LocalEntry(drive(id).md5Checksum, drive(id).modifiedTime)
                  && r.cache[id] == p.cache[id].(md5Checksum := drive(id).md5Checksum, modifiedTime := drive(id).modifiedTime))
            && (!(w && id == fid) ==> (id in p.files ==> r.files[id] == p.files[id]) && (id in p.cache ==> r.cache[id] == p.cache[id]))
  {
  }

  /** Drive's checksum and time for every written file reach the snapshot
      and the cache; every other entry stays as it was. */
  lemma {:induction false} PushLoopRecords(ids: seq<string>, files0: map<string, LocalEntry>, cache0: map<string, CachedFile>,
                                           answer: PushFile -> RegisterAnswer, throws: PushFile -> Option<string>,
                                           drive: string -> DriveReply, now: int, id: string)
    ensures var r := PushLoop(ids, files0, cache0, answer, throws, drive, now);
            (id in r.files <==> id in files0 || id in r.written)
            && (id in r.written ==>
                  r.files[id] == LocalEntry(drive(id).md5Checksum, drive(id).modifiedTime)
                  && r.cache[id] == cache0[id].(md5Checksum := drive(id).md5Checksum, modifiedTime := drive(id).modifiedTime))
            && (id !in r.written ==> (id in files0 ==> r.files[id] == files0[id]) && (id in cache0 ==> r.cache[id] == cache0[id]))
    decreases |ids|
  {
    if |ids| > 0 {
      var init := ids[..|ids| - 1];
      var fid := ids[|ids| - 1];
      PushLoopRecords(init, files0, cache0, answer, throws, drive, now, id);
      var p := PushLoop(init, files0, cache0, answer, throws, drive, now);
      var r := PushLoop(ids, files0, cache0, answer, throws, drive, now);
      if p.failure.None? {
        assert r == Step(p, fid, answer, throws, drive, now);
        StepRecords(p, fid, answer, throws, drive, now, id);
      } else {
        assert r == p;
      }
    }
  }

  lemma PushLoopRecordsAll(ids: seq<string>, files0: map<string, LocalEntry>, cache0: map<string, CachedFile>,
                           answer: PushFile -> RegisterAnswer, throws: PushFile -> Option<string>,
                           drive: string -> DriveReply, now: int)
    ensures var r := PushLoop(ids, files0, cache0, answer, throws, drive, now);
            forall id :: id in r.written ==>
              id in r.files && r.files[id] == LocalEntry(drive(id).md5Checksum, drive(id).modifiedTime)
  {
    forall id {
      PushLoopRecords(ids, files0, cache0, answer, throws, drive, now, id);
    }
  }

  /** Every kept update belongs to a file Drive accepted: no tracking entry
      outlives a failed write. */
  lemma {:induction false} UpdatesOnlyForWrittenFiles(written: seq<string>, cache: map<string, CachedFile>,
                                                      answer: PushFile -> RegisterAnswer, now: int, k: nat)
    requires forall id :: id in written ==> id in cache
    requires k < |KeptUpdates(written, cache, answer, now)|
    ensures exists id :: id in written && PendingUpdate(id, cache[id], answer, now).Some?
                         && KeptUpdates(written, cache, answer, now)[k] == PendingUpdate(id, cache[id], answer, now).value
    decreases |written|
  {
    var init := written[..|written| - 1];
    var last := written[|written| - 1];
    var before := KeptUpdates(init, cache, answer, now);
    if k < |before| {
      UpdatesOnlyForWrittenFiles(init, cache, answer, now, k);
      var id :| id in init && PendingUpdate(id, cache[id], answer, now).Some?
                && before[k] == PendingUpdate(id, cache[id], answer, now).value;
      assert id in written;
    } else {
      assert KeptUpdates(written, cache, answer, now)[k] == PendingUpdate(last, cache[last], answer, now).value;
    }
  }

  // ---------------------------------------------------------------------
  // push

  /** Everything `push` or `fullPush` leaves behind: the view, the stores,
      the ids written to Drive, the RAG requests and the documents deleted. */
  datatype PushOutcome = PushOutcome(view: View, stores: Stores, written: seq<string>,
                                     ragCalls: seq<RagCall>, deletedDocs: seq<string>)

  /** The client snapshot rebuilt from the server's: its checksums and times only. */
  function Rebuild(remote: SM.Meta): (r: LocalMeta)
    ensures r.lastUpdatedAt == remote.lastUpdatedAt && r.files.Keys == remote.files.Keys
  {
    LocalMeta(remote.lastUpdatedAt,
              map id | id in remote.files :: LocalEntry(remote.files[id].md5Checksum, remote.files[id].modifiedTime))
  }

  /** How the server reads a client entry when it computes a diff. */
  function AsSynced(e: LocalEntry): SM.FileSyncMeta {
    SM.FileSyncMeta("", "", e.md5Checksum, e.modifiedTime, None)
  }

  /** A rebuilt snapshot has nothing to push: against the server snapshot it
      came from, no file counts as changed by the client. */
  lemma RebuildNothingLocallyChanged(remote: SM.Meta, id: string)
    ensures var local := Rebuild(remote).files;
            !SM.LocalChanged(if id in local then Some(AsSynced(local[id])) else None, SM.Lookup(remote.files, id))
  {
  }

  function SavesOf(p: Progress): seq<RagCall> {
    if |p.updates| > 0 then [SaveCall(p.updates, p.storeName)] else []
  }

  function DeletedOf(p: Progress): seq<string> {
    if p.failure.Some? && p.failure.value.deletedDoc.Some? then [p.failure.value.deletedDoc.value] else []
  }

  /** The push loop over the tracked modified ids fails exactly when one
      of them is not pushed; otherwise it writes them all. */
  lemma PushLoopVerdict(modified: seq<string>, cachedRemote: Option<SM.Meta>, files0: map<string, LocalEntry>,
                        cache0: map<string, CachedFile>, answer: PushFile -> RegisterAnswer,
                        throws: PushFile -> Option<string>, drive: string -> DriveReply, now: int)
    ensures var p := PushLoop(TrackedModified(modified, cachedRemote), files0, cache0, answer, throws, drive, now);
            && (p.failure.None? <==> forall id :: id in modified && id in SM.FilesOf(cachedRemote) && id in cache0
                                                 ==> Pushed(id, cache0[id], throws, drive))
            && (p.failure.None? ==> forall id :: id in modified && id in SM.FilesOf(cachedRemote) && id in cache0
                                                ==> id in p.written)
  {
    var ids := TrackedModified(modified, cachedRemote);
    var p := PushLoop(ids, files0, cache0, answer, throws, drive, now);
    PushLoopFailure(ids, files0, cache0, answer, throws, drive, now);
    if p.failure.Some? {
      var fid := p.failure.value.fileId;
      assert fid in modified && fid in SM.FilesOf(cachedRemote) && fid in cache0 && !Pushed(fid, cache0[fid], throws, drive);
    } else {
      assert p.written == CachedIds(ids, cache0);
    }
  }

  /** The save request of a loop's progress carries the updates of the
      written files; no retry is among them. */
  lemma SavesOfWritten(p: Progress, cache0: map<string, CachedFile>, answer: PushFile -> RegisterAnswer, now: int)
    requires forall id :: id in p.written ==> id in cache0
    requires p.updates == KeptUpdates(p.written, cache0, answer, now)
    ensures forall c :: c in SavesOf(p) ==> c.SaveCall? && c.updates == KeptUpdates(p.written, cache0, answer, now)
    ensures forall c :: c in SavesOf(p) + [RetryCall] && c.SaveCall? ==> c.updates == KeptUpdates(p.written, cache0, answer, now)
    ensures RetryCall !in SavesOf(p)
  {
  }

  /** The client snapshot after a push: rebuilt from the server's when the
      rebuild request is ok and carries one, else unchanged. */
  function RebuiltMeta(rebuild: Reply<Option<SM.Meta>>, kept: Option<LocalMeta>): Option<LocalMeta> {
    if rebuild.Got? && rebuild.body.Some? then Some(Rebuild(rebuild.body.value)) else kept
  }

  /** Whether the batch save of the tracking updates is sent and rejects:
      it is sent only when the written files left some update, and `save`
      is the message of its rejection, if it rejects. */
  predicate SaveRejected(save: Option<string>, written: seq<string>, cache: map<string, CachedFile>,
                         answer: PushFile -> RegisterAnswer, now: int)
    requires forall id :: id in written ==> id in cache
  {
    save.Some? && KeptUpdates(written, cache, answer, now) != []
  }

  /** Every tracked, cached, locally modified file is pushed. */
  predicate AllTrackedPushed(modified: seq<string>, cachedRemote: Option<SM.Meta>, cache: map<string, CachedFile>,
                             throws: PushFile -> Option<string>, drive: string -> DriveReply)
  {
    forall id :: id in modified && id in SM.FilesOf(cachedRemote) && id in cache ==> Pushed(id, cache[id], throws, drive)
  }

  /** What `push` does once the gate lets it through: write the tracked
      modified files, then either report the first failure, or report a
      rejected batch save with the edit history kept, or forget the edit
      history and rebuild the snapshot. A rebuild request that throws still
      ends in an error, after the history is gone. */
  function PushWrites(view: View, stores: Stores, modified: seq<string>, cachedRemote: Option<SM.Meta>,
                      answer: PushFile -> RegisterAnswer, throws: PushFile -> Option<string>,
                      drive: string -> DriveReply, save: Option<string>, rebuild: Reply<Option<SM.Meta>>,
                      now: int): (r: PushOutcome)
    ensures r.view.status == Idle || r.view.status == Error
    ensures forall id :: id in r.written ==>
              id in modified && id in SM.FilesOf(cachedRemote) && id in stores.cache && Pushed(id, stores.cache[id], throws, drive)
    ensures r.view.status == Idle <==> !rebuild.Raised? && AllTrackedPushed(modified, cachedRemote, stores.cache, throws, drive)
                                       && !SaveRejected(save, r.written, stores.cache, answer, now)
    ensures AllTrackedPushed(modified, cachedRemote, stores.cache, throws, drive) ==>
              r.deletedDocs == []
              && (forall id :: id in modified && id in SM.FilesOf(cachedRemote) && id in stores.cache ==> id in r.written)
              && r.stores.history == (if SaveRejected(save, r.written, stores.cache, answer, now) then stores.history else {})
              && r.view.error == (if SaveRejected(save, r.written, stores.cache, answer, now) then save
                                  else if rebuild.Raised? then Some(rebuild.message) else None)
    ensures !AllTrackedPushed(modified, cachedRemote, stores.cache, throws, drive) ==>
              r.stores.history == stores.history
    ensures r.view.status == Idle ==>
              r.stores.localMeta == RebuiltMeta(rebuild, stores.localMeta)
              && |r.ragCalls| > 0 && r.ragCalls[|r.ragCalls| - 1] == RetryCall
    ensures r.view.status == Error ==>
              r.view.error.Some? && r.stores.localMeta == stores.localMeta && RetryCall !in r.ragCalls
    ensures forall c :: c in r.ragCalls && c.SaveCall? ==> c.updates == KeptUpdates(r.written, stores.cache, answer, now)
  {
    var ids := TrackedModified(modified, cachedRemote);
    var p := PushLoop(ids, LocalFiles(stores.localMeta), stores.cache, answer, throws, drive, now);
    PushLoopUpdates(ids, LocalFiles(stores.localMeta), stores.cache, answer, throws, drive, now);
    PushLoopVerdict(modified, cachedRemote, LocalFiles(stores.localMeta), stores.cache, answer, throws, drive, now);
    SavesOfWritten(p, stores.cache, answer, now);
    if p.failure.Some? then
      PushOutcome(View(Error, Some(p.failure.value.message), view.conflicts),
                  stores.(cache := p.cache), p.written, SavesOf(p), DeletedOf(p))
    else if |p.updates| > 0 && save.Some? then
      // the catch block sends the same save a second time
      PushOutcome(View(Error, save, view.conflicts), stores.(cache := p.cache), p.written,
                  SavesOf(p) + SavesOf(p), [])
    else if rebuild.Raised? then
      // the catch block sends the same save a second time
      PushOutcome(View(Error, Some(rebuild.message), view.conflicts), Stores(stores.localMeta, p.cache, {}), p.written,
                  SavesOf(p) + SavesOf(p), [])
    else
      PushOutcome(View(Idle, None, view.conflicts), Stores(RebuiltMeta(rebuild, stores.localMeta), p.cache, {}), p.written,
                  SavesOf(p) + [RetryCall], [])
  }

  /** `push`. `modified` lists the locally modified ids; `cachedRemote` is the
      cached server snapshot; `save` is the message of a rejected batch save
      of the tracking updates; `rebuild` is the fate of the request for the
      server snapshot sent after the writes. */
  function Push(view: View, stores: Stores, modified: seq<string>, cachedRemote: Option<SM.Meta>,
                diff: Option<DiffReply>, answer: PushFile -> RegisterAnswer, throws: PushFile -> Option<string>,
                drive: string -> DriveReply, save: Option<string>, rebuild: Reply<Option<SM.Meta>>, now: int): (r: PushOutcome)
    // conflicts halt the push before anything is written
    ensures stores.localMeta.Some? && diff.Some? && |diff.value.diff.conflicts| > 0 ==>
              r == PushOutcome(View(Conflict, None, diff.value.diff.conflicts), stores, [], [], [])
    // a newer server snapshot with changes to pull rejects the push
    ensures stores.localMeta.Some? && diff.Some? && |diff.value.diff.conflicts| == 0
            && RemoteIsAhead(diff.value, stores.localMeta.value) ==>
              r == PushOutcome(View(Error, Some("settings.sync.pushRejected"), view.conflicts), stores, [], [], [])
    // only locally modified, tracked, cached files whose registration returned are written
    ensures forall id :: id in r.written ==>
              id in modified && id in SM.FilesOf(cachedRemote) && id in stores.cache && Pushed(id, stores.cache[id], throws, drive)
    // a successful push writes every one of them, saves their tracking and forgets the edit history
    ensures r.view.status == Idle <==> PushGate(stores.localMeta, diff) == Proceed && !rebuild.Raised?
                                       && AllTrackedPushed(modified, cachedRemote, stores.cache, throws, drive)
                                       && !SaveRejected(save, r.written, stores.cache, answer, now)
    ensures r.view.status == Idle ==>
              r.view.error == None && r.stores.history == {} && r.deletedDocs == []
              && (forall id :: id in modified && id in SM.FilesOf(cachedRemote) && id in stores.cache ==> id in r.written)
              && r.stores.localMeta == RebuiltMeta(rebuild, stores.localMeta)
              && |r.ragCalls| > 0 && r.ragCalls[|r.ragCalls| - 1] == RetryCall
    // a rejected batch save fails the push with the edit history kept
    ensures PushGate(stores.localMeta, diff) == Proceed && AllTrackedPushed(modified, cachedRemote, stores.cache, throws, drive)
            && SaveRejected(save, r.written, stores.cache, answer, now) ==>
              r.view == View(Error, save, view.conflicts) && r.stores.history == stores.history
    // a thrown rebuild request fails the push after every file is written
    ensures PushGate(stores.localMeta, diff) == Proceed && rebuild.Raised?
            && AllTrackedPushed(modified, cachedRemote, stores.cache, throws, drive)
            && !SaveRejected(save, r.written, stores.cache, answer, now) ==>
              r.view == View(Error, Some(rebuild.message), view.conflicts) && r.stores.history == {}
    // a failed push keeps the snapshot, and keeps the edit history unless every file was written and tracked
    ensures r.view.status == Error ==>
              r.view.error.Some? && r.stores.localMeta == stores.localMeta && RetryCall !in r.ragCalls
              && r.stores.history == (if PushGate(stores.localMeta, diff) == Proceed
                                         && AllTrackedPushed(modified, cachedRemote, stores.cache, throws, drive)
                                         && !SaveRejected(save, r.written, stores.cache, answer, now)
                                      then {} else stores.history)
    // the tracking updates sent are those of written files only
    ensures forall c :: c in r.ragCalls && c.SaveCall? ==> c.updates == KeptUpdates(r.written, stores.cache, answer, now)
  {
    match PushGate(stores.localMeta, diff)
    case DiffFailed => PushOutcome(View(Error, Some("Failed to compute diff"), view.conflicts), stores, [], [], [])
    case HaltConflicts(cs) => PushOutcome(View(Conflict, None, cs), stores, [], [], [])
    case Rejected => PushOutcome(View(Error, Some("settings.sync.pushRejected"), view.conflicts), stores, [], [], [])
    case Proceed => PushWrites(view, stores, modified, cachedRemote, answer, throws, drive, save, rebuild, now)
  }

  // ---------------------------------------------------------------------
  // fullPush

  /** Every cached, locally modified file is pushed. */
  predicate AllModifiedPushed(modified: seq<string>, cache: map<string, CachedFile>,
                              throws: PushFile -> Option<string>, drive: string -> DriveReply)
  {
    forall id :: id in modified && id in cache ==> Pushed(id, cache[id], throws, drive)
  }

  /** `fullPush`: every locally modified id, no gate; once the tracking
      updates are saved, the client snapshot is saved with the new entries
      before the server is told; `save` is the message of a rejected batch
      save, and `final` is the fate of the last request, whose body is not
      read. */
  function FullPush(view: View, stores: Stores, modified: seq<string>,
                    answer: PushFile -> RegisterAnswer, throws: PushFile -> Option<string>, drive: string -> DriveReply,
                    save: Option<string>, final: Reply<()>, now: int, nowIso: string): (r: PushOutcome)
    ensures forall id :: id in r.written ==> id in modified && id in stores.cache && Pushed(id, stores.cache[id], throws, drive)
    ensures r.view.status == Idle || r.view.status == Error
    ensures r.view.status == Idle <==> final.Got? && AllModifiedPushed(modified, stores.cache, throws, drive)
                                       && !SaveRejected(save, r.written, stores.cache, answer, now)
    // once every write succeeded and the tracking was saved, the snapshot records each written file
    ensures AllModifiedPushed(modified, stores.cache, throws, drive) && !SaveRejected(save, r.written, stores.cache, answer, now) ==>
              r.stores.localMeta.Some? && r.stores.localMeta.value.lastUpdatedAt == nowIso
              && (forall id :: id in modified && id in stores.cache ==>
                    id in r.stores.localMeta.value.files
                    && r.stores.localMeta.value.files[id] == LocalEntry(drive(id).md5Checksum, drive(id).modifiedTime))
              && r.view.error == (if final.Got? then None else if final.Raised? then Some(final.message) else Some("Full push failed"))
    // a rejected batch save leaves the snapshot unsaved and reports its message
    ensures AllModifiedPushed(modified, stores.cache, throws, drive) && SaveRejected(save, r.written, stores.cache, answer, now) ==>
              r.stores.localMeta == stores.localMeta && r.view.error == save
    ensures r.view.status == Idle ==> r.stores.history == {} && r.view.error == None
    ensures r.view.status == Error ==> r.stores.history == stores.history && r.view.error.Some?
    ensures forall c :: c in r.ragCalls && c.SaveCall? ==> c.updates == KeptUpdates(r.written, stores.cache, answer, now)
  {
    var base := if stores.localMeta.Some? then stores.localMeta.value else LocalMeta(nowIso, map[]);
    var p := PushLoop(modified, base.files, stores.cache, answer, throws, drive, now);
    PushLoopUpdates(modified, base.files, stores.cache, answer, throws, drive, now);
    PushLoopFailure(modified, base.files, stores.cache, answer, throws, drive, now);
    PushLoopRecordsAll(modified, base.files, stores.cache, answer, throws, drive, now);
    if p.failure.Some? then
      PushOutcome(View(Error, Some(p.failure.value.message), view.conflicts),
                  stores.(cache := p.cache), p.written, SavesOf(p), DeletedOf(p))
    else if |p.updates| > 0 && save.Some? then
      // the catch block sends the same save a second time
      PushOutcome(View(Error, save, view.conflicts), stores.(cache := p.cache), p.written, SavesOf(p) + SavesOf(p), [])
    else
      var meta := LocalMeta(nowIso, p.files);
      if !final.Got? then
        // the catch block sends the same save a second time
        PushOutcome(View(Error, Some(if final.Raised? then final.message else "Full push failed"), view.conflicts),
                    stores.(localMeta := Some(meta), cache := p.cache), p.written, SavesOf(p) + SavesOf(p), [])
      else
        PushOutcome(View(Idle, None, view.conflicts), Stores(Some(meta), p.cache, {}), p.written,
                    SavesOf(p) + [RetryCall], [])
  }

  // ---------------------------------------------------------------------
  // pull

  function PulledIds(ps: seq<PulledFile>): (r: set<string>)
    ensures forall i :: 0 <= i < |ps| ==> ps[i].fileId in r
    decreases |ps|
  {
    if |ps| == 0 then {} else PulledIds(ps[..|ps| - 1]) + {ps[|ps| - 1].fileId}
  }

  /** `ps[i]` is the last pulled file with its id. */
  predicate LastFor(ps: seq<PulledFile>, i: int) {
    0 <= i < |ps| && forall j :: i < j < |ps| ==> ps[j].fileId != ps[i].fileId
  }

  /** Writes one value per pulled file into a store; a later file wins. */
  function Apply<V>(m: map<string, V>, ps: seq<PulledFile>, f: PulledFile -> V): (r: map<string, V>)
    ensures forall id :: id in r <==> id in m || id in PulledIds(ps)
    ensures forall i :: 0 <= i < |ps| ==> ps[i].fileId in r
    ensures forall i :: LastFor(ps, i) ==> r[ps[i].fileId] == f(ps[i])
    ensures forall id :: id in m && id !in PulledIds(ps) ==> r[id] == m[id]
    decreases |ps|
  {
    if |ps| == 0 then m
    else
      var init := ps[..|ps| - 1];
      var last := ps[|ps| - 1];
      var prev := Apply(m, init, f);
      assert forall i :: LastFor(ps, i) && i < |ps| - 1 ==> LastFor(init, i) by {
        forall i | LastFor(ps, i) && i < |ps| - 1 ensures LastFor(init, i) {
          forall j | i < j < |init| ensures init[j].fileId != init[i].fileId {
            assert init[j] == ps[j];
          }
        }
      }
      prev[last.fileId := f(last)]
  }

  function CachedOfPulled(p: PulledFile): CachedFile {
    CachedFile(p.content, p.md5Checksum, p.modifiedTime, p.fileName)
  }

  function EntryOfPulled(p: PulledFile): LocalEntry {
    LocalEntry(p.md5Checksum, p.modifiedTime)
  }

  /** Removal of the files the server no longer has, from every store. */
  function Cleanup(stores: Stores, ids: seq<string>, nowIso: string): (r: Stores)
    ensures forall id :: id in r.cache <==> id in stores.cache && id !in ids
    ensures forall id :: id in r.cache ==> r.cache[id] == stores.cache[id]
    ensures forall id :: id in r.history <==> id in stores.history && id !in ids
    ensures r.localMeta.Some? && r.localMeta.value.lastUpdatedAt == nowIso
    ensures forall id :: id in r.localMeta.value.files <==> id in LocalFiles(stores.localMeta) && id !in ids
    ensures forall id :: id in r.localMeta.value.files ==> r.localMeta.value.files[id] == LocalFiles(stores.localMeta)[id]
  {
    var gone := set id | id in ids;
    Stores(Some(LocalMeta(nowIso, LocalFiles(stores.localMeta) - gone)), stores.cache - gone, stores.history - gone)
  }

  datatype PullOutcome = PullOutcome(view: View, stores: Stores, requested: seq<string>)

  /** `pull`. `pulled` is the server's answer to the pull request, `None`
      when it fails. */
  function Pull(view: View, stores: Stores, diff: Option<DiffReply>, pulled: Option<seq<PulledFile>>,
                nowIso: string): (r: PullOutcome)
    ensures diff.None? ==> r == PullOutcome(View(Error, Some("Failed to compute diff"), view.conflicts), stores, [])
    ensures diff.Some? && |diff.value.diff.conflicts| > 0 ==>
              r == PullOutcome(View(Conflict, None, diff.value.diff.conflicts), stores, [])
    ensures diff.Some? && |diff.value.diff.conflicts| == 0 ==>
              var d := diff.value.diff;
              // what is fetched: the files to pull, then those only on the server
              r.requested == (if |d.toPull| + |d.remoteOnly| == 0 then [] else d.toPull + d.remoteOnly)
              && (r.view.status == Idle <==> |d.toPull| + |d.remoteOnly| == 0 || pulled.Some?)
              // files gone from the server leave the client too, unless pulled back
              && (forall id :: id in d.localOnly && !(pulled.Some? && id in PulledIds(pulled.value)) ==>
                    id !in r.stores.cache && id !in r.stores.history && id !in LocalFiles(r.stores.localMeta))
              // every pulled file is cached and recorded as synced
              && (r.view.status == Idle && r.requested != [] ==>
                    forall i :: LastFor(pulled.value, i) ==>
                      var p := pulled.value[i];
                      p.fileId in r.stores.cache && r.stores.cache[p.fileId] == CachedOfPulled(p)
                      && p.fileId in LocalFiles(r.stores.localMeta)
                      && LocalFiles(r.stores.localMeta)[p.fileId] == EntryOfPulled(p))
    ensures r.view.status != Error ==> r.view.error == None
  {
    if diff.None? then PullOutcome(View(Error, Some("Failed to compute diff"), view.conflicts), stores, [])
    else
      var d := diff.value.diff;
      if |d.conflicts| > 0 then PullOutcome(View(Conflict, None, d.conflicts), stores, [])
      else
        var s1 := if |d.localOnly| > 0 then Cleanup(stores, d.localOnly, nowIso) else stores;
        var wanted := d.toPull + d.remoteOnly;
        if |wanted| == 0 then PullOutcome(View(Idle, None, view.conflicts), s1, [])
        else if pulled.None? then PullOutcome(View(Error, Some("Failed to pull changes"), view.conflicts), s1, wanted)
        else
          var ps := pulled.value;
          var meta := LocalMeta(nowIso, Apply(LocalFiles(s1.localMeta), ps, EntryOfPulled));
          PullOutcome(View(Idle, None, view.conflicts),
                      Stores(Some(meta), Apply(s1.cache, ps, CachedOfPulled), s1.history), wanted)
  }

  // ---------------------------------------------------------------------
  // resolveConflict

  datatype Choice = KeepLocal | KeepRemote

  /** An ok `resolve` reply: the winning remote file, if sent, and the server snapshot. */
  datatype ResolveReply = ResolveReply(file: Option<PulledFile>, remoteMeta: Option<SM.Meta>)

  datatype ResolveOutcome = ResolveOutcome(view: View, stores: Stores, sentContent: Option<string>)

  function WithoutConflict(cs: seq<SM.Conflict>, fileId: string): (r: seq<SM.Conflict>)
    ensures forall c :: c in r <==> c in cs && c.fileId != fileId
    ensures |r| <= |cs|
  {
    if |cs| == 0 then []
    else (if cs[0].fileId != fileId then [cs[0]] else []) + WithoutConflict(cs[1..], fileId)
  }

  /** `resolveConflict`. `reply` is `None` when the request fails. */
  function ResolveConflict(view: View, stores: Stores, fileId: string, choice: Choice,
                           reply: Option<ResolveReply>, nowIso: string): (r: ResolveOutcome)
    // the local content goes along only when the remote side wins
    ensures r.sentContent.Some? <==> choice == KeepRemote && fileId in stores.cache
    ensures r.sentContent.Some? ==> r.sentContent.value == stores.cache[fileId].content
    ensures reply.None? ==> r.view.status == Error && r.stores == stores && r.view.conflicts == view.conflicts
    ensures reply.Some? ==>
              // exactly that file's conflict goes away
              (forall c :: c in r.view.conflicts <==> c in view.conflicts && c.fileId != fileId)
              // and the view is idle once none remain
              && (r.view.conflicts == [] ==> r.view.status == Idle)
              && (r.view.conflicts != [] ==> r.view.status == view.status)
              && r.view.error == None
              // the server's entry for the file is copied into an existing snapshot
              && (var rm := reply.value.remoteMeta;
                  if rm.Some? && stores.localMeta.Some? && fileId in rm.value.files then
                    r.stores.localMeta.Some? && r.stores.localMeta.value.lastUpdatedAt == nowIso
                    && r.stores.localMeta.value.files
                       == stores.localMeta.value.files[fileId := LocalEntry(rm.value.files[fileId].md5Checksum,
                                                                           rm.value.files[fileId].modifiedTime)]
                  else r.stores.localMeta == stores.localMeta)
              // only the winning remote file enters the cache
              && (choice == KeepLocal || reply.value.file.None? ==> r.stores.cache == stores.cache)
              && (choice == KeepRemote && reply.value.file.Some? ==>
                    r.stores.cache == stores.cache[reply.value.file.value.fileId := CachedOfPulled(reply.value.file.value)])
  {
    var sent := if choice == KeepRemote && fileId in stores.cache then Some(stores.cache[fileId].content) else None;
    if reply.None? then ResolveOutcome(view.(status := Error, error := Some("Failed to resolve conflict")), stores, sent)
    else
      var rep := reply.value;
      var cache := if choice == KeepRemote && rep.file.Some? then stores.cache[rep.file.value.fileId := CachedOfPulled(rep.file.value)]
                   else stores.cache;
      var meta :=
        if rep.remoteMeta.Some? && stores.localMeta.Some? && fileId in rep.remoteMeta.value.files then
          var e := rep.remoteMeta.value.files[fileId];
          Some(LocalMeta(nowIso, stores.localMeta.value.files[fileId := LocalEntry(e.md5Checksum, e.modifiedTime)]))
        else stores.localMeta;
      var rest := WithoutConflict(view.conflicts, fileId);
      ResolveOutcome(View(if |rest| == 0 then Idle else view.status, None, rest), stores.(localMeta := meta, cache := cache), sent)
  }

  /** Resolving the same file twice changes nothing more. */
  lemma {:induction false} ResolveTwiceSameConflicts(cs: seq<SM.Conflict>, fileId: string)
    ensures WithoutConflict(WithoutConflict(cs, fileId), fileId) == WithoutConflict(cs, fileId)
  {
    if |cs| > 0 {
      ResolveTwiceSameConflicts(cs[1..], fileId);
      var rest := WithoutConflict(cs[1..], fileId);
      if cs[0].fileId != fileId {
        assert WithoutConflict(cs, fileId) == [cs[0]] + rest;
        assert ([cs[0]] + rest)[1..] == rest;
      } else {
        assert WithoutConflict(cs, fileId) == rest;
      }
    }
  }

  // ---------------------------------------------------------------------
  // fullPull

  /** The checksums the client already holds, so the server can skip those files. */
  function SkipHashes(cache: map<string, CachedFile>): (r: map<string, string>)
    ensures forall id :: id in r <==> id in cache && cache[id].md5Checksum != ""
    ensures forall id :: id in r ==> r[id] == cache[id].md5Checksum
  {
    map id | id in cache && cache[id].md5Checksum != "" :: cache[id].md5Checksum
  }

  /** An ok `fullPull` reply: the downloaded files and the server snapshot. */
  datatype FullPullReply = FullPullReply(files: seq<PulledFile>, remoteMeta: SM.Meta)

  datatype FullPullOutcome = FullPullOutcome(view: View, stores: Stores, skipHashes: map<string, string>)

  /** `fullPull`: the client snapshot becomes the server's, skipped files included. */
  function FullPull(view: View, stores: Stores, reply: Option<FullPullReply>, nowIso: string): (r: FullPullOutcome)
    ensures r.skipHashes == SkipHashes(stores.cache)
    ensures reply.None? ==> r.view.status == Error && r.stores == stores
    ensures reply.Some? ==>
              r.view.status == Idle && r.view.error == None
              && r.stores.localMeta == Some(Rebuild(reply.value.remoteMeta).(lastUpdatedAt := nowIso))
              && r.stores.history == stores.history
              && (forall i :: LastFor(reply.value.files, i) ==>
                    reply.value.files[i].fileId in r.stores.cache
                    && r.stores.cache[reply.value.files[i].fileId] == CachedOfPulled(reply.value.files[i]))
              && (forall id :: id in stores.cache && id !in PulledIds(reply.value.files) ==>
                    id in r.stores.cache && r.stores.cache[id] == stores.cache[id])
  {
    var skip := SkipHashes(stores.cache);
    if reply.None? then FullPullOutcome(View(Error, Some("Full pull failed"), view.conflicts), stores, skip)
    else
      var meta := LocalMeta(nowIso, Rebuild(reply.value.remoteMeta).files);
      FullPullOutcome(View(Idle, None, view.conflicts),
                      Stores(Some(meta), Apply(stores.cache, reply.value.files, CachedOfPulled), stores.history), skip)
  }

  /** After a full pull the client agrees with the server snapshot on every file. */
  lemma FullPullNothingLocallyChanged(view: View, stores: Stores, reply: FullPullReply, nowIso: string, id: string)
    ensures var local := LocalFiles(FullPull(view, stores, Some(reply), nowIso).stores.localMeta);
            (id in local <==> id in reply.remoteMeta.files)
            && !SM.LocalChanged(if id in local then Some(AsSynced(local[id])) else None, SM.Lookup(reply.remoteMeta.files, id))
  {
    RebuildNothingLocallyChanged(reply.remoteMeta, id);
  }
}
