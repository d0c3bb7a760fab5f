/** The two server-sent events through which a running workflow tells the
    client about Drive files it changed: `drive-file-updated` and
    `drive-file-created`. Each handler is a fixed list of steps against the
    client's stores; a step may throw, and then the remaining steps are
    skipped and the error is swallowed. */
module DriveFileSse {
  import opened Wrappers
  import opened UseSync

  datatype UiEvent = FileModified(fileId: string) | FileRestored(fileId: string, content: string) | SyncComplete

  /** One step of a handler. */
  datatype Action =
    | Boundary(fileId: string)                                   // a commit boundary in the edit history
    | SaveEdit(fileId: string, fileName: string, content: string) // a local edit entry
    | ReadCache(fileId: string)
    | WriteCache(fileId: string, file: CachedFile)
    | ReadMeta
    | WriteMeta(meta: LocalMeta)
    | Dispatch(event: UiEvent)

  function Perform(s: Stores, a: Action): (r: Stores)
    ensures r.localMeta == (if a.WriteMeta? then Some(a.meta) else s.localMeta)
    ensures r.cache == (if a.WriteCache? then s.cache[a.fileId := a.file] else s.cache)
    ensures r.history == (if a.SaveEdit? then s.history + {a.fileId} else s.history)
  {
    match a
    case SaveEdit(id, _, _) => s.(history := s.history + {id})
    case WriteCache(id, f) => s.(cache := s.cache[id := f])
    case WriteMeta(m) => s.(localMeta := Some(m))
    case _ => s
  }

  function RunAll(s: Stores, actions: seq<Action>): Stores
    decreases |actions|
  {
    if |actions| == 0 then s else Perform(RunAll(s, actions[..|actions| - 1]), actions[|actions| - 1])
  }

  /** A store no step of the list writes keeps its value. */
  lemma {:induction false} RunAllFrame(s: Stores, actions: seq<Action>)
    ensures (forall i :: 0 <= i < |actions| ==> !actions[i].WriteCache?) ==> RunAll(s, actions).cache == s.cache
    ensures (forall i :: 0 <= i < |actions| ==> !actions[i].WriteMeta?) ==> RunAll(s, actions).localMeta == s.localMeta
    ensures (forall i :: 0 <= i < |actions| ==> !actions[i].SaveEdit?) ==> RunAll(s, actions).history == s.history
    decreases |actions|
  {
    if |actions| > 0 {
      RunAllFrame(s, actions[..|actions| - 1]);
    }
  }

  /** The handler's effect: the steps before the first throw, if any.
      `completed` is how many steps succeed. */
  datatype Outcome = Outcome(stores: Stores, performed: seq<Action>)

  function Run(s: Stores, steps: seq<Action>, completed: nat): (r: Outcome)
    ensures |r.performed| == (if completed < |steps| then completed else |steps|)
    ensures r.performed == steps[..|r.performed|]
    ensures r.stores == RunAll(s, r.performed)
  {
    var n := if completed < |steps| then completed else |steps|;
    Outcome(RunAll(s, steps[..n]), steps[..n])
  }

  // ---------------------------------------------------------------------
  // drive-file-updated

  datatype Updated = Updated(fileId: string, fileName: string, content: string)

  /** The new cache entry: the new content and name, the cached checksum and time kept. */
  function UpdatedEntry(s: Stores, ev: Updated): CachedFile {
    var prev := if ev.fileId in s.cache then Some(s.cache[ev.fileId]) else None;
    CachedFile(ev.content,
               if prev.Some? then prev.value.md5Checksum else "",
               if prev.Some? then prev.value.modifiedTime else "",
               Some(ev.fileName))
  }

  /** The steps of the `drive-file-updated` handler: the edit and the cache
      write sit between two commit boundaries. */
  function UpdatedSteps(s: Stores, ev: Updated): (r: seq<Action>)
    ensures |r| == 7
    ensures r[0] == Boundary(ev.fileId) && r[4] == Boundary(ev.fileId)
    ensures r[1] == SaveEdit(ev.fileId, ev.fileName, ev.content)
    ensures r[3].WriteCache? && r[3].fileId == ev.fileId
    ensures forall i :: 0 <= i < |r| && i != 3 ==> !r[i].WriteCache?
    ensures forall i :: 0 <= i < |r| ==> !r[i].WriteMeta?
    ensures forall i :: 0 <= i < |r| && i != 1 ==> !r[i].SaveEdit?
  {
    [Boundary(ev.fileId), SaveEdit(ev.fileId, ev.fileName, ev.content), ReadCache(ev.fileId),
     WriteCache(ev.fileId, UpdatedEntry(s, ev)), Boundary(ev.fileId),
     Dispatch(FileModified(ev.fileId)), Dispatch(FileRestored(ev.fileId, ev.content))]
  }

  function OnUpdated(s: Stores, ev: Updated, completed: nat): Outcome {
    Run(s, UpdatedSteps(s, ev), completed)
  }

  /** Once the cache write went through, the entry holds the new content and
      name with the previously cached checksum and time (or `""`), and the
      file has a local edit; the snapshot is never touched. */
  lemma UpdatedKeepsChecksum(s: Stores, ev: Updated, completed: nat)
    requires completed >= 4
    ensures var r := OnUpdated(s, ev, completed).stores;
            ev.fileId in r.cache
            && r.cache[ev.fileId].content == ev.content
            && r.cache[ev.fileId].fileName == Some(ev.fileName)
            && r.cache[ev.fileId].md5Checksum == (if ev.fileId in s.cache then s.cache[ev.fileId].md5Checksum else "")
            && r.cache[ev.fileId].modifiedTime == (if ev.fileId in s.cache then s.cache[ev.fileId].modifiedTime else "")
            && (forall id :: id != ev.fileId && id in s.cache ==> id in r.cache && r.cache[id] == s.cache[id])
            && r.history == s.history + {ev.fileId}
            && r.localMeta == s.localMeta
  {
    var steps := UpdatedSteps(s, ev);
    var n := if completed < 7 then completed else 7;
    var head := steps[..4];
    var s4 := RunAll(s, head);
    RunFour(s, steps);
    RunAllSplit(s, steps[..n], 4);
    assert steps[..n][..4] == head;
    RunAllFrame(s4, steps[..n][4..]);
  }

  /** Running a list is running its head, then its tail. */
  lemma {:induction false} RunAllSplit(s: Stores, actions: seq<Action>, k: nat)
    requires k <= |actions|
    ensures RunAll(s, actions) == RunAll(RunAll(s, actions[..k]), actions[k..])
    decreases |actions|
  {
    if k < |actions| {
      var init := actions[..|actions| - 1];
      RunAllSplit(s, init, k);
      assert init[..k] == actions[..k];
      assert actions[k..][..|actions[k..]| - 1] == init[k..];
    } else {
      assert actions[..k] == actions;
    }
  }

  /** One more step of a prefix. */
  lemma RunNext(s: Stores, a: seq<Action>, k: nat)
    requires k < |a|
    ensures RunAll(s, a[..k + 1]) == Perform(RunAll(s, a[..k]), a[k])
  {
    assert a[..k + 1][..k] == a[..k];
  }

  /** The state after the first four steps, one step at a time. */
  lemma RunFour(s: Stores, a: seq<Action>)
    requires |a| >= 4
    ensures RunAll(s, a[..3]) == Perform(Perform(Perform(s, a[0]), a[1]), a[2])
    ensures RunAll(s, a[..4]) == Perform(Perform(Perform(Perform(s, a[0]), a[1]), a[2]), a[3])
  {
    assert a[..0] == [];
    RunNext(s, a, 0);
    RunNext(s, a, 1);
    RunNext(s, a, 2);
    RunNext(s, a, 3);
  }

  /** A throw before the cache write leaves the cache as it was. */
  lemma UpdatedFailureKeepsCache(s: Stores, ev: Updated, completed: nat)
    requires completed < 4
    ensures OnUpdated(s, ev, completed).stores.cache == s.cache
    ensures OnUpdated(s, ev, completed).stores.localMeta == s.localMeta
  {
    var steps := UpdatedSteps(s, ev);
    RunAllFrame(s, steps[..completed]);
  }

  // ---------------------------------------------------------------------
  // drive-file-created

  datatype Created = Created(fileId: string, fileName: string, content: string, md5Checksum: string, modifiedTime: string)

  /** The snapshot after the event: an absent one is created with `nowIso`;
      only the created file's entry changes. */
  function CreatedMeta(s: Stores, ev: Created, nowIso: string): (r: LocalMeta)
    ensures r.files == LocalFiles(s.localMeta)[ev.fileId := LocalEntry(ev.md5Checksum, ev.modifiedTime)]
    ensures r.lastUpdatedAt == if s.localMeta.Some? then s.localMeta.value.lastUpdatedAt else nowIso
  {
    var base := if s.localMeta.Some? then s.localMeta.value else LocalMeta(nowIso, map[]);
    base.(files := base.files[ev.fileId := LocalEntry(ev.md5Checksum, ev.modifiedTime)])
  }

  function CreatedSteps(s: Stores, ev: Created, nowIso: string): (r: seq<Action>)
    ensures |r| == 4
    ensures r[0] == WriteCache(ev.fileId, CachedFile(ev.content, ev.md5Checksum, ev.modifiedTime, Some(ev.fileName)))
    ensures r[2] == WriteMeta(CreatedMeta(s, ev, nowIso))
    ensures forall i :: 0 <= i < |r| ==> !r[i].SaveEdit?
  {
    [WriteCache(ev.fileId, CachedFile(ev.content, ev.md5Checksum, ev.modifiedTime, Some(ev.fileName))),
     ReadMeta, WriteMeta(CreatedMeta(s, ev, nowIso)), Dispatch(SyncComplete)]
  }

  function OnCreated(s: Stores, ev: Created, nowIso: string, completed: nat): Outcome {
    Run(s, CreatedSteps(s, ev, nowIso), completed)
  }

  /** A completed `drive-file-created` caches the file as sent and records
      it in the snapshot, leaving every other entry and the edit history alone. */
  lemma CreatedRecordsFile(s: Stores, ev: Created, nowIso: string, completed: nat)
    requires completed >= 3
    ensures var r := OnCreated(s, ev, nowIso, completed).stores;
            r.cache == s.cache[ev.fileId := CachedFile(ev.content, ev.md5Checksum, ev.modifiedTime, Some(ev.fileName))]
            && r.localMeta.Some?
            && r.localMeta.value.files == LocalFiles(s.localMeta)[ev.fileId := LocalEntry(ev.md5Checksum, ev.modifiedTime)]
            && r.history == s.history
  {
    var steps := CreatedSteps(s, ev, nowIso);
    var n := if completed < 4 then completed else 4;
    RunAllSplit(s, steps[..n], 3);
    assert steps[..n][..3] == steps[..3];
    RunFour(s, steps);
    var s3 := RunAll(s, steps[..3]);
    RunAllFrame(s3, steps[..n][3..]);
    RunAllFrame(s, steps[..n]);
  }

  /** A throw at the cache write changes nothing; one before the snapshot
      write leaves the snapshot alone. */
  lemma CreatedFailureFrames(s: Stores, ev: Created, nowIso: string, completed: nat)
    ensures completed == 0 ==> OnCreated(s, ev, nowIso, completed).stores == s
    ensures completed < 3 ==> OnCreated(s, ev, nowIso, completed).stores.localMeta == s.localMeta
  {
    var steps := CreatedSteps(s, ev, nowIso);
    if completed < 3 {
      RunAllFrame(s, steps[..completed]);
    }
  }
}
