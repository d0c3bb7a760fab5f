/** The server-side sync snapshot (`_sync-meta.json`) and the three-way
    diff between the client's last snapshot, the server's last snapshot and
    the current Drive listing. */
module SyncMeta {
  import opened Wrappers
  import opened Text

  const SyncMetaFile: string := "_sync-meta.json"
  const SettingsFile: string := "settings.json"

  /** Files that never take part in a sync diff. */
  predicate IsSystemFileName(name: string) {
    name == SyncMetaFile || name == SettingsFile
  }

  /** One entry of the snapshot, keyed by Drive file id. */
  datatype FileSyncMeta = FileSyncMeta(
    name: string,
    mimeType: string,
    md5Checksum: string,
    modifiedTime: string,
    createdTime: Option<string>)

  datatype Meta = Meta(lastUpdatedAt: string, files: map<string, FileSyncMeta>)

  /** A file as the Drive listing reports it; Drive may omit checksum and times. */
  datatype DriveFile = DriveFile(
    id: string,
    name: string,
    mimeType: string,
    md5Checksum: Option<string>,
    modifiedTime: Option<string>,
    createdTime: Option<string>)

  datatype Conflict = Conflict(
    fileId: string,
    fileName: string,
    localChecksum: string,
    remoteChecksum: string,
    localModifiedTime: string,
    remoteModifiedTime: string)

  datatype SyncDiff = SyncDiff(
    toPush: seq<string>,
    toPull: seq<string>,
    conflicts: seq<Conflict>,
    localOnly: seq<string>,
    remoteOnly: seq<string>)

  /** The files of a possibly missing snapshot (`meta?.files ?? {}`). */
  function FilesOf(meta: Option<Meta>): map<string, FileSyncMeta> {
    if meta.Some? then meta.value.files else map[]
  }

  /** The snapshot entry recorded for a Drive file. */
  function EntryFor(file: DriveFile): FileSyncMeta {
    FileSyncMeta(file.name, file.mimeType, file.md5Checksum.GetOr(""),
                 file.modifiedTime.GetOr(""), file.createdTime)
  }

  // ---------------------------------------------------------------------
  // Snapshot updates

  /** `upsertFileInMeta`: records `file` under its id and stamps the snapshot
      with `now`; a missing snapshot starts empty. */
  function Upsert(meta: Option<Meta>, file: DriveFile, now: string): (r: Meta)
    ensures r.lastUpdatedAt == now
    ensures file.id in r.files
    ensures r.files[file.id].name == file.name && r.files[file.id].mimeType == file.mimeType
    ensures r.files[file.id].md5Checksum == (if file.md5Checksum.Some? then file.md5Checksum.value else "")
    ensures r.files[file.id].modifiedTime == (if file.modifiedTime.Some? then file.modifiedTime.value else "")
    ensures r.files[file.id].createdTime == file.createdTime
    ensures forall k :: k != file.id ==> (k in r.files <==> k in FilesOf(meta))
    ensures forall k :: k != file.id && k in r.files ==> r.files[k] == FilesOf(meta)[k]
  {
    Meta(now, FilesOf(meta)[file.id := EntryFor(file)])
  }

  /** `removeFileFromMeta`: drops one id and stamps the snapshot with `now`. */
  function Remove(meta: Option<Meta>, fileId: string, now: string): (r: Meta)
    ensures r.lastUpdatedAt == now
    ensures fileId !in r.files
    ensures forall k :: k != fileId ==> (k in r.files <==> k in FilesOf(meta))
    ensures forall k :: k != fileId && k in r.files ==> r.files[k] == FilesOf(meta)[k]
  {
    Meta(now, FilesOf(meta) - {fileId})
  }

  /** Removing a freshly upserted id restores the original entries. */
  lemma RemoveUndoesUpsert(meta: Option<Meta>, file: DriveFile, t1: string, t2: string)
    requires file.id !in FilesOf(meta)
    ensures Remove(Some(Upsert(meta, file, t1)), file.id, t2).files == FilesOf(meta)
  {
    assert Remove(Some(Upsert(meta, file, t1)), file.id, t2).files == FilesOf(meta)[file.id := EntryFor(file)] - {file.id};
  }

  /** Upserting the same file twice is the same as upserting it once. */
  lemma UpsertIdempotent(meta: Option<Meta>, file: DriveFile, t1: string, t2: string)
    ensures Upsert(Some(Upsert(meta, file, t1)), file, t2) == Upsert(meta, file, t2)
  {
  }

  // ---------------------------------------------------------------------
  // Conflict backup naming

  /** Drops every `-` and `:` (`replace(/[-:]/g, "")`). */
  function DropDashColon(s: string): (r: string)
    ensures '-' !in r && ':' !in r
    ensures |r| <= |s|
  {
    if |s| == 0 then ""
    else if s[0] == '-' || s[0] == ':' then DropDashColon(s[1..])
    else [s[0]] + DropDashColon(s[1..])
  }

  lemma {:induction false} DropDashColonAppend(a: string, b: string)
    ensures DropDashColon(a + b) == DropDashColon(a) + DropDashColon(b)
  {
    if |a| == 0 {
      assert a + b == b;
    } else {
      assert (a + b)[1..] == a[1..] + b;
      DropDashColonAppend(a[1..], b);
    }
  }

  /** Replaces the first `c` by `d` (`replace("T", "_")`). */
  function ReplaceFirst(s: string, c: char, d: char): (r: string)
    ensures |r| == |s|
  {
    if |s| == 0 then ""
    else if s[0] == c then [d] + s[1..]
    else [s[0]] + ReplaceFirst(s[1..], c, d)
  }

  /** The 15-character stamp `YYYYMMDD_HHMMSS` cut from an ISO timestamp. */
  function StampOf(iso: string): string {
    var t := ReplaceFirst(DropDashColon(iso), 'T', '_');
    if |t| <= 15 then t else t[..15]
  }

  /** `Date.toISOString()` output: `YYYY-MM-DDTHH:MM:SS` then a fraction and zone. */
  predicate IsIsoTimestamp(iso: string) {
    |iso| >= 19
    && iso[4] == '-' && iso[7] == '-' && iso[10] == 'T' && iso[13] == ':' && iso[16] == ':'
    && AllDigits(iso[0..4]) && AllDigits(iso[5..7]) && AllDigits(iso[8..10])
    && AllDigits(iso[11..13]) && AllDigits(iso[14..16]) && AllDigits(iso[17..19])
  }

  /** An `_YYYYMMDD_HHMMSS`-shaped stamp without its leading underscore. */
  predicate IsStamp(ts: string) {
    |ts| == 15 && ts[8] == '_' && AllDigits(ts[..8]) && AllDigits(ts[9..])
  }

  lemma {:induction false} DigitsKept(s: string)
    requires AllDigits(s)
    ensures DropDashColon(s) == s
  {
    if |s| > 0 {
      assert AllDigits(s[1..]);
      DigitsKept(s[1..]);
      assert s == [s[0]] + s[1..];
    }
  }

  /** Digits up to a separator survive and the separator goes. */
  lemma DropUpTo(s: string, i: nat, j: nat)
    requires i <= j < |s| && AllDigits(s[i..j])
    ensures s[j] == '-' || s[j] == ':' ==> DropDashColon(s[i..]) == s[i..j] + DropDashColon(s[j + 1..])
    ensures s[j] == 'T' ==> DropDashColon(s[i..]) == s[i..j] + "T" + DropDashColon(s[j + 1..])
  {
    assert s[i..] == s[i..j] + ([s[j]] + s[j + 1..]);
    DropDashColonAppend(s[i..j], [s[j]] + s[j + 1..]);
    DigitsKept(s[i..j]);
    assert ([s[j]] + s[j + 1..])[1..] == s[j + 1..];
  }

  /** The time half: `HH:MM:SS` loses its colons. */
  lemma DropIsoTime(iso: string)
    requires IsIsoTimestamp(iso)
    ensures DropDashColon(iso[11..]) == iso[11..13] + iso[14..16] + iso[17..19] + DropDashColon(iso[19..])
  {
    var tail := DropDashColon(iso[19..]);
    var t17 := DropDashColon(iso[17..]);
    assert t17 == iso[17..19] + tail by {
      assert iso[17..] == iso[17..19] + iso[19..];
      DropDashColonAppend(iso[17..19], iso[19..]);
      DigitsKept(iso[17..19]);
    }
    var t14 := DropDashColon(iso[14..]);
    assert t14 == iso[14..16] + t17 by { DropUpTo(iso, 14, 16); }
    assert DropDashColon(iso[11..]) == iso[11..13] + t14 by { DropUpTo(iso, 11, 13); }
  }

  /** The date half: `YYYY-MM-DD` loses its dashes and the `T` stays. */
  lemma DropIsoDate(iso: string)
    requires IsIsoTimestamp(iso)
    ensures DropDashColon(iso) == (iso[0..4] + iso[5..7] + iso[8..10]) + "T" + DropDashColon(iso[11..])
  {
    var t8 := DropDashColon(iso[8..]);
    assert t8 == iso[8..10] + "T" + DropDashColon(iso[11..]) by { DropUpTo(iso, 8, 10); }
    var t5 := DropDashColon(iso[5..]);
    assert t5 == iso[5..7] + t8 by { DropUpTo(iso, 5, 7); }
    assert DropDashColon(iso) == iso[0..4] + t5 by {
      DropUpTo(iso, 0, 4);
      assert iso[0..] == iso;
    }
  }

  /** Dropping the separators of an ISO timestamp leaves the date digits,
      the `T`, the time digits and whatever follows the seconds. */
  lemma DropIsoSeparators(iso: string)
    requires IsIsoTimestamp(iso)
    ensures DropDashColon(iso)
            == (iso[0..4] + iso[5..7] + iso[8..10]) + "T"
               + (iso[11..13] + iso[14..16] + iso[17..19] + DropDashColon(iso[19..]))
  {
    DropIsoDate(iso);
    DropIsoTime(iso);
  }

  /** An ISO timestamp yields a well-formed stamp made of its date and time digits. */
  lemma IsoStampShape(iso: string)
    requires IsIsoTimestamp(iso)
    ensures IsStamp(StampOf(iso))
    ensures StampOf(iso) == iso[0..4] + iso[5..7] + iso[8..10] + "_" + iso[11..13] + iso[14..16] + iso[17..19]
  {
    var date := iso[0..4] + iso[5..7] + iso[8..10];
    var time := iso[11..13] + iso[14..16] + iso[17..19];
    var rest := time + DropDashColon(iso[19..]);
    DropIsoSeparators(iso);
    assert DropDashColon(iso) == date + "T" + rest;
    assert AllDigits(date);
    ReplaceFirstAfterDigits(date, rest);
    assert (date + "_" + rest)[..15] == date + "_" + time;
    assert AllDigits(time);
  }

  lemma {:induction false} ReplaceFirstAfterDigits(p: string, q: string)
    requires AllDigits(p)
    ensures ReplaceFirst(p + "T" + q, 'T', '_') == p + "_" + q
  {
    if |p| == 0 {
      assert p + "T" + q == "T" + q;
      assert ("T" + q)[1..] == q;
    } else {
      assert (p + "T" + q)[1..] == p[1..] + "T" + q;
      assert AllDigits(p[1..]);
      ReplaceFirstAfterDigits(p[1..], q);
    }
  }

  /** `saveConflictBackup`'s file name: slashes become underscores and `_<ts>`
      goes before the last dot when that dot is not the first character. */
  function BackupName(fileName: string, ts: string): (r: string)
    ensures var safe := ReplaceChar(fileName, '/', '_');
            var dot := LastIndexOf(safe, '.');
            if dot > 0 then r == safe[..dot] + "_" + ts + safe[dot..] && |r| == |safe| + 1 + |ts|
            else StartsWith(r, safe) && r[|safe|..] == "_" + ts
  {
    var safe := ReplaceChar(fileName, '/', '_');
    var dot := LastIndexOf(safe, '.');
    if dot > 0 then safe[..dot] + "_" + ts + safe[dot..] else safe + "_" + ts
  }

  /** A backup name holds no slash unless the stamp brings one. */
  lemma BackupNameSlashFree(fileName: string, ts: string)
    requires '/' !in ts
    ensures '/' !in BackupName(fileName, ts)
  {
    var safe := ReplaceChar(fileName, '/', '_');
    assert '/' !in safe by {
      forall i | 0 <= i < |safe| ensures safe[i] != '/' { }
    }
    var dot := LastIndexOf(safe, '.');
    if dot > 0 {
      assert safe == safe[..dot] + safe[dot..];
      assert '/' !in safe[..dot] && '/' !in safe[dot..];
    }
  }

  // ---------------------------------------------------------------------
  // Three-way diff

  /** A listing entry taken into account by the diff. */
  predicate Kept(f: DriveFile, excluded: string -> bool) {
    !IsSystemFileName(f.name) && !excluded(f.name)
  }

  /** The current Drive state by id: system and excluded names are skipped and
      a later listing entry with the same id overwrites an earlier one. */
  function CurrentRemoteMap(files: seq<DriveFile>, excluded: string -> bool): (r: map<string, DriveFile>)
    ensures forall id :: id in r ==> r[id].id == id && Kept(r[id], excluded)
    ensures forall i :: 0 <= i < |files| && Kept(files[i], excluded) ==> files[i].id in r
    ensures forall id :: id in r ==> r[id] in files
  {
    if |files| == 0 then map[]
    else
      var init := files[..|files| - 1];
      var m := CurrentRemoteMap(init, excluded);
      var f := files[|files| - 1];
      assert forall i :: 0 <= i < |init| ==> init[i] == files[i];
      assert forall g :: g in init ==> g in files;
      if Kept(f, excluded) then m[f.id := f] else m
  }

  /** The entry kept for an id is the last kept listing entry with that id. */
  lemma {:induction false} CurrentRemoteMapLastWins(files: seq<DriveFile>, excluded: string -> bool, i: nat)
    requires i < |files| && Kept(files[i], excluded)
    requires forall j :: i < j < |files| && files[j].id == files[i].id ==> !Kept(files[j], excluded)
    ensures CurrentRemoteMap(files, excluded)[files[i].id] == files[i]
  {
    var init := files[..|files| - 1];
    if i < |files| - 1 {
      assert init[i] == files[i];
      CurrentRemoteMapLastWins(init, excluded, i);
    }
  }

  /** Whether the client changed the file since the last sync. */
  predicate LocalChanged(local: Option<FileSyncMeta>, synced: Option<FileSyncMeta>) {
    if local.Some? && synced.Some? then local.value.md5Checksum != synced.value.md5Checksum
    else local.Some? && synced.None?
  }

  /** Whether Drive changed the file since the last sync; a checksum Drive
      omits never equals the snapshot's. */
  predicate RemoteChanged(current: Option<DriveFile>, synced: Option<FileSyncMeta>) {
    if current.Some? && synced.Some? then current.value.md5Checksum != Some(synced.value.md5Checksum)
    else current.Some? && synced.None?
  }

  datatype Bucket = ToPush | ToPull | InConflict | LocalOnly | RemoteOnly | Unchanged

  /** The if/else chain that sorts one file id. */
  function Classify(local: Option<FileSyncMeta>, synced: Option<FileSyncMeta>, current: Option<DriveFile>): Bucket {
    if local.Some? && current.None? then LocalOnly
    else if local.None? && current.Some? then RemoteOnly
    else if LocalChanged(local, synced) && RemoteChanged(current, synced) then InConflict
    else if LocalChanged(local, synced) then ToPush
    else if RemoteChanged(current, synced) then ToPull
    else Unchanged
  }

  function Lookup<V>(m: map<string, V>, k: string): Option<V> {
    if k in m then Some(m[k]) else None
  }

  /** The conflict record for an id classified `InConflict`. */
  function MakeConflict(fileId: string, local: Option<FileSyncMeta>, current: Option<DriveFile>): Conflict {
    Conflict(
      fileId,
      if current.Some? then current.value.name else fileId,
      if local.Some? then local.value.md5Checksum else "",
      if current.Some? && current.value.md5Checksum.Some? then current.value.md5Checksum.value else "",
      if local.Some? then local.value.modifiedTime else "",
      if current.Some? && current.value.modifiedTime.Some? then current.value.modifiedTime.value else "")
  }

  /** The ids the diff looks at: snapshot ids whose recorded name is not
      excluded, plus every id in the current Drive state. */
  function AllFileIds(local: map<string, FileSyncMeta>, remoteMeta: map<string, FileSyncMeta>,
                      current: map<string, DriveFile>, excluded: string -> bool): (r: set<string>)
    ensures forall id :: id in r <==>
              (id in local && !excluded(local[id].name))
              || (id in remoteMeta && !excluded(remoteMeta[id].name))
              || id in current
  {
    (set id | id in local && !excluded(local[id].name))
    + (set id | id in remoteMeta && !excluded(remoteMeta[id].name))
    + current.Keys
  }

  function BucketOf(id: string, local: map<string, FileSyncMeta>, remoteMeta: map<string, FileSyncMeta>,
                    current: map<string, DriveFile>): Bucket {
    Classify(Lookup(local, id), Lookup(remoteMeta, id), Lookup(current, id))
  }

  /** `d` holds exactly the ids of `done`, each in the list its bucket names,
      without duplicates, and with the conflict record the diff builds. */
  ghost predicate Placed(d: SyncDiff, done: set<string>, local: map<string, FileSyncMeta>,
                         synced: map<string, FileSyncMeta>, cur: map<string, DriveFile>)
  {
    (forall id :: id in d.toPush <==> id in done && BucketOf(id, local, synced, cur) == ToPush)
    && (forall id :: id in d.toPull <==> id in done && BucketOf(id, local, synced, cur) == ToPull)
    && (forall id :: id in d.localOnly <==> id in done && BucketOf(id, local, synced, cur) == LocalOnly)
    && (forall id :: id in d.remoteOnly <==> id in done && BucketOf(id, local, synced, cur) == RemoteOnly)
    && (forall id :: id in ConflictIds(d.conflicts) <==> id in done && BucketOf(id, local, synced, cur) == InConflict)
    && (forall c :: c in d.conflicts ==> c == MakeConflict(c.fileId, Lookup(local, c.fileId), Lookup(cur, c.fileId)))
    && NoDup(d.toPush) && NoDup(d.toPull) && NoDup(d.localOnly) && NoDup(d.remoteOnly)
    && NoDup(ConflictIds(d.conflicts))
  }

  /** Appends one id to the list its bucket names. */
  function Place(d: SyncDiff, id: string, local: map<string, FileSyncMeta>,
                 synced: map<string, FileSyncMeta>, cur: map<string, DriveFile>): SyncDiff
  {
    match BucketOf(id, local, synced, cur)
    case LocalOnly => d.(localOnly := d.localOnly + [id])
    case RemoteOnly => d.(remoteOnly := d.remoteOnly + [id])
    case InConflict => d.(conflicts := d.conflicts + [MakeConflict(id, Lookup(local, id), Lookup(cur, id))])
    case ToPush => d.(toPush := d.toPush + [id])
    case ToPull => d.(toPull := d.toPull + [id])
    case Unchanged => d
  }

  lemma AppendFresh(s: seq<string>, x: string)
    requires NoDup(s) && x !in s
    ensures NoDup(s + [x])
    ensures forall y :: y in s + [x] <==> y in s || y == x
  {
  }

  lemma PlaceStep(d: SyncDiff, done: set<string>, id: string, local: map<string, FileSyncMeta>,
                  synced: map<string, FileSyncMeta>, cur: map<string, DriveFile>)
    requires Placed(d, done, local, synced, cur) && id !in done
    ensures Placed(Place(d, id, local, synced, cur), done + {id}, local, synced, cur)
  {
    var b := BucketOf(id, local, synced, cur);
    var d' := Place(d, id, local, synced, cur);
    match b {
      case LocalOnly =>
        assert d' == d.(localOnly := d.localOnly + [id]);
        AppendFresh(d.localOnly, id);
      case RemoteOnly =>
        assert d' == d.(remoteOnly := d.remoteOnly + [id]);
        AppendFresh(d.remoteOnly, id);
      case ToPush =>
        assert d' == d.(toPush := d.toPush + [id]);
        AppendFresh(d.toPush, id);
      case ToPull =>
        assert d' == d.(toPull := d.toPull + [id]);
        AppendFresh(d.toPull, id);
      case InConflict =>
        var c := MakeConflict(id, Lookup(local, id), Lookup(cur, id));
        assert d' == d.(conflicts := d.conflicts + [c]);
        ConflictIdsAppend(d.conflicts, c);
        AppendFresh(ConflictIds(d.conflicts), id);
      case Unchanged =>
        assert d' == d;
    }
  }

  /** One turn of the diff loop: placing an id still to do keeps the diff
      placed for the ids done so far. */
  lemma PlaceNext(d: SyncDiff, ids: set<string>, todo: set<string>, id: string, local: map<string, FileSyncMeta>,
                  synced: map<string, FileSyncMeta>, cur: map<string, DriveFile>)
    requires Placed(d, ids - todo, local, synced, cur) && id in todo && todo <= ids
    ensures Placed(Place(d, id, local, synced, cur), ids - (todo - {id}), local, synced, cur)
  {
    PlaceStep(d, ids - todo, id, local, synced, cur);
    assert (ids - todo) + {id} == ids - (todo - {id});
  }

  /** `computeSyncDiff`. Every examined id lands in the list its bucket names
      and in no other; each list is free of duplicates; conflicts carry the
      client's and Drive's checksums and times. */
  method ComputeSyncDiff(localMeta: Option<Meta>, remoteMeta: Option<Meta>, remoteFiles: seq<DriveFile>,
                         excluded: string -> bool) returns (d: SyncDiff)
    ensures Placed(d, AllFileIds(FilesOf(localMeta), FilesOf(remoteMeta), CurrentRemoteMap(remoteFiles, excluded), excluded),
                   FilesOf(localMeta), FilesOf(remoteMeta), CurrentRemoteMap(remoteFiles, excluded))
  {
    var local := FilesOf(localMeta);
    var synced := FilesOf(remoteMeta);
    var cur := CurrentRemoteMap(remoteFiles, excluded);
    d := PlaceAll(AllFileIds(local, synced, cur, excluded), local, synced, cur);
  }

  /** The loop of `computeSyncDiff`: every id of `ids`, taken in any order,
      is placed once. */
  method PlaceAll(ids: set<string>, local: map<string, FileSyncMeta>, synced: map<string, FileSyncMeta>,
                  cur: map<string, DriveFile>) returns (d: SyncDiff)
    ensures Placed(d, ids, local, synced, cur)
  {
    d := SyncDiff([], [], [], [], []);
    PlacedEmpty(local, synced, cur);
    var todo := ids;
    assert ids - todo == {};
    while todo != {}
      invariant todo <= ids
      invariant Placed(d, ids - todo, local, synced, cur)
      decreases |todo|
    {
      var id :| id in todo;
      PlaceNext(d, ids, todo, id, local, synced, cur);
      d := Place(d, id, local, synced, cur);
      todo := todo - {id};
    }
    assert ids - todo == ids;
  }

  lemma PlacedEmpty(local: map<string, FileSyncMeta>, synced: map<string, FileSyncMeta>, cur: map<string, DriveFile>)
    ensures Placed(SyncDiff([], [], [], [], []), {}, local, synced, cur)
  {
  }

  function ConflictIds(cs: seq<Conflict>): (r: seq<string>)
    ensures |r| == |cs| && forall i :: 0 <= i < |cs| ==> r[i] == cs[i].fileId
  {
    if |cs| == 0 then [] else [cs[0].fileId] + ConflictIds(cs[1..])
  }

  lemma ConflictIdsAppend(cs: seq<Conflict>, c: Conflict)
    ensures ConflictIds(cs + [c]) == ConflictIds(cs) + [c.fileId]
  {
  }

  /** The lists of a diff are pairwise disjoint: no id is in two of them. */
  lemma PlacedExclusive(d: SyncDiff, done: set<string>, local: map<string, FileSyncMeta>,
                        synced: map<string, FileSyncMeta>, cur: map<string, DriveFile>, id: string)
    requires Placed(d, done, local, synced, cur)
    ensures (if id in d.toPush then 1 else 0) + (if id in d.toPull then 1 else 0)
            + (if id in ConflictIds(d.conflicts) then 1 else 0) + (if id in d.localOnly then 1 else 0)
            + (if id in d.remoteOnly then 1 else 0) <= 1
    ensures id in done && BucketOf(id, local, synced, cur) == Unchanged ==>
              id !in d.toPush && id !in d.toPull && id !in ConflictIds(d.conflicts)
              && id !in d.localOnly && id !in d.remoteOnly
  {
  }

  // ---------------------------------------------------------------------
  // Properties of the classification

  /** A snapshot entry with no current Drive file is local-only, and a
      current Drive file unknown to the client is remote-only. */
  lemma ClassifyPresence(local: Option<FileSyncMeta>, synced: Option<FileSyncMeta>, current: Option<DriveFile>)
    ensures Classify(local, synced, current) == LocalOnly <==> local.Some? && current.None?
    ensures Classify(local, synced, current) == RemoteOnly <==> local.None? && current.Some?
    ensures Classify(local, synced, current) in {InConflict, ToPush, ToPull} ==> local.Some? && current.Some?
  {
  }

  /** Both sides changed exactly when a conflict is reported (for files
      present on both sides), and the conflict is named after the Drive file. */
  lemma ConflictIffBothChanged(fileId: string, local: Option<FileSyncMeta>, synced: Option<FileSyncMeta>, current: Option<DriveFile>)
    requires local.Some? && current.Some?
    ensures Classify(local, synced, current) == InConflict <==> LocalChanged(local, synced) && RemoteChanged(current, synced)
    ensures Classify(local, synced, current) == ToPush <==> LocalChanged(local, synced) && !RemoteChanged(current, synced)
    ensures Classify(local, synced, current) == ToPull <==> !LocalChanged(local, synced) && RemoteChanged(current, synced)
    ensures Classify(local, synced, current) == InConflict ==>
              MakeConflict(fileId, local, current).fileName == current.value.name
              && MakeConflict(fileId, local, current).localChecksum == local.value.md5Checksum
  {
  }

  /** Files whose three checksums agree are in no list. */
  lemma AgreeingChecksumsUnchanged(local: FileSyncMeta, synced: FileSyncMeta, current: DriveFile)
    requires local.md5Checksum == synced.md5Checksum
    requires current.md5Checksum == Some(synced.md5Checksum)
    ensures Classify(Some(local), Some(synced), Some(current)) == Unchanged
  {
  }

  /** A file missing everywhere except the server snapshot (deleted on both
      sides) is in no list. */
  lemma GoneEverywhereUnchanged(synced: Option<FileSyncMeta>)
    ensures Classify(None, synced, None) == Unchanged
  {
  }

  /** The settings file and the snapshot file are never seen on Drive. */
  lemma SystemFilesNotCurrent(files: seq<DriveFile>, excluded: string -> bool, id: string)
    requires id in CurrentRemoteMap(files, excluded)
    ensures !IsSystemFileName(CurrentRemoteMap(files, excluded)[id].name)
    ensures !excluded(CurrentRemoteMap(files, excluded)[id].name)
  {
  }

  /** An id whose every recorded name is excluded and that is not on Drive
      (after filtering) is not examined at all. */
  lemma ExcludedIdsIgnored(local: map<string, FileSyncMeta>, remoteMeta: map<string, FileSyncMeta>,
                           current: map<string, DriveFile>, excluded: string -> bool, id: string)
    requires id in local ==> excluded(local[id].name)
    requires id in remoteMeta ==> excluded(remoteMeta[id].name)
    requires id !in current
    ensures id !in AllFileIds(local, remoteMeta, current, excluded)
  {
  }
}
