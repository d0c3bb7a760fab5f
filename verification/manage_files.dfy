/** The trash and conflict-backup manager: the default restore name of a
    conflict backup (its timestamp removed), the selection toggles, the
    prefilled rename map, and the requests the actions send. */
module ManageFiles {
  import opened Wrappers
  import opened Text
  import SM = SyncMeta

  datatype FileEntry = FileEntry(id: string, name: string, mimeType: string, modifiedTime: string)

  // ---------------------------------------------------------------------
  // Backup timestamps

  /** The length of `_YYYYMMDD_HHMMSS`. */
  const StampLength := 16

  /** `s` holds `_` then eight digits, `_`, six digits at `i`, followed
      by a `.`. */
  predicate StampAt(s: string, i: nat) {
    && i + StampLength < |s|
    && s[i] == '_' && AllDigits(s[i + 1..i + 9]) && s[i + 9] == '_' && AllDigits(s[i + 10..i + 16])
    && s[i + StampLength] == '.'
  }

  /** A backup timestamp as `saveConflictBackup` makes it: `YYYYMMDD_HHMMSS`. */
  predicate IsStamp(ts: string) {
    |ts| == 15 && AllDigits(ts[..8]) && ts[8] == '_' && AllDigits(ts[9..])
  }

  /** The first position at or after `from` holding a stamp. */
  function FirstStamp(s: string, from: nat): (r: int)
    ensures r == -1 || (from <= r && StampAt(s, r))
    ensures forall j :: from <= j && (r == -1 || j < r) ==> !StampAt(s, j)
    decreases |s| - from
  {
    if from + StampLength >= |s| then -1
    else if StampAt(s, from) then from
    else FirstStamp(s, from + 1)
  }

  /** `stripTimestamp`: the first stamp that a `.` follows is cut out. */
  function StripTimestamp(name: string): (r: string)
    ensures FirstStamp(name, 0) == -1 ==> r == name
    ensures FirstStamp(name, 0) >= 0 ==>
              var i := FirstStamp(name, 0);
              r == name[..i] + name[i + StampLength..] && |r| == |name| - StampLength
  {
    var i := FirstStamp(name, 0);
    if i < 0 then name else name[..i] + name[i + StampLength..]
  }

  /** A stamp is found at a position of a string exactly when it is found
      there in any longer string sharing the characters it looks at. */
  lemma StampAtShared(s: string, t: string, i: nat)
    requires i + StampLength < |s| && i + StampLength < |t|
    requires s[..i + StampLength + 1] == t[..i + StampLength + 1]
    ensures StampAt(s, i) <==> StampAt(t, i)
  {
    assert forall k :: 0 <= k <= i + StampLength ==> s[k] == s[..i + StampLength + 1][k] && t[k] == t[..i + StampLength + 1][k];
    assert s[i + 1..i + 9] == t[i + 1..i + 9];
    assert s[i + 10..i + 16] == t[i + 10..i + 16];
  }

  /** No stamp starts in the characters `"_" + ts + rest` contribute before
      `rest`, unless it is the one at the start: they hold no `.`. */
  lemma NoStampInside(prefix: string, ts: string, rest: string, i: nat)
    requires IsStamp(ts)
    requires i < |prefix| <= i + StampLength
    ensures !StampAt(prefix + "_" + ts + rest, i)
  {
    var s := prefix + "_" + ts + rest;
    if i + StampLength == |prefix| {
      assert s[i + StampLength] == '_';
    } else if i + StampLength < |s| {
      var k := i + StampLength - |prefix| - 1;
      assert s[i + StampLength] == ts[k];
      if k < 8 { assert ts[..8][k] == ts[k]; } else if k > 8 { assert ts[9..][k - 9] == ts[k]; }
    }
  }

  /** A stamp put in front of a `.` is found where it was put. */
  lemma StampAtInserted(prefix: string, ts: string, rest: string)
    requires IsStamp(ts) && |rest| > 0 && rest[0] == '.'
    ensures StampAt(prefix + "_" + ts + rest, |prefix|)
  {
    var r := prefix + "_" + ts + rest;
    var n := |prefix|;
    assert r[n] == '_';
    assert r[n + 1..n + 9] == ts[..8];
    assert r[n + 9] == '_';
    assert r[n + 10..n + 16] == ts[9..];
    assert r[n + StampLength] == rest[0];
  }

  /** Inserting a stamp creates no stamp before it when there was none. */
  lemma NoStampBeforeInserted(prefix: string, ts: string, rest: string, j: nat)
    requires IsStamp(ts) && j < |prefix|
    requires FirstStamp(prefix + rest, 0) == -1
    ensures !StampAt(prefix + "_" + ts + rest, j)
  {
    var safe := prefix + rest;
    var r := prefix + "_" + ts + rest;
    if j + StampLength < |prefix| {
      assert !StampAt(safe, j);
      assert r[..j + StampLength + 1] == safe[..j + StampLength + 1];
      StampAtShared(r, safe, j);
    } else {
      NoStampInside(prefix, ts, rest, j);
    }
  }

  /** A stamp put in front of a `.`, in a string that held none, is the
      first one. */
  lemma FirstStampInserted(prefix: string, ts: string, rest: string)
    requires IsStamp(ts) && |rest| > 0 && rest[0] == '.'
    requires FirstStamp(prefix + rest, 0) == -1
    ensures FirstStamp(prefix + "_" + ts + rest, 0) == |prefix|
  {
    var r := prefix + "_" + ts + rest;
    StampAtInserted(prefix, ts, rest);
    forall j | 0 <= j < |prefix|
      ensures !StampAt(r, j)
    {
      NoStampBeforeInserted(prefix, ts, rest, j);
    }
  }

  /** Stripping removes a stamp inserted before a `.` into a string that
      held none. */
  lemma StripInserted(prefix: string, ts: string, rest: string)
    requires IsStamp(ts) && |rest| > 0 && rest[0] == '.'
    requires FirstStamp(prefix + rest, 0) == -1
    ensures StripTimestamp(prefix + "_" + ts + rest) == prefix + rest
  {
    var r := prefix + "_" + ts + rest;
    var n := |prefix|;
    FirstStampInserted(prefix, ts, rest);
    assert r[..n] == prefix;
    assert r[n + StampLength..] == rest;
  }

  /** Restoring a backup of a name with an extension recovers the name with
      slashes made underscores, as long as that name has no stamp of its
      own: stripping is the inverse of the backup naming. */
  lemma StripUndoesBackup(fileName: string, ts: string)
    requires IsStamp(ts)
    requires LastIndexOf(ReplaceChar(fileName, '/', '_'), '.') > 0
    requires FirstStamp(ReplaceChar(fileName, '/', '_'), 0) == -1
    ensures StripTimestamp(SM.BackupName(fileName, ts)) == ReplaceChar(fileName, '/', '_')
  {
    var safe := ReplaceChar(fileName, '/', '_');
    var dot := LastIndexOf(safe, '.');
    SplitAtDot(safe, dot, ts);
  }

  lemma SplitAtDot(safe: string, dot: nat, ts: string)
    requires IsStamp(ts) && dot < |safe| && safe[dot] == '.'
    requires FirstStamp(safe, 0) == -1
    ensures StripTimestamp(safe[..dot] + "_" + ts + safe[dot..]) == safe
  {
    var prefix, rest := safe[..dot], safe[dot..];
    assert safe == prefix + rest;
    StripInserted(prefix, ts, rest);
  }

  /** A backup of a name without an extension keeps its stamp: nothing
      follows it, so there is nothing to strip. */
  lemma {:induction false} ExtensionlessBackupKeepsStamp(fileName: string, ts: string)
    requires IsStamp(ts)
    requires LastIndexOf(ReplaceChar(fileName, '/', '_'), '.') <= 0
    requires FirstStamp(ReplaceChar(fileName, '/', '_'), 0) == -1
    ensures StripTimestamp(SM.BackupName(fileName, ts)) == SM.BackupName(fileName, ts)
  {
    var safe := ReplaceChar(fileName, '/', '_');
    var r := SM.BackupName(fileName, ts);
    assert r == safe + "_" + ts + "";
    forall j | 0 <= j
      ensures !StampAt(r, j)
    {
      if j + StampLength < |safe| {
        assert r[..j + StampLength + 1] == safe[..j + StampLength + 1];
        StampAtShared(r, safe, j);
      } else if j + StampLength < |r| {
        NoStampInside(safe, ts, "", j);
      }
    }
  }

  // ---------------------------------------------------------------------
  // Selection

  /** `toggle…One`: the id flips; every other id stays as it was. */
  function ToggleOne(selected: set<string>, id: string): (r: set<string>)
    ensures id in r <==> id !in selected
    ensures forall x :: x != id ==> (x in r <==> x in selected)
  {
    if id in selected then selected - {id} else selected + {id}
  }

  /** Toggling the same id twice restores the selection. */
  lemma ToggleOneTwice(selected: set<string>, id: string)
    ensures ToggleOne(ToggleOne(selected, id), id) == selected
  {
  }

  /** The ids of the listed files. */
  function Ids(files: seq<FileEntry>): (r: set<string>)
    ensures forall x :: x in r <==> exists i :: 0 <= i < |files| && files[i].id == x
  {
    set i | 0 <= i < |files| :: files[i].id
  }

  /** `toggle…All`: a selection as large as the list is cleared; any
      other selection becomes every listed id. */
  function ToggleAll(selected: set<string>, files: seq<FileEntry>): (r: set<string>)
    ensures |selected| == |files| ==> r == {}
    ensures |selected| != |files| ==> r == Ids(files)
  {
    if |selected| == |files| then {} else Ids(files)
  }

  /** Whether the listed ids are pairwise distinct. */
  predicate DistinctIds(files: seq<FileEntry>) {
    forall i, j :: 0 <= i < j < |files| ==> files[i].id != files[j].id
  }

  /** Distinct ids make as many ids as files. */
  lemma {:induction false} IdsCount(files: seq<FileEntry>)
    requires DistinctIds(files)
    ensures |Ids(files)| == |files|
    decreases |files|
  {
    if |files| > 0 {
      var init := files[..|files| - 1];
      IdsCount(init);
      var last := files[|files| - 1].id;
      assert Ids(files) == Ids(init) + {last} by {
        forall x | x in Ids(files) ensures x in Ids(init) + {last} {
          var i :| 0 <= i < |files| && files[i].id == x;
          if i < |files| - 1 { assert init[i].id == x; }
        }
      }
      assert last !in Ids(init);
    }
  }

  /** With distinct ids the select-all toggle alternates: from everything
      selected it clears, and from nothing selected in a non-empty list it
      selects everything. */
  lemma ToggleAllAlternates(files: seq<FileEntry>)
    requires DistinctIds(files) && |files| > 0
    ensures ToggleAll(Ids(files), files) == {}
    ensures ToggleAll({}, files) == Ids(files)
    ensures ToggleAll(ToggleAll({}, files), files) == {}
  {
    IdsCount(files);
  }

  // ---------------------------------------------------------------------
  // Renames

  /** The stripped default name for every listed conflict backup; a later
      entry with the same id wins. */
  function DefaultRenames(files: seq<FileEntry>): (r: map<string, string>)
    ensures r.Keys == Ids(files)
    decreases |files|
  {
    if |files| == 0 then map[]
    else
      var init := files[..|files| - 1];
      var last := files[|files| - 1];
      var m := DefaultRenames(init);
      assert Ids(files) == Ids(init) + {last.id} by {
        forall x | x in Ids(files) ensures x in Ids(init) + {last.id} {
          var i :| 0 <= i < |files| && files[i].id == x;
          if i < |files| - 1 { assert init[i].id == x; }
        }
      }
      m[last.id := StripTimestamp(last.name)]
  }

  /** The default of a listed file is its stripped name when no later
      entry shares its id. */
  lemma {:induction false} DefaultRenameOf(files: seq<FileEntry>, i: nat)
    requires i < |files|
    requires forall j :: i < j < |files| ==> files[j].id != files[i].id
    ensures files[i].id in DefaultRenames(files)
    ensures DefaultRenames(files)[files[i].id] == StripTimestamp(files[i].name)
    decreases |files|
  {
    if i < |files| - 1 {
      DefaultRenameOf(files[..|files| - 1], i);
    }
  }

  /** The rename map after loading the conflict list: the names the user
      already set take precedence over the stripped defaults. */
  function PrefillRenames(previous: map<string, string>, files: seq<FileEntry>): (r: map<string, string>)
    ensures r.Keys == previous.Keys + Ids(files)
    ensures forall id :: id in previous ==> r[id] == previous[id]
    ensures forall id :: id in r && id !in previous ==> r[id] == DefaultRenames(files)[id]
  {
    DefaultRenames(files) + previous
  }

  // ---------------------------------------------------------------------
  // Actions

  /** The request an action sends to the sync endpoint. */
  datatype SyncRequest =
    | DeleteUntracked(fileIds: set<string>)
    | RestoreTrash(fileIds: set<string>)
    | RestoreConflict(fileIds: set<string>, renames: map<string, string>)

  /** What an action does: the request it sends, if any, and the selection
      afterwards. An action's `threw` says the request threw; the response
      of one that returned is not read, so only a throw keeps the
      selection. */
  datatype ActionResult = ActionResult(request: Option<SyncRequest>, selected: set<string>)

  /** A permanent delete (trash or conflicts): nothing without a selection
      or without the user's confirmation; otherwise the selected ids are
      sent for deletion and the selection is cleared unless the request
      threw. */
  function DeleteSelected(selected: set<string>, confirmed: bool, threw: bool): (r: ActionResult)
    ensures r.request.None? <==> selected == {} || !confirmed
    ensures r.request.None? ==> r.selected == selected
    ensures r.request.Some? ==> r.request.value == DeleteUntracked(selected)
    ensures r.request.Some? ==> r.selected == (if threw then selected else {})
  {
    if |selected| == 0 || !confirmed then ActionResult(None, selected)
    else ActionResult(Some(DeleteUntracked(selected)), if threw then selected else {})
  }

  /** Restoring from the trash: nothing without a selection; otherwise the
      selection is cleared unless the request threw. */
  function RestoreTrashSelected(selected: set<string>, threw: bool): (r: ActionResult)
    ensures r.request.None? <==> selected == {}
    ensures r.request.None? ==> r.selected == selected
    ensures r.request.Some? ==> r.request.value == RestoreTrash(selected)
    ensures r.request.Some? ==> r.selected == (if threw then selected else {})
  {
    if |selected| == 0 then ActionResult(None, selected)
    else ActionResult(Some(RestoreTrash(selected)), if threw then selected else {})
  }

  /** The renames sent with a restore: those of selected ids that are set
      and non-empty. */
  function SelectedRenames(selected: set<string>, renames: map<string, string>): (r: map<string, string>)
    ensures forall id :: id in r <==> id in selected && id in renames && renames[id] != ""
    ensures forall id :: id in r ==> r[id] == renames[id]
  {
    map id | id in selected && id in renames && renames[id] != "" :: renames[id]
  }

  /** Restoring conflict backups: nothing without a selection; otherwise
      the selected ids are restored under their non-empty renames, and the
      selection is cleared unless the request threw. */
  function RestoreConflictSelected(selected: set<string>, renames: map<string, string>, threw: bool): (r: ActionResult)
    ensures r.request.None? <==> selected == {}
    ensures r.request.None? ==> r.selected == selected
    ensures r.request.Some? ==>
              && r.request.value.RestoreConflict? && r.request.value.fileIds == selected
              && r.request.value.renames.Keys <= selected
              && r.request.value.renames == SelectedRenames(selected, renames)
    ensures r.request.Some? ==> r.selected == (if threw then selected else {})
  {
    if |selected| == 0 then ActionResult(None, selected)
    else ActionResult(Some(RestoreConflict(selected, SelectedRenames(selected, renames))), if threw then selected else {})
  }

  /** A restored conflict backup that the user never renamed goes back
      under its stripped name. */
  lemma RestoreUsesStrippedName(previous: map<string, string>, files: seq<FileEntry>, i: nat, threw: bool)
    requires i < |files| && files[i].id !in previous
    requires forall j :: i < j < |files| ==> files[j].id != files[i].id
    requires StripTimestamp(files[i].name) != ""
    ensures var req := RestoreConflictSelected({files[i].id}, PrefillRenames(previous, files), threw).request;
            req.Some? && req.value.renames == map[files[i].id := StripTimestamp(files[i].name)]
  {
    var id := files[i].id;
    DefaultRenameOf(files, i);
    var pre := PrefillRenames(previous, files);
    assert pre[id] == DefaultRenames(files)[id];
    RestoreOne(id, pre, threw);
  }

  /** Restoring one selected backup sends its rename, if non-empty. */
  lemma RestoreOne(id: string, renames: map<string, string>, threw: bool)
    requires id in renames && renames[id] != ""
    ensures var req := RestoreConflictSelected({id}, renames, threw).request;
            req == Some(RestoreConflict({id}, map[id := renames[id]]))
  {
    var m := SelectedRenames({id}, renames);
    assert m.Keys == {id};
    assert m == map[id := renames[id]];
  }

  /** A bulk action whose request threw can be repeated as it was: the
      selection it keeps sends the same request again. */
  lemma RetryAfterThrow(selected: set<string>, confirmed: bool, renames: map<string, string>)
    ensures DeleteSelected(DeleteSelected(selected, confirmed, true).selected, confirmed, false).request
            == DeleteSelected(selected, confirmed, true).request
    ensures RestoreTrashSelected(RestoreTrashSelected(selected, true).selected, false).request
            == RestoreTrashSelected(selected, true).request
    ensures RestoreConflictSelected(RestoreConflictSelected(selected, renames, true).selected, renames, false).request
            == RestoreConflictSelected(selected, renames, true).request
  {
  }
}
