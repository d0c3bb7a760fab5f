/** Client-side sync filters: which Drive paths never sync, which MIME
    types are binary, and the status reported when a push skipped files. */
module SyncClientUtils {
  import opened Wrappers
  import opened Text

  const ExcludedFileNames: set<string> := {"_sync-meta.json", "settings.json"}
  const ExcludedPrefixes: seq<string> := ["history/", "trash/", "sync_conflicts/", "__TEMP__/", "plugins/"]

  /** `replace(/^\/+/, "")`. */
  function StripLeadingSlashes(s: string): (r: string)
    ensures |r| <= |s| && r == s[|s| - |r|..]
    ensures |r| > 0 ==> r[0] != '/'
    ensures forall i :: 0 <= i < |s| - |r| ==> s[i] == '/'
  {
    if |s| > 0 && s[0] == '/' then StripLeadingSlashes(s[1..]) else s
  }

  /** `isSyncExcludedPath`. */
  predicate IsSyncExcludedPath(fileName: string) {
    var n := StripLeadingSlashes(fileName);
    n in ExcludedFileNames || exists i :: 0 <= i < |ExcludedPrefixes| && StartsWith(n, ExcludedPrefixes[i])
  }

  /** Leading slashes never change the verdict. */
  lemma LeadingSlashIrrelevant(fileName: string)
    ensures IsSyncExcludedPath("/" + fileName) <==> IsSyncExcludedPath(fileName)
  {
    assert ("/" + fileName)[1..] == fileName;
  }

  /** The five folders, written out. */
  predicate InExcludedFolder(n: string) {
    || StartsWith(n, "history/") || StartsWith(n, "trash/") || StartsWith(n, "sync_conflicts/")
    || StartsWith(n, "__TEMP__/") || StartsWith(n, "plugins/")
  }

  lemma PrefixListIsFolders(n: string)
    ensures (exists i :: 0 <= i < |ExcludedPrefixes| && StartsWith(n, ExcludedPrefixes[i])) <==> InExcludedFolder(n)
  {
    var p := ExcludedPrefixes;
    if exists i :: 0 <= i < |p| && StartsWith(n, p[i]) {
      var i :| 0 <= i < |p| && StartsWith(n, p[i]);
      if i == 0 { assert p[0] == "history/"; }
      else if i == 1 { assert p[1] == "trash/"; }
      else if i == 2 { assert p[2] == "sync_conflicts/"; }
      else if i == 3 { assert p[3] == "__TEMP__/"; }
      else { assert p[4] == "plugins/"; }
    }
    if InExcludedFolder(n) {
      if StartsWith(n, "history/") { assert StartsWith(n, p[0]); }
      else if StartsWith(n, "trash/") { assert StartsWith(n, p[1]); }
      else if StartsWith(n, "sync_conflicts/") { assert StartsWith(n, p[2]); }
      else if StartsWith(n, "__TEMP__/") { assert StartsWith(n, p[3]); }
      else { assert StartsWith(n, p[4]); }
    }
  }

  /** The excluded paths are exactly the two system files and the five folders. */
  lemma ExcludedIff(fileName: string)
    ensures IsSyncExcludedPath(fileName) <==>
              var n := StripLeadingSlashes(fileName);
              n == "_sync-meta.json" || n == "settings.json"
              || StartsWith(n, "history/") || StartsWith(n, "trash/") || StartsWith(n, "sync_conflicts/")
              || StartsWith(n, "__TEMP__/") || StartsWith(n, "plugins/")
  {
    PrefixListIsFolders(StripLeadingSlashes(fileName));
  }

  /** Leading slashes are stripped before the folder test. */
  lemma RootedFolderExcluded(rest: string)
    ensures IsSyncExcludedPath("//history/" + rest)
  {
    var n := "history/" + rest;
    var p := "/" + ("/" + n);
    assert p == "//history/" + rest;
    assert n[0] == 'h' && n[..8] == "history/";
    assert StripLeadingSlashes(n) == n;
    assert p[1..] == "/" + n && ("/" + n)[1..] == n;
    assert StripLeadingSlashes(p) == n;
    PrefixListIsFolders(n);
  }

  /** A folder name only counts at the start of the path. */
  lemma NestedFolderSynced()
    ensures !IsSyncExcludedPath("notes/history/a.md")
  {
    var n := "notes/history/a.md";
    assert StripLeadingSlashes(n) == n;
    assert n[0] == 'n';
    assert n !in ExcludedFileNames;
    forall i | 0 <= i < |ExcludedPrefixes| ensures !StartsWith(n, ExcludedPrefixes[i]) {
      assert ExcludedPrefixes[i][0] != 'n';
    }
  }

  const BinaryApplicationTypes: set<string> := {
    "application/pdf", "application/zip", "application/gzip", "application/x-tar",
    "application/x-gzip", "application/x-bzip2", "application/x-7z-compressed",
    "application/x-rar-compressed", "application/octet-stream", "application/wasm"
  }

  const BinaryApplicationPrefixes: seq<string> := [
    "application/vnd.openxmlformats-", "application/vnd.ms-", "application/vnd.oasis.opendocument."
  ]

  const BinaryMediaPrefixes: seq<string> := ["image/", "video/", "audio/", "font/"]

  /** `isBinaryMimeType`; a missing MIME type is `None`. */
  predicate IsBinaryMimeType(mimeType: Option<string>) {
    mimeType.Some? && mimeType.value != ""
    && ((exists i :: 0 <= i < |BinaryMediaPrefixes| && StartsWith(mimeType.value, BinaryMediaPrefixes[i]))
        || mimeType.value in BinaryApplicationTypes
        || exists i :: 0 <= i < |BinaryApplicationPrefixes| && StartsWith(mimeType.value, BinaryApplicationPrefixes[i]))
  }

  /** Every binary type is a media type or an `application/` type. */
  lemma BinaryIsMediaOrApplication(m: string)
    requires IsBinaryMimeType(Some(m))
    ensures StartsWith(m, "image/") || StartsWith(m, "video/") || StartsWith(m, "audio/")
            || StartsWith(m, "font/") || StartsWith(m, "application/")
  {
    if exists i :: 0 <= i < |BinaryApplicationPrefixes| && StartsWith(m, BinaryApplicationPrefixes[i]) {
      var i :| 0 <= i < |BinaryApplicationPrefixes| && StartsWith(m, BinaryApplicationPrefixes[i]);
      assert BinaryApplicationPrefixes[i][..12] == "application/";
      assert m[..12] == BinaryApplicationPrefixes[i][..12];
    } else if m in BinaryApplicationTypes {
      assert m[..12] == "application/";
    } else {
      var i :| 0 <= i < |BinaryMediaPrefixes| && StartsWith(m, BinaryMediaPrefixes[i]);
      assert i == 0 || i == 1 || i == 2 || i == 3;
    }
  }

  /** Absent and empty MIME types are not binary. */
  lemma MissingMimeNotBinary()
    ensures !IsBinaryMimeType(None) && !IsBinaryMimeType(Some(""))
  {
  }

  /** No `text/` type is binary. */
  lemma TextNotBinary(m: string)
    requires StartsWith(m, "text/")
    ensures !IsBinaryMimeType(Some(m))
  {
    assert m[0] == "text/"[0];
    forall i | 0 <= i < |BinaryMediaPrefixes| ensures !StartsWith(m, BinaryMediaPrefixes[i]) {
      assert BinaryMediaPrefixes[i][0] != 't';
    }
    forall i | 0 <= i < |BinaryApplicationPrefixes| ensures !StartsWith(m, BinaryApplicationPrefixes[i]) {
      assert BinaryApplicationPrefixes[i][0] == 'a';
    }
    forall t | t in BinaryApplicationTypes ensures t != m {
      assert t[0] == 'a';
    }
  }

  /** Images and the Office family are binary; JSON is text. */
  lemma BinaryExamples()
    ensures IsBinaryMimeType(Some("image/png"))
    ensures IsBinaryMimeType(Some("application/vnd.ms-excel"))
    ensures !IsBinaryMimeType(Some("application/json"))
  {
    assert StartsWith("image/png", BinaryMediaPrefixes[0]);
    assert StartsWith("application/vnd.ms-excel", BinaryApplicationPrefixes[1]);
    var j := "application/json";
    assert j[1] == 'p' && j[12] == 'j';
    forall i | 0 <= i < |BinaryMediaPrefixes| ensures !StartsWith(j, BinaryMediaPrefixes[i]) {
      assert BinaryMediaPrefixes[i][1] != 'p';
    }
    forall i | 0 <= i < |BinaryApplicationPrefixes| ensures !StartsWith(j, BinaryApplicationPrefixes[i]) {
      assert BinaryApplicationPrefixes[i][12] == 'v';
    }
    assert j !in BinaryApplicationTypes by {
      forall t | t in BinaryApplicationTypes ensures t != j {
        assert |t| != |j| || t[12] != 'j';
      }
    }
  }

  // ---------------------------------------------------------------------
  // Completion status

  /** Decimal rendering of a count, as a template literal prints it. */
  function NatToString(n: nat): (r: string)
    ensures |r| >= 1 && AllDigits(r)
    ensures |r| > 1 ==> r[0] != '0'
  {
    if n < 10 then [('0' as int + n) as char]
    else NatToString(n / 10) + [('0' as int + n % 10) as char]
  }

  /** The value of a string of decimal digits. */
  function DigitsValue(s: string): nat
    requires AllDigits(s)
  {
    if |s| == 0 then 0 else 10 * DigitsValue(s[..|s| - 1]) + (s[|s| - 1] as int - '0' as int)
  }

  /** Reading the rendered count back gives the count. */
  lemma {:induction false} NatToStringRoundTrip(n: nat)
    ensures DigitsValue(NatToString(n)) == n
  {
    if n >= 10 {
      NatToStringRoundTrip(n / 10);
      var s := NatToString(n);
      assert s[..|s| - 1] == NatToString(n / 10);
    }
  }

  datatype CompletionKind = Idle | Warning

  datatype CompletionStatus = CompletionStatus(status: CompletionKind, error: Option<string>)

  /** `getSyncCompletionStatus`: a warning naming the skipped count when
      files were skipped, otherwise idle with no error. */
  function SyncCompletionStatus(skippedCount: int, opLabel: string): (r: CompletionStatus)
    ensures r.status == Warning <==> skippedCount > 0
    ensures r.status == Idle <==> r.error == None
    ensures r.status == Warning ==>
              |r.error.value| > |opLabel| + 42
              && StartsWith(r.error.value, opLabel + " completed with warning: skipped ")
              && EndsWith(r.error.value, " file(s).")
              && var digits := r.error.value[|opLabel| + 33..|r.error.value| - 9];
                 AllDigits(digits) && DigitsValue(digits) == skippedCount
  {
    if skippedCount > 0 then
      var digits := NatToString(skippedCount);
      var msg := opLabel + " completed with warning: skipped " + digits + " file(s).";
      assert msg[..|opLabel| + 33] == opLabel + " completed with warning: skipped ";
      assert msg[|opLabel| + 33..|msg| - 9] == digits;
      NatToStringRoundTrip(skippedCount);
      CompletionStatus(Warning, Some(msg))
    else CompletionStatus(Idle, None)
  }
}
