/** Which files are sent to the retrieval (RAG) store: text, code and
    document types, judged by the extension after the last dot. */
module RagEligibility {
  import opened Wrappers
  import opened Text

  const EligibleExtensions: set<string> := {
    ".md", ".txt", ".csv", ".tsv", ".json", ".xml", ".html", ".yaml", ".yml",
    ".js", ".ts", ".jsx", ".tsx", ".py", ".java", ".rb", ".go", ".rs",
    ".c", ".cpp", ".h", ".cs", ".php", ".dart", ".sql", ".sh",
    ".pdf", ".doc", ".docx", ".xls", ".xlsx", ".pptx"
  }

  /** No dot at position `i` or after it. */
  predicate NoDotFrom(s: string, i: int) {
    forall j :: 0 <= j < |s| && i <= j ==> s[j] != '.'
  }

  /** Position `i` holds the last dot of `s`. */
  predicate LastDotAt(s: string, i: int) {
    0 <= i < |s| && s[i] == '.' && NoDotFrom(s, i + 1)
  }

  /** The suffix from the last dot, dot included; `None` when the name has no dot. */
  function ExtensionOf(fileName: string): (r: Option<string>)
    ensures r.None? <==> '.' !in fileName
    ensures r.Some? ==> LastDotAt(fileName, |fileName| - |r.value|) && r.value == fileName[|fileName| - |r.value|..]
  {
    var dot := LastIndexOf(fileName, '.');
    if dot < 0 then None else Some(fileName[dot..])
  }

  /** Whether a suffix, compared without regard to letter case, is listed. */
  predicate IsEligibleExtension(ext: string) {
    ToLower(ext) in EligibleExtensions
  }

  /** `isRagEligible`. */
  predicate IsRagEligible(fileName: string) {
    var ext := ExtensionOf(fileName);
    ext.Some? && IsEligibleExtension(ext.value)
  }

  /** The last dot, wherever it is, starts the extension. */
  lemma ExtensionAtLastDot(fileName: string, i: int)
    requires LastDotAt(fileName, i)
    ensures ExtensionOf(fileName) == Some(fileName[i..])
  {
    assert '.' in fileName;
    var k := |fileName| - |ExtensionOf(fileName).value|;
    assert k == i;
  }

  /** Any dot-initial suffix without further dots is the extension, whatever precedes it. */
  lemma ExtensionOfSuffix(stem: string, ext: string)
    requires |ext| >= 1 && ext[0] == '.' && NoDotFrom(ext, 1)
    ensures ExtensionOf(stem + ext) == Some(ext)
  {
    var s := stem + ext;
    assert LastDotAt(s, |stem|) by {
      forall j | |stem| + 1 <= j < |s| ensures s[j] != '.' {
        assert s[j] == ext[j - |stem|];
      }
    }
    ExtensionAtLastDot(s, |stem|);
    assert s[|stem|..] == ext;
  }

  /** Reference reading: the last dot of the name starts an eligible suffix. */
  ghost predicate HasEligibleExtension(fileName: string) {
    exists i :: LastDotAt(fileName, i) && IsEligibleExtension(fileName[i..])
  }

  lemma EligibleIffExtension(fileName: string)
    ensures IsRagEligible(fileName) <==> HasEligibleExtension(fileName)
  {
    if IsRagEligible(fileName) {
      var i := |fileName| - |ExtensionOf(fileName).value|;
      assert LastDotAt(fileName, i) && IsEligibleExtension(fileName[i..]);
    }
    if HasEligibleExtension(fileName) {
      var i :| LastDotAt(fileName, i) && IsEligibleExtension(fileName[i..]);
      ExtensionAtLastDot(fileName, i);
    }
  }

  /** A name without a dot is never eligible. */
  lemma NoDotIneligible(fileName: string)
    requires '.' !in fileName
    ensures !IsRagEligible(fileName)
  {
  }

  /** Only the part from the last dot counts: `x.tar.gz` is judged by `.gz`. */
  lemma LastExtensionDecides(stem: string, ext: string)
    requires |ext| >= 1 && ext[0] == '.' && NoDotFrom(ext, 1)
    ensures IsRagEligible(stem + ext) <==> IsEligibleExtension(ext)
  {
    ExtensionOfSuffix(stem, ext);
  }

  /** Lower-casing a name lower-cases its extension and keeps its dots where they were. */
  lemma ExtensionOfLower(fileName: string)
    ensures ExtensionOf(ToLower(fileName))
            == if '.' in fileName then Some(ToLower(ExtensionOf(fileName).value)) else None
  {
    var low := ToLower(fileName);
    assert forall j :: 0 <= j < |fileName| ==> (fileName[j] == '.' <==> low[j] == '.');
    if '.' in fileName {
      var i := |fileName| - |ExtensionOf(fileName).value|;
      assert LastDotAt(low, i);
      ExtensionAtLastDot(low, i);
      ToLowerSuffix(fileName, i);
    } else {
      assert '.' !in low;
    }
  }

  /** Letter case does not matter. */
  lemma CaseInsensitive(fileName: string)
    ensures IsRagEligible(fileName) <==> IsRagEligible(ToLower(fileName))
  {
    ExtensionOfLower(fileName);
    if '.' in fileName {
      ToLowerIdempotent(ExtensionOf(fileName).value);
    }
  }

  /** A trailing dot leaves an empty extension, which is never eligible. */
  lemma TrailingDotIneligible(stem: string)
    ensures !IsRagEligible(stem + ".")
  {
    LastExtensionDecides(stem, ".");
    assert ToLower(".") == ".";
  }

  /** A dot file named after an extension, such as `.md`, is eligible. */
  lemma BareExtensionEligible()
    ensures IsRagEligible(".md")
  {
    var name := ".md";
    assert name[1] == 'm' && name[2] == 'd';
    ExtensionAtLastDot(name, 0);
    assert name[0..] == name;
    assert ToLower(name) == ".md";
    assert ".md" in EligibleExtensions;
  }

  /** An eligible extension followed by another one does not count. */
  lemma EarlierExtensionIgnored()
    ensures !IsRagEligible("notes.md.backup")
  {
    assert !IsEligibleExtension(".backup") by {
      var low := ToLower(".backup");
      assert |low| == 7;
      assert low !in EligibleExtensions by {
        assert forall e | e in EligibleExtensions :: |e| <= 5;
      }
    }
    assert "notes.md" + ".backup" == "notes.md.backup";
    LastExtensionDecides("notes.md", ".backup");
  }

  /** Upper-case extensions are accepted. */
  lemma UpperCaseExtensionEligible()
    ensures IsRagEligible("Notes.MD")
  {
    LastExtensionDecides("Notes", ".MD");
    assert "Notes" + ".MD" == "Notes.MD";
    assert ToLower(".MD") == ".md";
  }
}
