/** Client-side RAG registration after a push or a file creation: the
    sequence of requests sent to the sync endpoint, given the answers the
    endpoint gives to each registration. */
module RagSyncClient {
  import opened Wrappers
  import opened RagEligibility
  import opened SyncRag

  datatype PushFile = PushFile(fileId: string, content: string, fileName: string)

  /** The endpoint's answer to one `ragRegister` request. */
  datatype RegisterAnswer =
    | Failed                          // a non-ok response, or the request threw
    | Answered(skipped: bool, info: Option<RagFileInfo>, storeName: string)

  /** The requests, in the order they are sent. */
  datatype RagCall =
    | SaveCall(updates: seq<RagUpdate>, storeName: string)
    | RegisterCall(file: PushFile)
    | RetryCall

  function Eligible(files: seq<PushFile>): (r: seq<PushFile>)
    ensures forall f :: f in r <==> f in files && IsRagEligible(f.fileName)
    ensures |r| <= |files|
  {
    if |files| == 0 then []
    else (if IsRagEligible(files[0].fileName) then [files[0]] else []) + Eligible(files[1..])
  }

  /** The placeholder written for each eligible file before any upload. */
  function Placeholder(f: PushFile, now: int): (r: RagUpdate)
    ensures r.fileName == f.fileName && IsPlaceholder(r.info)
  {
    RagUpdate(f.fileName, RagFileInfo("", now, None, Pending))
  }

  function Placeholders(files: seq<PushFile>, now: int): (r: seq<RagUpdate>)
    ensures |r| == |files|
    ensures forall i :: 0 <= i < |files| ==> r[i] == Placeholder(files[i], now)
  {
    if |files| == 0 then [] else [Placeholder(files[0], now)] + Placeholders(files[1..], now)
  }

  /** The tracking update one answer produces, if any. */
  function UpdateFor(f: PushFile, answer: RegisterAnswer, now: int): (r: Option<RagUpdate>)
    ensures answer.Failed? ==> r == Some(Placeholder(f, now))
    ensures answer.Answered? && !answer.skipped && answer.info.Some? ==>
              r == Some(RagUpdate(f.fileName, answer.info.value.(status := Registered)))
    ensures answer.Answered? && (answer.skipped || answer.info.None?) ==> r == None
  {
    match answer
    case Failed => Some(Placeholder(f, now))
    case Answered(skipped, info, _) =>
      if !skipped && info.Some? then Some(RagUpdate(f.fileName, info.value.(status := Registered))) else None
  }

  /** The loop's two accumulators: the updates so far and the store name last reported. */
  datatype Collected = Collected(updates: seq<RagUpdate>, storeName: string)

  function Collect(files: seq<PushFile>, answer: PushFile -> RegisterAnswer, now: int): (r: Collected)
    ensures |r.updates| <= |files|
    decreases |files|
  {
    if |files| == 0 then Collected([], "")
    else
      var init := Collect(files[..|files| - 1], answer, now);
      var f := files[|files| - 1];
      var a := answer(f);
      var store := if a.Answered? && !a.skipped && a.info.Some? && a.storeName != "" then a.storeName else init.storeName;
      match UpdateFor(f, a, now)
      case Some(u) => Collected(init.updates + [u], store)
      case None => Collected(init.updates, store)
  }

  /** Whether a file's answer reports a registration that names its store. */
  predicate NamesStore(f: PushFile, answer: PushFile -> RegisterAnswer) {
    var a := answer(f);
    a.Answered? && !a.skipped && a.info.Some? && a.storeName != ""
  }

  /** The position of the last file whose answer names a store, or -1. */
  function LastNamingStore(files: seq<PushFile>, answer: PushFile -> RegisterAnswer): (r: int)
    ensures -1 <= r < |files|
    ensures r >= 0 ==> NamesStore(files[r], answer) && forall j :: r < j < |files| ==> !NamesStore(files[j], answer)
    ensures r == -1 <==> forall i :: 0 <= i < |files| ==> !NamesStore(files[i], answer)
  {
    if |files| == 0 then -1
    else if NamesStore(files[|files| - 1], answer) then |files| - 1
    else LastNamingStore(files[..|files| - 1], answer)
  }

  /** The store name sent with the second save is the one reported by the
      last registration that reported any, and `""` when none did. */
  lemma {:induction false} StoreNameIsLastReported(files: seq<PushFile>, answer: PushFile -> RegisterAnswer, now: int)
    ensures var i := LastNamingStore(files, answer);
            Collect(files, answer, now).storeName == if i < 0 then "" else answer(files[i]).storeName
    decreases |files|
  {
    if |files| > 0 && !NamesStore(files[|files| - 1], answer) {
      StoreNameIsLastReported(files[..|files| - 1], answer, now);
    }
  }

  /** Which of the two batch saves reject: a rejected save ends the whole
      background task, whose rejection is swallowed. Registrations and the
      retry catch their own errors and never end it. */
  datatype SaveFates = SaveFates(firstRejects: bool, secondRejects: bool)

  const AllSavesResolve := SaveFates(false, false)

  /** The requests for a non-empty eligible list: the first save, then,
      unless it rejected, the registrations, the optional second save and,
      unless that rejected, the retry. */
  function Trace(eligible: seq<PushFile>, collected: Collected, now: int, fates: SaveFates): (r: seq<RagCall>)
    ensures |r| > 0 && r[0] == SaveCall(Placeholders(eligible, now), "")
    ensures fates.firstRejects ==> r == [r[0]]
    ensures !fates.firstRejects ==>
              && |r| == |eligible| + 1 + (if |collected.updates| > 0 then 1 else 0)
                                    + (if |collected.updates| > 0 && fates.secondRejects then 0 else 1)
              && (forall i :: 0 <= i < |eligible| ==> r[i + 1] == RegisterCall(eligible[i]))
              && (forall i :: |eligible| < i < |r| ==> !r[i].RegisterCall?)
              && (|collected.updates| > 0 ==> r[|eligible| + 1] == SaveCall(collected.updates, collected.storeName))
    ensures RetryCall in r <==> !fates.firstRejects && !(|collected.updates| > 0 && fates.secondRejects)
    ensures RetryCall in r ==> r[|r| - 1] == RetryCall
  {
    var first := SaveCall(Placeholders(eligible, now), "");
    if fates.firstRejects then [first]
    else
      var calls := [first] + RegisterCalls(eligible);
      assert RetryCall !in calls;
      if |collected.updates| > 0 then
        calls + [SaveCall(collected.updates, collected.storeName)] + (if fates.secondRejects then [] else [RetryCall])
      else calls + [RetryCall]
  }

  function RegisterCalls(files: seq<PushFile>): (r: seq<RagCall>)
    ensures |r| == |files|
    ensures forall i :: 0 <= i < |files| ==> r[i] == RegisterCall(files[i])
  {
    if |files| == 0 then [] else [RegisterCall(files[0])] + RegisterCalls(files[1..])
  }

  /** `ragRegisterInBackground`: nothing when no file is eligible, else the requests of `Trace`. */
  function RegisterInBackground(files: seq<PushFile>, answer: PushFile -> RegisterAnswer, now: int,
                                fates: SaveFates): (r: seq<RagCall>)
    ensures Eligible(files) == [] <==> r == []
  {
    var eligible := Eligible(files);
    if |eligible| == 0 then [] else Trace(eligible, Collect(eligible, answer, now), now, fates)
  }

  /** Only eligible files are registered; a rejected first save registers
      none, and otherwise every one of them is registered, in order. */
  lemma RegistersExactlyEligible(files: seq<PushFile>, answer: PushFile -> RegisterAnswer, now: int, fates: SaveFates)
    ensures var r := RegisterInBackground(files, answer, now, fates);
            var eligible := Eligible(files);
            && (forall i :: 0 <= i < |r| && r[i].RegisterCall? ==> r[i].file in files && IsRagEligible(r[i].file.fileName))
            && (fates.firstRejects ==> forall i :: 0 <= i < |r| ==> !r[i].RegisterCall?)
            && (eligible != [] && !fates.firstRejects ==> forall i :: 0 <= i < |eligible| ==> r[i + 1] == RegisterCall(eligible[i]))
  {
    var eligible := Eligible(files);
    var r := RegisterInBackground(files, answer, now, fates);
    if |eligible| > 0 {
      assert r == Trace(eligible, Collect(eligible, answer, now), now, fates);
      forall i | 0 <= i < |r| && r[i].RegisterCall?
        ensures r[i].file in files && IsRagEligible(r[i].file.fileName)
      {
        assert !fates.firstRejects;
        assert i != 0 && i <= |eligible|;
        var f := eligible[i - 1];
        assert r[i] == RegisterCall(f);
        assert f in eligible;
      }
    }
  }

  /** The first save comes first. When no save rejects, the retry comes
      last and the second save is sent exactly when some answer produced
      an update, right before the retry; a rejected second save leaves the
      retry unsent, and the retry is sent only when no save rejected. */
  lemma SavesAroundRegistrations(files: seq<PushFile>, answer: PushFile -> RegisterAnswer, now: int, fates: SaveFates)
    requires Eligible(files) != []
    ensures var r := RegisterInBackground(files, answer, now, fates);
            var eligible := Eligible(files);
            var collected := Collect(eligible, answer, now);
            && r[0] == SaveCall(Placeholders(eligible, now), "")
            && (RetryCall in r <==> !fates.firstRejects && !(|collected.updates| > 0 && fates.secondRejects))
            && (fates == AllSavesResolve ==>
                  && r[|r| - 1] == RetryCall
                  && (|r| == |eligible| + 3 <==> |collected.updates| > 0)
                  && (|collected.updates| > 0 ==> r[|r| - 2] == SaveCall(collected.updates, collected.storeName)))
            && (!fates.firstRejects && |collected.updates| > 0 && fates.secondRejects ==>
                  r[|r| - 1] == SaveCall(collected.updates, collected.storeName))
  {
  }

  /** `ragRegisterNewFile`: nothing at all for an ineligible name; otherwise
      the background registration of that one file, content defaulting to `""`. */
  function RegisterNewFile(fileId: string, fileName: string, content: Option<string>,
                           answer: PushFile -> RegisterAnswer, now: int, fates: SaveFates): (r: seq<RagCall>)
    ensures !IsRagEligible(fileName) ==> r == []
    ensures IsRagEligible(fileName) && fates.firstRejects ==> |r| == 1 && r[0].SaveCall?
    ensures IsRagEligible(fileName) && !fates.firstRejects ==>
              |r| >= 3 && r[1] == RegisterCall(PushFile(fileId, content.GetOr(""), fileName))
  {
    if !IsRagEligible(fileName) then []
    else
      var f := PushFile(fileId, content.GetOr(""), fileName);
      assert Eligible([f]) == [f] by {
        assert [f][1..] == [];
      }
      RegisterInBackground([f], answer, now, fates)
  }

  /** The pending-first save never destroys a registered document: on the
      server every tracked entry that already has a document id keeps it. */
  lemma FirstSaveKeepsDocuments(
    files: seq<PushFile>, answer: PushFile -> RegisterAnswer, now: int, fates: SaveFates,
    tracking: map<string, RagFileInfo>, patterns: seq<string>, apiKey: Option<string>,
    later: int, deleteOk: string -> bool, test: (string, string) -> bool, k: string)
    requires Eligible(files) != []
    requires Tracked(k, patterns, test) && k in tracking && Truthy(tracking[k].fileId)
    ensures var first := RegisterInBackground(files, answer, now, fates)[0];
            var r := MergeUpdates(tracking, first.updates, patterns, apiKey, later, deleteOk, test);
            k in r && r[k] == tracking[k]
  {
    var updates := Placeholders(Eligible(files), now);
    PlaceholdersKeepDocument(tracking, updates, patterns, apiKey, later, deleteOk, test, k);
  }
}
