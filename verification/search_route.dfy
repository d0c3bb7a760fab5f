/** The search endpoint: request validation, then either a file search
    through Gemini over RAG stores, with a model allow-list and one fallback
    model, or a name search on Drive. The Gemini and Drive calls are
    oracles; their failures are `Err(message)`. */
module SearchRoute {
  import opened Wrappers
  import opened Text

  // ---------------------------------------------------------------------
  // Requests and replies

  /** The `query` field of the JSON body. */
  datatype QueryField = Absent | NotText | Text(text: string)

  /** The parsed body; `mode` and `model` are `None` when absent or not a
      string. */
  datatype Body = Body(query: QueryField, mode: Option<string>, ragStoreIds: Option<seq<string>>, topK: Option<int>, model: Option<string>)

  /** `None` for a body that is not valid JSON. */
  datatype Request = Request(httpMethod: string, body: Option<Body>)

  datatype SearchHit = SearchHit(title: string, uri: Option<string>, snippet: Option<string>)

  datatype DriveHit = DriveHit(id: string, name: string, mimeType: string)

  datatype ReplyBody =
    | PlainText(text: string)
    | ErrorBody(error: string)
    | RagBody(results: seq<SearchHit>, aiText: Option<string>)
    | DriveBody(driveResults: seq<DriveHit>)

  datatype Reply = Reply(status: int, body: ReplyBody)

  function BadRequest(error: string): Reply {
    Reply(400, ErrorBody(error))
  }

  // ---------------------------------------------------------------------
  // Gemini responses

  /** A grounding chunk's retrieved context; absent fields are `None`. */
  datatype Chunk = Chunk(title: Option<string>, uri: Option<string>, text: Option<string>)

  /** A candidate: the texts of its content parts and its grounding chunks
      (an absent list is empty). */
  datatype Candidate = Candidate(parts: seq<Option<string>>, chunks: seq<Chunk>)

  datatype GenResponse = GenResponse(candidates: seq<Candidate>)

  /** What the route knows about the caller: the Gemini API key and the
      plan stored with the session. */
  datatype Session = Session(geminiApiKey: Option<string>, apiPlan: string)

  // ---------------------------------------------------------------------
  // Parameters

  /** `Math.min(20, Math.max(1, topK ?? 5))`. */
  function ClampTopK(topK: Option<int>): (r: int)
    ensures 1 <= r <= 20
    ensures topK.None? ==> r == 5
    ensures topK.Some? && 1 <= topK.value <= 20 ==> r == topK.value
    ensures topK.Some? && topK.value < 1 ==> r == 1
    ensures topK.Some? && topK.value > 20 ==> r == 20
  {
    var k := topK.GetOr(5);
    if k < 1 then 1 else if k > 20 then 20 else k
  }

  const PaidModels: seq<string> := ["gemini-3-flash-preview", "gemini-3-pro-preview"]
  const FreeModels: seq<string> := ["gemini-2.5-flash-lite", "gemini-2.5-flash"]

  /** The models a plan may use; any plan other than `"free"` is paid. */
  function AllowedModels(apiPlan: string): (r: seq<string>)
    ensures apiPlan == "free" <==> r == FreeModels
    ensures |r| == 2 && r[0] != r[1]
  {
    if apiPlan == "free" then FreeModels else PaidModels
  }

  /** The requested model when the plan allows it, otherwise the plan's
      first model; a `model` field that is not a string requests `""`. */
  function SelectModel(allowed: seq<string>, requested: string): (r: string)
    requires |allowed| > 0
    ensures r in allowed
    ensures requested in allowed ==> r == requested
    ensures requested !in allowed ==> r == allowed[0]
  {
    if requested in allowed then requested else allowed[0]
  }

  /** `allowed.find(m => m !== selected)`. */
  function Fallback(allowed: seq<string>, selected: string): (r: Option<string>)
    ensures r.Some? ==> exists i :: 0 <= i < |allowed| && allowed[i] == r.value && forall j :: 0 <= j < i ==> allowed[j] == selected
    ensures r.Some? ==> r.value != selected
    ensures r.None? <==> forall i :: 0 <= i < |allowed| ==> allowed[i] == selected
  {
    if |allowed| == 0 then None
    else if allowed[0] != selected then Some(allowed[0])
    else
      var rest := Fallback(allowed[1..], selected);
      if rest.Some? then
        ghost var i :| 0 <= i < |allowed[1..]| && allowed[1..][i] == rest.value && forall j :: 0 <= j < i ==> allowed[1..][j] == selected;
        assert allowed[i + 1] == rest.value && forall j :: 0 <= j < i + 1 ==> allowed[j] == selected;
        rest
      else rest
  }

  /** With two distinct models allowed, the fallback is the other one. */
  lemma FallbackIsTheOther(apiPlan: string, requested: string)
    ensures var allowed := AllowedModels(apiPlan);
            var selected := SelectModel(allowed, requested);
            var other := if selected == allowed[0] then allowed[1] else allowed[0];
            Fallback(allowed, selected) == Some(other)
  {
  }

  /** `/tool_type|fileSearch|not supported/i`. */
  predicate Retryable(message: string) {
    var m := ToLower(message);
    Contains(m, "tool_type") || Contains(m, "filesearch") || Contains(m, "not supported")
  }

  /** The search on the selected model, and once more on the fallback
      model when the first attempt failed with a retryable error. */
  function RunWithFallback(run: string -> Result<GenResponse>, selected: string, fallback: Option<string>): (r: Result<GenResponse>)
    ensures run(selected).Ok? ==> r == run(selected)
    ensures run(selected).Err? && Retryable(run(selected).error) && fallback.Some? ==> r == run(fallback.value)
    ensures run(selected).Err? && !(Retryable(run(selected).error) && fallback.Some?) ==> r == run(selected)
  {
    match run(selected)
    case Ok(resp) => Ok(resp)
    case Err(message) =>
      if Retryable(message) && fallback.Some? then run(fallback.value) else Err(message)
  }

  // ---------------------------------------------------------------------
  // Results

  predicate Titled(c: Chunk) {
    c.title.Some? && c.title.value != ""
  }

  function HitOf(c: Chunk): SearchHit
    requires Titled(c)
  {
    SearchHit(c.title.value, c.uri, if c.text.Some? && c.text.value != "" then c.text else None)
  }

  predicate SameKey(h: SearchHit, c: Chunk) {
    c.title == Some(h.title) && h.uri == c.uri
  }

  predicate Seen(hits: seq<SearchHit>, c: Chunk) {
    exists i :: 0 <= i < |hits| && SameKey(hits[i], c)
  }

  /** The loop over the grounding chunks: a chunk with a title is added
      unless a hit with the same title and URI is already there. */
  function CollectHits(chunks: seq<Chunk>): (r: seq<SearchHit>)
    decreases |chunks|
  {
    if |chunks| == 0 then []
    else
      var prev := CollectHits(chunks[..|chunks| - 1]);
      var c := chunks[|chunks| - 1];
      if Titled(c) && !Seen(prev, c) then prev + [HitOf(c)] else prev
  }

  /** Every hit comes from a titled chunk, with its snippet, and no two hits
      share a title and URI. */
  lemma {:induction false} HitsSound(chunks: seq<Chunk>)
    ensures forall i :: 0 <= i < |CollectHits(chunks)| ==>
              exists k :: 0 <= k < |chunks| && Titled(chunks[k]) && CollectHits(chunks)[i] == HitOf(chunks[k])
    ensures forall i, j :: 0 <= i < j < |CollectHits(chunks)| ==>
              !(CollectHits(chunks)[i].title == CollectHits(chunks)[j].title && CollectHits(chunks)[i].uri == CollectHits(chunks)[j].uri)
    decreases |chunks|
  {
    if |chunks| > 0 {
      var init := chunks[..|chunks| - 1];
      HitsSound(init);
      var prev := CollectHits(init);
      var c := chunks[|chunks| - 1];
      var r := CollectHits(chunks);
      forall i | 0 <= i < |r|
        ensures exists k :: 0 <= k < |chunks| && Titled(chunks[k]) && r[i] == HitOf(chunks[k])
      {
        if i < |prev| {
          var k :| 0 <= k < |init| && Titled(init[k]) && prev[i] == HitOf(init[k]);
          assert chunks[k] == init[k] && r[i] == prev[i];
        } else {
          assert r[i] == HitOf(c);
        }
      }
      if Titled(c) && !Seen(prev, c) {
        forall i, j | 0 <= i < j < |r|
          ensures !(r[i].title == r[j].title && r[i].uri == r[j].uri)
        {
          if j == |prev| {
            if r[i].title == r[j].title && r[i].uri == r[j].uri {
              assert SameKey(prev[i], c);
            }
          }
        }
      }
    } else {
      assert CollectHits(chunks) == [];
    }
  }

  /** Every titled chunk is represented by a hit with its title and URI. */
  lemma {:induction false} HitsComplete(chunks: seq<Chunk>)
    ensures forall k :: 0 <= k < |chunks| && Titled(chunks[k]) ==> Seen(CollectHits(chunks), chunks[k])
    decreases |chunks|
  {
    if |chunks| > 0 {
      var init := chunks[..|chunks| - 1];
      HitsComplete(init);
      var prev := CollectHits(init);
      var r := CollectHits(chunks);
      assert prev <= r;
      forall k | 0 <= k < |chunks| && Titled(chunks[k])
        ensures Seen(r, chunks[k])
      {
        if k < |init| {
          assert chunks[k] == init[k];
          var i :| 0 <= i < |prev| && SameKey(prev[i], init[k]);
          assert r[i] == prev[i];
        } else if !Seen(prev, chunks[k]) {
          assert r[|prev|] == HitOf(chunks[k]);
        }
      }
    }
  }

  /** Chunks without a title contribute nothing. */
  lemma UntitledIgnored(chunks: seq<Chunk>, c: Chunk)
    requires !Titled(c)
    ensures CollectHits(chunks + [c]) == CollectHits(chunks)
  {
    assert (chunks + [c])[..|chunks|] == chunks;
  }

  /** The non-empty texts of the parts, concatenated. */
  function JoinTexts(parts: seq<Option<string>>): (r: string)
    decreases |parts|
  {
    if |parts| == 0 then ""
    else
      var last := parts[|parts| - 1];
      JoinTexts(parts[..|parts| - 1]) + (if last.Some? then last.value else "")
  }

  lemma {:induction false} JoinTextsAppend(a: seq<Option<string>>, b: seq<Option<string>>)
    ensures JoinTexts(a + b) == JoinTexts(a) + JoinTexts(b)
    decreases |b|
  {
    if |b| == 0 {
      assert a + b == a;
    } else {
      assert (a + b)[..|a + b| - 1] == a + b[..|b| - 1];
      JoinTextsAppend(a, b[..|b| - 1]);
    }
  }

  /** The summary text: the first candidate's part texts, or nothing. */
  function AiText(resp: GenResponse): (r: Option<string>)
    ensures r.Some? ==> r.value != "" && |resp.candidates| > 0 && r.value == JoinTexts(resp.candidates[0].parts)
    ensures r.None? <==> |resp.candidates| == 0 || JoinTexts(resp.candidates[0].parts) == ""
  {
    if |resp.candidates| == 0 then None
    else
      var t := JoinTexts(resp.candidates[0].parts);
      if t == "" then None else Some(t)
  }

  /** The results of a RAG search: the hits of the first candidate. */
  function RagResults(resp: GenResponse): (r: seq<SearchHit>)
    ensures |resp.candidates| == 0 ==> r == []
    ensures |resp.candidates| > 0 ==> r == CollectHits(resp.candidates[0].chunks)
  {
    if |resp.candidates| == 0 then [] else CollectHits(resp.candidates[0].chunks)
  }

  // ---------------------------------------------------------------------
  // The action

  predicate QueryGiven(q: QueryField) {
    q.Text? && q.text != ""
  }

  predicate HasKey(s: Session) {
    s.geminiApiKey.Some? && s.geminiApiKey.value != ""
  }

  predicate HasStores(b: Body) {
    b.ragStoreIds.Some? && |b.ragStoreIds.value| > 0
  }

  /** The RAG branch, once the query is known to be present. */
  function RagSearch(b: Body, session: Session, run: (string, int) -> Result<GenResponse>): (r: Reply)
    ensures !HasKey(session) ==> r == BadRequest("Gemini API key not configured")
    ensures HasKey(session) && !HasStores(b) ==> r == BadRequest("ragStoreIds is required for RAG search")
    ensures HasKey(session) && HasStores(b) ==>
              var allowed := AllowedModels(session.apiPlan);
              var selected := SelectModel(allowed, b.model.GetOr(""));
              var outcome := RunWithFallback(m => run(m, ClampTopK(b.topK)), selected, Fallback(allowed, selected));
              && (outcome.Err? ==> r == Reply(500, ErrorBody(outcome.error)))
              && (outcome.Ok? ==> r == Reply(200, RagBody(RagResults(outcome.value), AiText(outcome.value))))
  {
    if !HasKey(session) then BadRequest("Gemini API key not configured")
    else if !HasStores(b) then BadRequest("ragStoreIds is required for RAG search")
    else
      var topK := ClampTopK(b.topK);
      var allowed := AllowedModels(session.apiPlan);
      var selected := SelectModel(allowed, b.model.GetOr(""));
      match RunWithFallback(m => run(m, topK), selected, Fallback(allowed, selected))
      case Err(message) => Reply(500, ErrorBody(message))
      case Ok(resp) => Reply(200, RagBody(RagResults(resp), AiText(resp)))
  }

  /** The search action. `run(model, topK)` is the Gemini file search and
      `searchDrive(query)` the Drive name search. */
  function Search(req: Request, session: Session, run: (string, int) -> Result<GenResponse>,
                  searchDrive: string -> Result<seq<DriveHit>>): (r: Reply)
    ensures req.httpMethod != "POST" <==> r.status == 405
    ensures req.httpMethod != "POST" ==> r == Reply(405, PlainText("Method not allowed"))
    ensures req.httpMethod == "POST" && req.body.None? ==> r == BadRequest("Invalid JSON body")
    ensures req.httpMethod == "POST" && req.body.Some? && !QueryGiven(req.body.value.query) ==> r == BadRequest("query is required")
    ensures req.httpMethod == "POST" && req.body.Some? && QueryGiven(req.body.value.query) ==>
              var b := req.body.value;
              && (b.mode == Some("rag") ==> r == RagSearch(b, session, run))
              && (b.mode == Some("drive") && searchDrive(b.query.text).Ok? ==> r == Reply(200, DriveBody(searchDrive(b.query.text).value)))
              && (b.mode == Some("drive") && searchDrive(b.query.text).Err? ==> r == Reply(500, ErrorBody(searchDrive(b.query.text).error)))
              && (b.mode != Some("rag") && b.mode != Some("drive") ==> r == BadRequest("Invalid mode"))
    ensures r.body.RagBody? ==> req.httpMethod == "POST" && req.body.Some? && req.body.value.mode == Some("rag") && HasKey(session) && HasStores(req.body.value)
  {
    if req.httpMethod != "POST" then Reply(405, PlainText("Method not allowed"))
    else match req.body
      case None => BadRequest("Invalid JSON body")
      case Some(b) =>
        if !QueryGiven(b.query) then BadRequest("query is required")
        else if b.mode == Some("rag") then RagSearch(b, session, run)
        else if b.mode == Some("drive") then
          match searchDrive(b.query.text)
          case Ok(files) => Reply(200, DriveBody(files))
          case Err(message) => Reply(500, ErrorBody(message))
        else BadRequest("Invalid mode")
  }

  /** A RAG reply never lists two hits with the same title and URI, and
      every hit has a title. */
  lemma RagRepliesDeduplicated(req: Request, session: Session, run: (string, int) -> Result<GenResponse>,
                               searchDrive: string -> Result<seq<DriveHit>>)
    ensures var r := Search(req, session, run, searchDrive);
            r.body.RagBody? ==>
              && (forall i :: 0 <= i < |r.body.results| ==> r.body.results[i].title != "")
              && (forall i, j :: 0 <= i < j < |r.body.results| ==>
                    !(r.body.results[i].title == r.body.results[j].title && r.body.results[i].uri == r.body.results[j].uri))
  {
    var r := Search(req, session, run, searchDrive);
    if r.body.RagBody? {
      var b := req.body.value;
      var allowed := AllowedModels(session.apiPlan);
      var selected := SelectModel(allowed, b.model.GetOr(""));
      var outcome := RunWithFallback(m => run(m, ClampTopK(b.topK)), selected, Fallback(allowed, selected));
      var resp := outcome.value;
      if |resp.candidates| > 0 {
        HitsSound(resp.candidates[0].chunks);
      }
    }
  }
}
