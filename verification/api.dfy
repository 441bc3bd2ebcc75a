/**
 * `main.py`: the outcome of the three HTTP endpoints. The agent runner's
 * event stream, the session store and JSON decoding are inputs; what is
 * modelled is how the endpoints turn them into a response or an HTTP error.
 */
module Api {
  import opened Options
  import opened Json
  import FactCheckResultModel
  import SessionDb

  /** The author whose final event carries the verdict. */
  const FinalAuthor: string := "FactRankerAgent"

  /** An event of the runner: its author, whether it is a final response,
      and the text of its first content part (`None` when there is no
      content, no part or no text). */
  datatype Event = Event(author: string, isFinal: bool, firstText: Option<string>)

  /** The runner's stream: events, possibly ended by an exception. */
  datatype StreamStep = Emit(event: Event) | Raise(reason: string)

  datatype QueryRequest = QueryRequest(userId: string, query: string, sessionId: string)

  datatype QueryResponse = QueryResponse(
    sessionId: string,
    verdict: string,
    credibilityScore: Option<int>,
    shortSummary: string,
    fullExplanation: string,
    sources: seq<string>)

  /** Why an endpoint failed. */
  datatype Cause =
    | SessionSetupFailed
    | StreamRaised(reason: string)
    | FinalOutputInvalid
    | EmptyFinalResponse
    | NoFinalResponse
    | StoreFailed
    | HistoryEmpty
    | ResponseInvalid

  datatype HttpError = HttpError(status: int, cause: Cause)

  /** The event that ends the loop. */
  predicate Decides(e: Event) {
    e.isFinal && e.author == FinalAuthor
  }

  /** A non-empty first text. */
  predicate HasText(e: Event) {
    e.firstText.Some? && |e.firstText.value| > 0
  }

  /** `FactCheckResult.model_validate_json`: decoding, then validation. */
  function ParseResult(text: string, decode: string -> Option<JsonValue>): Option<FactCheckResultModel.FactCheckResult> {
    match decode(text)
    case None => None
    case Some(doc) => FactCheckResultModel.Validate(doc)
  }

  /** The response built from a final event, or the error it raises. */
  function Answer(request: QueryRequest, e: Event, decode: string -> Option<JsonValue>): (r: Result<QueryResponse, HttpError>)
    ensures !HasText(e) ==> r == Err(HttpError(500, EmptyFinalResponse))
    ensures HasText(e) && ParseResult(e.firstText.value, decode).None? ==> r == Err(HttpError(500, FinalOutputInvalid))
    ensures r.Ok? ==>
              var result := ParseResult(e.firstText.value, decode).value;
              && HasText(e)
              && r.value.sessionId == request.sessionId
              && r.value.verdict == FactCheckResultModel.VerdictLabel(result.verdict)
              && r.value.credibilityScore == Some(result.credibilityScore)
              && r.value.shortSummary == result.shortSummary
              && r.value.fullExplanation == result.fullExplanation
              && r.value.sources == result.sources
  {
    if !HasText(e) then Err(HttpError(500, EmptyFinalResponse))
    else
      match ParseResult(e.firstText.value, decode)
      case None => Err(HttpError(500, FinalOutputInvalid))
      case Some(result) =>
        Ok(QueryResponse(
          request.sessionId,
          FactCheckResultModel.VerdictLabel(result.verdict),
          Some(result.credibilityScore),
          result.shortSummary,
          result.fullExplanation,
          result.sources))
  }

  /** A step that ends the loop: a raise, or a deciding event. */
  predicate Stops(step: StreamStep) {
    step.Raise? || Decides(step.event)
  }

  /** The position of the first step that ends the loop; the stream's length
      when none does. */
  function FirstStop(stream: seq<StreamStep>): (n: nat)
    ensures n <= |stream|
    ensures n < |stream| ==> Stops(stream[n])
    ensures forall j :: 0 <= j < n ==> !Stops(stream[j])
    decreases |stream|
  {
    if |stream| == 0 || Stops(stream[0]) then 0
    else
      var n := 1 + FirstStop(stream[1..]);
      assert forall j :: 1 <= j < n ==> stream[j] == stream[1..][j - 1];
      n
  }

  /** The `async for` loop over the stream: the first step that ends the loop
      decides the outcome, and a stream without one has no final response. */
  function ConsumeStream(request: QueryRequest, stream: seq<StreamStep>, decode: string -> Option<JsonValue>): (r: Result<QueryResponse, HttpError>)
    ensures r.Err? ==> r.error.status == 500
    ensures FirstStop(stream) == |stream| ==> r == Err(HttpError(500, NoFinalResponse))
    ensures FirstStop(stream) < |stream| && stream[FirstStop(stream)].Raise? ==>
              r == Err(HttpError(500, StreamRaised(stream[FirstStop(stream)].reason)))
    ensures FirstStop(stream) < |stream| && stream[FirstStop(stream)].Emit? ==>
              r == Answer(request, stream[FirstStop(stream)].event, decode)
    decreases |stream|
  {
    if |stream| == 0 then Err(HttpError(500, NoFinalResponse))
    else
      match stream[0]
      case Raise(reason) => Err(HttpError(500, StreamRaised(reason)))
      case Emit(e) =>
        if Decides(e) then Answer(request, e, decode) else ConsumeStream(request, stream[1..], decode)
  }

  /** `query_agent`. `sessionReady` is whether making sure the session exists
      succeeded. Every failure, including the endpoint's own HTTP errors, is
      re-raised by the outer handler as status 500. */
  function QueryAgent(request: QueryRequest, sessionReady: bool, stream: seq<StreamStep>, decode: string -> Option<JsonValue>): (r: Result<QueryResponse, HttpError>)
    ensures !sessionReady ==> r == Err(HttpError(500, SessionSetupFailed))
    ensures sessionReady ==> r == ConsumeStream(request, stream, decode)
    ensures r.Err? ==> r.error.status == 500
    ensures r.Ok? ==> r.value.sessionId == request.sessionId
  {
    if !sessionReady then Err(HttpError(500, SessionSetupFailed))
    else
      var r := ConsumeStream(request, stream, decode);
      ConsumeStreamOk(request, stream, decode);
      r
  }

  /** A successful answer always comes from some deciding event. */
  lemma {:induction false} ConsumeStreamOk(request: QueryRequest, stream: seq<StreamStep>, decode: string -> Option<JsonValue>)
    ensures ConsumeStream(request, stream, decode).Ok? ==>
              exists i :: 0 <= i < |stream| && stream[i].Emit? && Decides(stream[i].event) &&
                ConsumeStream(request, stream, decode) == Answer(request, stream[i].event, decode)
    ensures ConsumeStream(request, stream, decode).Ok? ==> ConsumeStream(request, stream, decode).value.sessionId == request.sessionId
    decreases |stream|
  {
    if |stream| > 0 && stream[0].Emit? && !Decides(stream[0].event) {
      ConsumeStreamOk(request, stream[1..], decode);
      if ConsumeStream(request, stream, decode).Ok? {
        var i :| 0 <= i < |stream[1..]| && stream[1..][i].Emit? && Decides(stream[1..][i].event) &&
                 ConsumeStream(request, stream[1..], decode) == Answer(request, stream[1..][i].event, decode);
        assert stream[i + 1] == stream[1..][i];
      }
    }
  }

  /** Events that do not decide are skipped: they never end the loop. */
  lemma SkipsUndecisiveEvent(request: QueryRequest, e: Event, rest: seq<StreamStep>, decode: string -> Option<JsonValue>)
    requires !Decides(e)
    ensures ConsumeStream(request, [Emit(e)] + rest, decode) == ConsumeStream(request, rest, decode)
  {
    assert ([Emit(e)] + rest)[1..] == rest;
  }

  /** The first deciding event settles the outcome: what the stream would
      have produced after it is never looked at. */
  lemma {:induction false} FirstDecidingEventSettles(
    request: QueryRequest, stream: seq<StreamStep>, i: nat, later: seq<StreamStep>, decode: string -> Option<JsonValue>)
    requires i < |stream| && stream[i].Emit? && Decides(stream[i].event)
    requires forall j :: 0 <= j < i ==> stream[j].Emit? && !Decides(stream[j].event)
    ensures ConsumeStream(request, stream, decode) == Answer(request, stream[i].event, decode)
    ensures ConsumeStream(request, stream[..i + 1] + later, decode) == ConsumeStream(request, stream, decode)
    decreases i
  {
    var extended := stream[..i + 1] + later;
    assert extended[0] == stream[0];
    if i > 0 {
      assert stream[1..][i - 1] == stream[i];
      assert extended[1..] == stream[1..][..i] + later;
      FirstDecidingEventSettles(request, stream[1..], i - 1, later, decode);
    }
  }

  /** A stream that ends without a deciding event fails with the "no valid
      final response" error, unless it raised first. */
  lemma {:induction false} NoDecidingEvent(request: QueryRequest, stream: seq<StreamStep>, decode: string -> Option<JsonValue>)
    requires forall j :: 0 <= j < |stream| ==> stream[j].Emit? && !Decides(stream[j].event)
    ensures ConsumeStream(request, stream, decode) == Err(HttpError(500, NoFinalResponse))
    decreases |stream|
  {
    if |stream| > 0 {
      NoDecidingEvent(request, stream[1..], decode);
    }
  }

  /** A deciding event whose text is a valid verdict record answers with that
      record's fields. */
  lemma ValidFinalEventAnswers(request: QueryRequest, r: FactCheckResultModel.FactCheckResult, text: string, decode: string -> Option<JsonValue>)
    requires FactCheckResultModel.Valid(r) && |text| > 0
    requires decode(text) == Some(FactCheckResultModel.Encode(r))
    ensures QueryAgent(request, true, [Emit(Event(FinalAuthor, true, Some(text)))], decode) ==
              Ok(QueryResponse(request.sessionId, FactCheckResultModel.VerdictLabel(r.verdict), Some(r.credibilityScore),
                               r.shortSummary, r.fullExplanation, r.sources))
  {
    FactCheckResultModel.ValidateEncode(r);
  }

  // ---------------------------------------------------------------------------
  // list_past_sessions
  // ---------------------------------------------------------------------------

  /** A listed session: its id, its creation time if it has one, and whether
      the response model accepts it as a `SessionInfo` (a string `id` and a
      datetime `create_time`; the model reads no attributes of arbitrary
      objects, so that is decided by the store's session type). */
  datatype ListedSession = ListedSession(id: string, createTime: Option<string>, conforms: bool)

  /** The sessions that have a creation time, in listing order. */
  function WithCreateTime(sessions: seq<ListedSession>): (r: seq<ListedSession>)
    ensures |r| <= |sessions|
    ensures forall i :: 0 <= i < |r| ==> r[i].createTime.Some?
    decreases |sessions|
  {
    if |sessions| == 0 then []
    else
      var rest := WithCreateTime(sessions[1..]);
      if sessions[0].createTime.Some? then [sessions[0]] + rest else rest
  }

  /** The filter distributes over concatenation: listing order is kept. */
  lemma {:induction false} WithCreateTimeAppend(a: seq<ListedSession>, b: seq<ListedSession>)
    ensures WithCreateTime(a + b) == WithCreateTime(a) + WithCreateTime(b)
    decreases |a|
  {
    if |a| == 0 {
      assert a + b == b;
    } else {
      assert (a + b)[0] == a[0];
      assert (a + b)[1..] == a[1..] + b;
      WithCreateTimeAppend(a[1..], b);
    }
  }

  /** A session is kept exactly when it is listed and has a creation time. */
  lemma {:induction false} WithCreateTimeMembers(sessions: seq<ListedSession>)
    ensures forall s :: s in WithCreateTime(sessions) <==> s in sessions && s.createTime.Some?
    decreases |sessions|
  {
    if |sessions| > 0 {
      WithCreateTimeMembers(sessions[1..]);
      assert sessions == [sessions[0]] + sessions[1..];
    }
  }

  /** A single session is kept exactly when it has a creation time. */
  lemma WithCreateTimeSingleton(s: ListedSession)
    ensures WithCreateTime([s]) == if s.createTime.Some? then [s] else []
  {
    assert [s][1..] == [];
  }

  /** `list_past_sessions`: `None` stands for a listing that raised. Building
      the response inside the `try` raises for a kept session the response
      model rejects, which also becomes a 500. */
  function ListPastSessions(listing: Option<seq<ListedSession>>): (r: Result<seq<ListedSession>, HttpError>)
    ensures listing.None? ==> r == Err(HttpError(500, StoreFailed))
    ensures r.Err? ==> r.error.status == 500
    ensures listing.Some? ==>
              (r.Ok? <==> forall s :: s in listing.value && s.createTime.Some? ==> s.conforms)
    ensures listing.Some? && r.Err? ==> r.error.cause == ResponseInvalid
    ensures r.Ok? ==> |r.value| <= |listing.value|
    ensures listing.Some? && r.Ok? ==> r.value == WithCreateTime(listing.value)
    ensures r.Ok? ==> forall s :: s in r.value <==> s in listing.value && s.createTime.Some?
    ensures r.Ok? ==> forall i :: 0 <= i < |r.value| ==> r.value[i].createTime.Some? && r.value[i].conforms
  {
    match listing
    case None => Err(HttpError(500, StoreFailed))
    case Some(sessions) =>
      var kept := WithCreateTime(sessions);
      WithCreateTimeMembers(sessions);
      if exists i :: 0 <= i < |kept| && !kept[i].conforms then Err(HttpError(500, ResponseInvalid))
      else Ok(kept)
  }

  // ---------------------------------------------------------------------------
  // load_past_session_chats
  // ---------------------------------------------------------------------------

  /** What looking a session up did: raised, or found the session or nothing. */
  datatype SessionLookup = LookupRaised | Looked(session: Option<SessionDb.Session>)

  datatype SessionHistoryResponse = SessionHistoryResponse(sessionId: string, history: seq<SessionDb.HistoryEntry>)

  /** `load_past_session_chats` as written: the 404 raised for an empty
      history is inside the `try`, so the handler turns it into a 500. */
  function LoadPastSessionChatsAsWritten(sessionId: string, lookup: SessionLookup): (r: Result<SessionHistoryResponse, HttpError>)
    ensures r.Err? ==> r.error.status == 500
    ensures r.Ok? ==> r.value.sessionId == sessionId && |r.value.history| > 0
    ensures r.Ok? ==> lookup.Looked? && r.value.history == SessionDb.SessionHistory(lookup.session)
    ensures lookup.Looked? && |SessionDb.SessionHistory(lookup.session)| > 0 ==>
              r == Ok(SessionHistoryResponse(sessionId, SessionDb.SessionHistory(lookup.session)))
  {
    match lookup
    case LookupRaised => Err(HttpError(500, StoreFailed))
    case Looked(session) =>
      var history := SessionDb.SessionHistory(session);
      if |history| == 0 then Err(HttpError(500, HistoryEmpty))
      else Ok(SessionHistoryResponse(sessionId, history))
  }

  /** The declared 404 never reaches the client: a missing session is
      answered with 500. */
  lemma MissingSessionGets500(sessionId: string)
    ensures LoadPastSessionChatsAsWritten(sessionId, Looked(None)).Err?
    ensures LoadPastSessionChatsAsWritten(sessionId, Looked(None)).error.status == 500
  {
  }

  /** `load_past_session_chats` with the 404 let through: a missing session
      or an empty history is answered with 404, a failing store with 500. */
  function LoadPastSessionChats(sessionId: string, lookup: SessionLookup): (r: Result<SessionHistoryResponse, HttpError>)
    ensures r.Err? ==> r.error.status == 404 || r.error.status == 500
    ensures r.Ok? ==> r.value.sessionId == sessionId && |r.value.history| > 0
    ensures r.Ok? ==> lookup.Looked? && r.value.history == SessionDb.SessionHistory(lookup.session)
    ensures lookup.Looked? && |SessionDb.SessionHistory(lookup.session)| > 0 ==>
              r == Ok(SessionHistoryResponse(sessionId, SessionDb.SessionHistory(lookup.session)))
  {
    match lookup
    case LookupRaised => Err(HttpError(500, StoreFailed))
    case Looked(session) =>
      var history := SessionDb.SessionHistory(session);
      if |history| == 0 then Err(HttpError(404, HistoryEmpty))
      else Ok(SessionHistoryResponse(sessionId, history))
  }

  /** The corrected endpoint answers 404 exactly when the session is missing
      or has nothing to show; a session with a shown message is answered with
      its history, as the code as written answers it. */
  lemma NotFoundIffNothingToShow(sessionId: string, lookup: SessionLookup)
    ensures var r := LoadPastSessionChats(sessionId, lookup);
            (r.Err? && r.error.status == 404) <==>
              (lookup.Looked? &&
               (lookup.session.None? ||
                forall i :: 0 <= i < |lookup.session.value.messages| ==> !SessionDb.Shown(lookup.session.value.messages[i])))
    ensures LoadPastSessionChats(sessionId, lookup).Ok? ==>
              LoadPastSessionChats(sessionId, lookup) == LoadPastSessionChatsAsWritten(sessionId, lookup)
    ensures lookup.Looked? && lookup.session.Some? &&
            (exists i :: 0 <= i < |lookup.session.value.messages| && SessionDb.Shown(lookup.session.value.messages[i])) ==>
              LoadPastSessionChats(sessionId, lookup) ==
                Ok(SessionHistoryResponse(sessionId, SessionDb.HistoryOf(lookup.session.value.messages)))
  {
  }
}
