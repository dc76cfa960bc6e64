/**
  * The server side of a submission: the validator, the request schema and the
  * two HTTP handlers. The mail relay is an input (`relayDelivered`), not a model.
  */
module Routes {
  import opened Optional
  import Text
  import Storage

  const RequiredMessage: string := "Session data is required"
  const InvalidPasteMessage: string := "Invalid Paste"
  const FormatFallbackMessage: string := "Invalid session data format"
  const SuccessMessage: string := "Session data submitted successfully"
  const RelayFailureMessage: string := "Failed to send email notification"

  /** The server's `validateSessionData`: the marker occurs in `data`, case-sensitive, untrimmed. */
  function ValidateSessionData(data: string): (r: bool)
    ensures r <==> Text.Occurs(data, Text.Marker)
  {
    Text.Includes(data, Text.Marker)
  }

  /**
    * A request body as the schema sees it: an object whose `sessionData` is a
    * string, or anything else, for which the schema library reports its own
    * first issue message.
    */
  datatype RequestBody = Body(sessionData: string) | Malformed(firstIssue: string)

  /**
    * The issues the `sessionData` rule reports, in order: the length rule
    * (at least one character) first, then the marker refinement.
    */
  function SessionDataIssues(s: string): (issues: seq<string>)
    ensures issues == [] <==> s != [] && Text.Occurs(s, Text.Marker)
    ensures s == [] ==> issues == [RequiredMessage, InvalidPasteMessage]
    ensures s != [] ==> issues == [] || issues == [InvalidPasteMessage]
  {
    (if |s| < 1 then [RequiredMessage] else []) +
    (if ValidateSessionData(s) then [] else [InvalidPasteMessage])
  }

  /**
    * `submissionSchema.parse`: the validated session data, or the message of the
    * first issue (the fallback text when that message is empty).
    */
  function ParseSubmission(body: RequestBody): (r: Result<string, string>)
    ensures r.Ok? <==> body.Body? && body.sessionData != [] && Text.Occurs(body.sessionData, Text.Marker)
    ensures r.Ok? ==> r.value == body.sessionData
    ensures body.Body? && body.sessionData == [] ==> r == Err(RequiredMessage)
    ensures body.Body? && body.sessionData != [] && !Text.Occurs(body.sessionData, Text.Marker) ==>
      r == Err(InvalidPasteMessage)
    ensures r.Err? ==> r.error != []
  {
    match body
    case Malformed(issue) =>
      Err(if issue == [] then FormatFallbackMessage else issue)
    case Body(s) =>
      var issues := SessionDataIssues(s);
      if issues == [] then Ok(s) else Err(issues[0])
  }

  /** The JSON reply of `POST /api/submit-session` with its HTTP status. */
  datatype SubmitResponse = SubmitResponse(status: int, success: bool, message: string, submissionId: Option<int>)

  /** The reply to a body the schema rejects. */
  function Rejection(message: string): SubmitResponse {
    SubmitResponse(400, false, message, None)
  }

  /**
    * `POST /api/submit-session`: Received, then Rejected (400) when the schema
    * fails, else Stored, then Failed (500) when the relay reports failure or
    * Accepted (200) with the new record's id. `email` is the fixed address the
    * deployment writes into each record; `relayDelivered` is the relay's verdict.
    * A rejection leaves the store as it was; a relay failure keeps the new record.
    */
  method SubmitSession(store: Storage.MemStorage, body: RequestBody, email: string,
                       relayDelivered: bool, now: Storage.Timestamp)
    returns (resp: SubmitResponse)
    requires store.Valid()
    modifies store
    ensures store.Valid()
    ensures ParseSubmission(body).Err? ==>
      resp == Rejection(ParseSubmission(body).error) && unchanged(store)
    ensures ParseSubmission(body).Ok? ==>
      var id := old(store.currentSubmissionId);
      id >= 1 && id !in old(store.submissions) &&
      store.currentSubmissionId == id + 1 &&
      store.submissions == old(store.submissions)[id := Storage.Submission(id, body.sessionData, email, now)] &&
      store.submissionOrder == old(store.submissionOrder) + [id] &&
      store.users == old(store.users) && store.userOrder == old(store.userOrder) &&
      store.currentUserId == old(store.currentUserId) &&
      resp == if relayDelivered then SubmitResponse(200, true, SuccessMessage, Some(id))
              else SubmitResponse(500, false, RelayFailureMessage, None)
  {
    var parsed := ParseSubmission(body);
    if parsed.Err? {
      return Rejection(parsed.error);
    }
    var submission := store.CreateSubmission(Storage.InsertSubmission(parsed.value, email), now);
    if !relayDelivered {
      return SubmitResponse(500, false, RelayFailureMessage, None);
    }
    resp := SubmitResponse(200, true, SuccessMessage, Some(submission.id));
  }

  /**
    * `GET /api/submissions`: the store's `getAllSubmissions` result as it is,
    * every record in creation order.
    */
  method ListSubmissions(store: Storage.MemStorage) returns (resp: seq<Storage.Submission>)
    requires store.Valid()
    ensures |resp| == store.currentSubmissionId - 1
    ensures forall i :: 0 <= i < |resp| ==> resp[i] == store.submissions[i + 1]
  {
    resp := store.GetAllSubmissions();
  }

  /** An accepted submission's id is positive and, afterwards, names a record with exactly the submitted text. */
  method SubmitThenFetch(store: Storage.MemStorage, sessionData: string, email: string, now: Storage.Timestamp)
    returns (resp: SubmitResponse, fetched: Option<Storage.Submission>)
    requires store.Valid()
    requires Text.Occurs(sessionData, Text.Marker)
    modifies store
    ensures resp.status == 200 && resp.success && resp.submissionId.Some? && resp.submissionId.value >= 1
    ensures fetched == Some(Storage.Submission(resp.submissionId.value, sessionData, email, now))
  {
    Text.MarkerNotBlank(sessionData);
    resp := SubmitSession(store, Body(sessionData), email, true, now);
    fetched := store.GetSubmission(resp.submissionId.value);
  }
}
