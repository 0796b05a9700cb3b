/** app/api/feedback/route.ts: validates a rating of an assistant message and records it. */
module FeedbackRoute {
  import opened Util
  import opened Store
  import Analytics

  /** The request: a JSON body whose fields are `None` when absent, or a body that does not parse,
      with the parser's error message. */
  datatype Request =
    | Unparsable(error: string)
    | Parsed(sessionId: Option<string>, messageId: Option<string>, rating: Option<real>, feedback: Option<string>)

  /** `{ success: true }`, a 400 with its error, or a 500 with `success: false` and the error. */
  datatype Response = Recorded | BadRequest(error: string) | ServerError(error: string)

  /** Both ids are present and non-empty, and a rating is given. */
  predicate Complete(r: Request)
    requires r.Parsed?
  {
    Truthy(r.sessionId) && Truthy(r.messageId) && r.rating.Some?
  }

  /** The rating is between 1 and 5, inclusive. */
  predicate InRange(rating: real) {
    1.0 <= rating <= 5.0
  }

  /** The response to a request. A request is accepted exactly when it parses, names a session and
      a message, and rates between 1 and 5. Presence is checked before range, so a rating of 0 is
      present and reported as out of range. */
  function FeedbackResponse(r: Request): (response: Response)
    ensures response == Recorded <==> r.Parsed? && Complete(r) && InRange(r.rating.value)
    ensures r.Unparsable? ==> response == ServerError(r.error)
    ensures r.Parsed? && !Complete(r) ==> response == BadRequest("Missing required fields")
    ensures r.Parsed? && Complete(r) && !InRange(r.rating.value) ==>
      response == BadRequest("Rating must be between 1 and 5")
    ensures r.Parsed? && Truthy(r.sessionId) && Truthy(r.messageId) && r.rating == Some(0.0) ==>
      response == BadRequest("Rating must be between 1 and 5")
  {
    if r.Unparsable? then ServerError(r.error)
    else if !Complete(r) then BadRequest("Missing required fields")
    else if r.rating.value < 1.0 || r.rating.value > 5.0 then BadRequest("Rating must be between 1 and 5")
    else Recorded
  }

  /** `POST /api/feedback`; `recordFails` is a failing insert, which the recorder swallows. Only an
      accepted request writes, and it writes one row; so ratings stored through this route are
      always between 1 and 5. */
  method Post(db: Db, r: Request, recordFails: bool) returns (response: Response)
    modifies db`feedback
    ensures response == FeedbackResponse(r)
    ensures response != Recorded ==> db.feedback == old(db.feedback)
    ensures response == Recorded ==>
      var row := Feedback(r.sessionId.value, r.messageId.value, r.rating.value, OrNull(r.feedback));
      db.feedback == old(db.feedback) + (if recordFails then [] else [row])
    ensures Analytics.RatingsInRange(old(db.feedback)) ==> Analytics.RatingsInRange(db.feedback)
  {
    if r.Unparsable? {
      return ServerError(r.error);
    }
    if !Truthy(r.sessionId) || !Truthy(r.messageId) || r.rating.None? {
      return BadRequest("Missing required fields");
    }
    var rating := r.rating.value;
    if rating < 1.0 || rating > 5.0 {
      return BadRequest("Rating must be between 1 and 5");
    }
    Analytics.RecordFeedback(db, r.sessionId.value, r.messageId.value, rating, r.feedback, recordFails);
    response := Recorded;
  }
}
