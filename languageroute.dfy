/** app/api/language/route.ts: stores a session's language preference, mirrors it in a cookie, and
    reads it back from the cookie. */
module LanguageRoute {
  import opened Util
  import opened Store
  import Language

  /** The POST body: its fields, `None` when absent, or a body that does not parse, with the
      parser's error message. */
  datatype Request = Unparsable(error: string) | Parsed(sessionId: Option<string>, languageCode: Option<string>)

  /** `{ success: true }`, a 400 "Missing required fields", or a 500 with `success: false` and the
      error's message. */
  datatype Response = Saved | MissingFields | ServerError(error: string)

  /** A cookie the response sets. */
  datatype Cookie = Cookie(name: string, value: string, path: string, maxAge: nat)

  /** One year, in seconds. */
  const CookieMaxAge: nat := 60 * 60 * 24 * 365

  /** `POST /api/language`: the preference is stored first; the `preferred_language` cookie is set
      only once the store has succeeded. An unknown session makes the store throw, which the route
      turns into a 500 carrying "Session not found". */
  method Post(db: Db, r: Request) returns (response: Response, cookie: Option<Cookie>)
    requires db.Valid()
    modifies db`sessions
    ensures db.Valid()
    ensures r.Unparsable? ==> response == ServerError(r.error) && cookie.None? && db.sessions == old(db.sessions)
    ensures r.Parsed? && (!Truthy(r.sessionId) || !Truthy(r.languageCode)) ==>
      response == MissingFields && cookie.None? && db.sessions == old(db.sessions)
    ensures r.Parsed? && Truthy(r.sessionId) && Truthy(r.languageCode) ==>
      var sid, code := r.sessionId.value, r.languageCode.value;
      if sid in SessionIds(old(db.sessions)) then
        && response == Saved
        && cookie == Some(Cookie("preferred_language", code, "/", CookieMaxAge))
        && db.sessions == Language.SetLanguage(old(db.sessions), sid, code)
      else
        && response == ServerError("Session not found")
        && cookie.None? && db.sessions == old(db.sessions)
    ensures response == Saved <==> cookie.Some?
  {
    cookie := None;
    if r.Unparsable? {
      return ServerError(r.error), None;
    }
    if !Truthy(r.sessionId) || !Truthy(r.languageCode) {
      return MissingFields, None;
    }
    var error := Language.SetUserLanguagePreference(db, r.sessionId.value, r.languageCode.value);
    if error.Some? {
      return ServerError(error.value), None;
    }
    cookie := Some(Cookie("preferred_language", r.languageCode.value, "/", CookieMaxAge));
    response := Saved;
  }

  /** `GET /api/language?sessionId=...`: the `preferred_language` cookie, or "en". The database is
      not consulted, which the signature shows: only the query parameter and the cookie are read. */
  function Get(sessionId: Option<string>, cookie: Option<string>): (code: string)
    ensures !Truthy(sessionId) ==> code == "en"
    ensures Truthy(sessionId) && Truthy(cookie) ==> code == cookie.value
    ensures code != ""
  {
    if !Truthy(sessionId) then "en"
    else if Truthy(cookie) then cookie.value
    else "en"
  }

  /** After a successful POST, a GET for the same session with the cookie it set answers the stored
      code, which is also what the session's metadata now holds. */
  lemma PostThenGet(rows: seq<Session>, sid: string, code: string)
    requires sid != "" && code != "" && sid in SessionIds(rows)
    ensures Get(Some(sid), Some(code)) == code
    ensures Language.GetUserLanguagePreference(Language.SetLanguage(rows, sid, code), sid, false) == code
  {
    Language.SetLanguageSpec(rows, sid, code, sid);
  }
}
