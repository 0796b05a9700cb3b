/** lib/analytics.ts: the analytics rows the chat flow writes (question categories, response
    feedback, per-session conversation metrics) and the default of the average rating. Every writer
    swallows its own errors: a failure leaves the tables as they were and nothing is thrown. */
module Analytics {
  import opened Util
  import opened Text
  import opened Store

  /** The categories a question may be filed under; "Other" is the catch-all. */
  const Categories: seq<string> := [
    "Getting Started", "Account Setup", "Finding Shifts", "Payment", "Cancellations",
    "Ratings & Feedback", "Technical Issues", "Credentials & Documentation", "Facility Policies", "Other"
  ]

  /** `categorizeQuestion`: `answer` is the text the model returns for the question, `None` when
      the call fails. */
  function Categorize(answer: Option<string>): string {
    if answer.Some? && Trim(answer.value) in Categories then Trim(answer.value) else "Other"
  }

  /** The category is always one of the list: the trimmed answer when it names one exactly, and
      "Other" when it does not or the model fails. */
  lemma CategorizeSpec(answer: Option<string>)
    ensures Categorize(answer) in Categories
    ensures answer.Some? && Trim(answer.value) in Categories ==> Categorize(answer) == Trim(answer.value)
    ensures answer.None? || Trim(answer.value) !in Categories ==> Categorize(answer) == "Other"
  {
    assert Categories[9] == "Other";
  }

  /** Every stored question carries a listed category. */
  ghost predicate CategoriesListed(rows: seq<Question>) {
    forall i :: 0 <= i < |rows| ==> rows[i].category in Categories
  }

  /** `trackQuestion(sessionId, question)`: categorises the question with `classify` (the model,
      asked about the question) and inserts a row; `newId` is the id the database generates and
      `fails` a failing insert. The new id is returned, or nothing on failure. */
  method TrackQuestion(db: Db, sessionId: string, question: string, classify: string -> Option<string>,
                       newId: string, fails: bool) returns (id: Option<string>)
    modifies db`questions
    ensures fails ==> id.None? && db.questions == old(db.questions)
    ensures !fails ==>
      && id == Some(newId)
      && db.questions == old(db.questions) + [Question(newId, sessionId, question, Categorize(classify(question)))]
    ensures CategoriesListed(old(db.questions)) ==> CategoriesListed(db.questions)
  {
    var category := Categorize(classify(question));
    CategorizeSpec(classify(question));
    if fails {
      return None;
    }
    db.questions := db.questions + [Question(newId, sessionId, question, category)];
    id := Some(newId);
  }

  /** `recordFeedback(sessionId, messageId, rating, feedbackText)`: one row whose text is null when
      the text is absent or empty; a failing insert (`fails`) is swallowed. */
  method RecordFeedback(db: Db, sessionId: string, messageId: string, rating: real, text: Option<string>,
                        fails: bool)
    modifies db`feedback
    ensures db.feedback == old(db.feedback) + (if fails then [] else [Feedback(sessionId, messageId, rating, OrNull(text))])
  {
    if !fails {
      db.feedback := db.feedback + [Feedback(sessionId, messageId, rating, OrNull(text))];
    }
  }

  /** The optional fields of an `updateConversationMetrics` call; `None` is an omitted field. */
  datatype MetricsUpdate = MetricsUpdate(messageCount: Option<nat>, responseTime: Option<real>,
                                         durationSeconds: Option<real>, completed: Option<bool>)

  /** JavaScript's `x || d` for an optional number: absent or zero gives the default. */
  function OrDefault(x: Option<real>): Option<real> {
    if x.Some? && x.value != 0.0 then x else None
  }

  /** The session's metrics row after the upsert, from the row it had (if any). An existing row
      keeps what the call omits; its average response time is folded with the new response time
      over the stored count. A new row takes the supplied values, where zero counts as omitted. */
  function Upserted(current: Option<Metrics>, u: MetricsUpdate, now: nat): Metrics {
    match current
    case Some(m) =>
      var average :=
        if u.responseTime.Some? then
          Some((m.averageResponseTime.GetOr(0.0) * m.messageCount as real + u.responseTime.value)
               / (m.messageCount + 1) as real)
        else m.averageResponseTime;
      Metrics(if u.messageCount.Some? then u.messageCount.value else m.messageCount + 1,
              average,
              if u.durationSeconds.Some? then u.durationSeconds else m.durationSeconds,
              if u.completed.Some? then u.completed.value else m.completed,
              now)
    case None =>
      Metrics(if u.messageCount.Some? && u.messageCount.value != 0 then u.messageCount.value else 1,
              OrDefault(u.responseTime), OrDefault(u.durationSeconds),
              u.completed.GetOr(false), now)
  }

  /** `updateConversationMetrics(sessionId, update)`; `fails` is a failing query, which is
      swallowed. Only the session's own row changes. */
  method UpdateConversationMetrics(db: Db, sessionId: string, u: MetricsUpdate, now: nat, fails: bool)
    modifies db`metrics
    ensures fails ==> db.metrics == old(db.metrics)
    ensures !fails ==> db.metrics == old(db.metrics)[sessionId := Upserted(
      if sessionId in old(db.metrics) then Some(old(db.metrics)[sessionId]) else None, u, now)]
  {
    if fails {
      return;
    }
    var current := if sessionId in db.metrics then Some(db.metrics[sessionId]) else None;
    db.metrics := db.metrics[sessionId := Upserted(current, u, now)];
  }

  function Sum(xs: seq<real>): real {
    if xs == [] then 0.0 else Sum(xs[..|xs| - 1]) + xs[|xs| - 1]
  }

  /** The metrics row of a session whose recorded response times are `times`: the count is the
      number of times and the average (read as 0 when null, as the update reads it) is their mean. */
  ghost predicate MeanOf(m: Metrics, times: seq<real>) {
    && m.messageCount == |times|
    && (|times| > 0 ==> m.averageResponseTime.GetOr(0.0) == Sum(times) / |times| as real)
  }

  /** The running average is the mean of every response time reported so far: when each call
      reports one response time and leaves the count to the update, the row stays the count and
      mean of the reported times, starting from the inserted row (even for a first time of 0, which
      is stored as null). */
  lemma RunningMean(current: Option<Metrics>, times: seq<real>, u: MetricsUpdate, now: nat)
    requires u.messageCount.None? && u.responseTime.Some?
    requires current.None? ==> times == []
    requires current.Some? ==> MeanOf(current.value, times)
    ensures MeanOf(Upserted(current, u, now), times + [u.responseTime.value])
  {
    var rt := u.responseTime.value;
    var all := times + [rt];
    assert all[..|all| - 1] == times;
    assert Sum(all) == Sum(times) + rt;
    if current.Some? && |times| > 0 {
      var m := current.value;
      var n := |times| as real;
      assert m.averageResponseTime.GetOr(0.0) * n == Sum(times);
    }
  }

  /** `getFeedbackAnalytics().averageRating`: SQL's `AVG(rating)` over the feedback rows, null
      without rows, and read with `|| 0`. */
  function AverageRating(rows: seq<Feedback>): real {
    if rows == [] then 0.0 else Sum(Ratings(rows)) / |rows| as real
  }

  function Ratings(rows: seq<Feedback>): (r: seq<real>)
    ensures |r| == |rows| && forall i :: 0 <= i < |rows| ==> r[i] == rows[i].rating
  {
    seq(|rows|, i requires 0 <= i < |rows| => rows[i].rating)
  }

  /** Every stored rating lies between 1 and 5. */
  ghost predicate RatingsInRange(rows: seq<Feedback>) {
    forall i :: 0 <= i < |rows| ==> 1.0 <= rows[i].rating <= 5.0
  }

  /** Without feedback the average rating is 0; with feedback whose ratings all lie between 1 and 5
      it lies between 1 and 5 as well. */
  lemma AverageRatingSpec(rows: seq<Feedback>)
    ensures rows == [] ==> AverageRating(rows) == 0.0
    ensures rows != [] && RatingsInRange(rows) ==> 1.0 <= AverageRating(rows) <= 5.0
  {
    if rows != [] && RatingsInRange(rows) {
      var n := |rows| as real;
      SumBounds(Ratings(rows), 1.0, 5.0);
      var s := Sum(Ratings(rows));
      assert n * 1.0 <= s <= n * 5.0;
      DivBounds(s, n, 1.0, 5.0);
    }
  }

  /** The sum of values between `lo` and `hi` lies between `n * lo` and `n * hi`. */
  lemma {:induction false} SumBounds(xs: seq<real>, lo: real, hi: real)
    requires forall i :: 0 <= i < |xs| ==> lo <= xs[i] <= hi
    ensures |xs| as real * lo <= Sum(xs) <= |xs| as real * hi
    decreases |xs|
  {
    if xs != [] {
      SumBounds(xs[..|xs| - 1], lo, hi);
    }
  }

  lemma DivBounds(s: real, n: real, lo: real, hi: real)
    requires n > 0.0 && n * lo <= s <= n * hi
    ensures lo <= s / n <= hi
  {
    assert s / n * n == s;
  }
}
