/** lib/language.ts: the supported languages, the normalisation of a detected language code, the
    translation rules around the model, and the language preference kept in a session's metadata. */
module Language {
  import opened Util
  import opened Text
  import opened Store

  datatype Lang = Lang(code: string, name: string, flag: string)

  /** The supported languages, English first. */
  const SupportedLanguages: seq<Lang> := [
    Lang("en", "English", "🇺🇸"),
    Lang("es", "Español", "🇪🇸"),
    Lang("fr", "Français", "🇫🇷"),
    Lang("de", "Deutsch", "🇩🇪"),
    Lang("pt", "Português", "🇵🇹"),
    Lang("zh", "中文", "🇨🇳"),
    Lang("ja", "日本語", "🇯🇵"),
    Lang("ko", "한국어", "🇰🇷"),
    Lang("hi", "हिन्दी", "🇮🇳"),
    Lang("tl", "Tagalog", "🇵🇭")
  ]

  const DefaultLanguage: string := "en"

  function CodeOf(l: Lang): string { l.code }

  /** The position of the language with this code, as `SUPPORTED_LANGUAGES.find` reads the list. */
  function Find(code: string): Option<nat> {
    FirstIndex(SupportedLanguages, (l: Lang) => l.code == code)
  }

  predicate Supported(code: string) {
    Find(code).Some?
  }

  /** No two supported languages share a code. */
  lemma CodesUnique()
    ensures UniqueBy(SupportedLanguages, CodeOf)
  {
    var codes := seq(|SupportedLanguages|, i requires 0 <= i < |SupportedLanguages| => SupportedLanguages[i].code);
    assert codes == ["en", "es", "fr", "de", "pt", "zh", "ja", "ko", "hi", "tl"];
  }

  /** `detectLanguage(text)`: `answer` is the model's reply about the text, `None` when the call
      fails. */
  function DetectLanguage(answer: Option<string>): string {
    if answer.Some? && Supported(Lower(Trim(answer.value))) then Lower(Trim(answer.value)) else DefaultLanguage
  }

  /** The detected code is always supported: the trimmed, lower-cased reply when it is a supported
      code, and "en" otherwise or when the model fails. */
  lemma DetectLanguageSpec(answer: Option<string>)
    ensures Supported(DetectLanguage(answer))
    ensures answer.Some? && Supported(Lower(Trim(answer.value))) ==>
      DetectLanguage(answer) == Lower(Trim(answer.value))
    ensures answer.None? || !Supported(Lower(Trim(answer.value))) ==> DetectLanguage(answer) == "en"
  {
    assert SupportedLanguages[0].code == DefaultLanguage;
  }

  /** `getLanguageName(code)`. */
  function LanguageName(code: string): string {
    match Find(code)
    case Some(i) => SupportedLanguages[i].name
    case None => "English"
  }

  /** `getLanguageFlag(code)`. */
  function LanguageFlag(code: string): string {
    match Find(code)
    case Some(i) => SupportedLanguages[i].flag
    case None => "🇺🇸"
  }

  /** Each listed language's name and flag are found under its own code; an unknown code gets
      English's name and the US flag. */
  lemma LookupSpec(code: string, i: nat)
    ensures i < |SupportedLanguages| && SupportedLanguages[i].code == code ==>
      LanguageName(code) == SupportedLanguages[i].name && LanguageFlag(code) == SupportedLanguages[i].flag
    ensures !Supported(code) ==> LanguageName(code) == "English" && LanguageFlag(code) == "🇺🇸"
  {
    if i < |SupportedLanguages| && SupportedLanguages[i].code == code {
      CodesUnique();
      var j := Find(code).value;
      assert SupportedLanguages[j].code == code;
    }
  }

  /** `translateText(text, target)`: `translate` is the model, asked to translate a text into a
      language it is given by name; `None` is a failing call. English needs no translation, and a
      failed translation keeps the text. */
  function TranslateText(text: string, target: string, translate: (string, string) -> Option<string>): (r: string)
    ensures target == "en" ==> r == text
    ensures target != "en" && translate(text, LanguageName(target)).None? ==> r == text
  {
    if target == "en" then text
    else
      match translate(text, LanguageName(target))
      case Some(t) => Trim(t)
      case None => text
  }

  /** A translation the model returns is passed on trimmed: trimming it again changes nothing. */
  lemma TranslationTrimmed(text: string, target: string, translate: (string, string) -> Option<string>)
    requires target != "en" && translate(text, LanguageName(target)).Some?
    ensures var r := TranslateText(text, target, translate);
      Trim(r) == r && r == Trim(translate(text, LanguageName(target)).value)
  {
    TrimIdempotent(translate(text, LanguageName(target)).value);
  }

  /** `localizeSystemPrompt(prompt, code)`: `localize` is the model, asked to translate the system
      prompt into a language it is given by name. English keeps the prompt, and so does a failed
      call. */
  function LocalizeSystemPrompt(prompt: string, code: string, localize: (string, string) -> Option<string>): (r: string)
    ensures code == "en" ==> r == prompt
    ensures code != "en" && localize(prompt, LanguageName(code)).None? ==> r == prompt
  {
    if code == "en" then prompt
    else
      match localize(prompt, LanguageName(code))
      case Some(t) => Trim(t)
      case None => prompt
  }

  /** A localised prompt the model returns is passed on trimmed. */
  lemma LocalizationTrimmed(prompt: string, code: string, localize: (string, string) -> Option<string>)
    requires code != "en" && localize(prompt, LanguageName(code)).Some?
    ensures var r := LocalizeSystemPrompt(prompt, code, localize);
      Trim(r) == r && r == Trim(localize(prompt, LanguageName(code)).value)
  {
    TrimIdempotent(localize(prompt, LanguageName(code)).value);
  }

  /** A session's metadata after `jsonb_set(COALESCE(metadata, '{}'), '{language}', code)`. */
  function WithLanguage(metadata: Option<map<string, string>>, code: string): map<string, string> {
    metadata.GetOr(map[])["language" := code]
  }

  /** The sessions after `UPDATE ... WHERE id = sessionId`. */
  function SetLanguage(rows: seq<Session>, sessionId: string, code: string): (r: seq<Session>)
    ensures |r| == |rows|
    ensures forall i :: 0 <= i < |rows| ==> r[i].id == rows[i].id
  {
    seq(|rows|, i requires 0 <= i < |rows| =>
      if rows[i].id == sessionId then rows[i].(metadata := Some(WithLanguage(rows[i].metadata, code))) else rows[i])
  }

  /** `getUserLanguagePreference(sessionId)`; `fails` is a failing query. */
  function GetUserLanguagePreference(rows: seq<Session>, sessionId: string, fails: bool): string {
    if fails then DefaultLanguage
    else
      match FindSession(rows, sessionId)
      case Some(s) =>
        if s.metadata.Some? && "language" in s.metadata.value && s.metadata.value["language"] != ""
        then s.metadata.value["language"] else DefaultLanguage
      case None => DefaultLanguage
  }

  /** Setting the preference changes only the session's metadata, under the `language` key: the
      other keys stay (null metadata counts as `{}`), every other session stays, and reading the
      preference back gives the code, or "en" for an empty code. */
  lemma SetLanguageSpec(rows: seq<Session>, sessionId: string, code: string, other: string)
    requires sessionId in SessionIds(rows)
    ensures var r := SetLanguage(rows, sessionId, code);
      var before, after := FindSession(rows, sessionId).value, FindSession(r, sessionId).value;
      && after == before.(metadata := after.metadata)
      && after.metadata.Some? && after.metadata.value["language"] == code
      && (forall k :: k != "language" ==>
            (k in after.metadata.value <==> before.metadata.Some? && k in before.metadata.value))
      && (forall k :: k != "language" && before.metadata.Some? && k in before.metadata.value ==>
            after.metadata.value[k] == before.metadata.value[k])
      && (other != sessionId ==> FindSession(r, other) == FindSession(rows, other))
      && GetUserLanguagePreference(r, sessionId, false) == if code == "" then DefaultLanguage else code
  {
    var r := SetLanguage(rows, sessionId, code);
    FindAfterSameIds(rows, r, sessionId);
    FindAfterSameIds(rows, r, other);
  }

  /** `setUserLanguagePreference(sessionId, code)`: returns the error it throws, "Session not
      found" for an unknown session, which leaves the table as it was. */
  method SetUserLanguagePreference(db: Db, sessionId: string, code: string) returns (error: Option<string>)
    requires db.Valid()
    modifies db`sessions
    ensures db.Valid()
    ensures sessionId !in SessionIds(old(db.sessions)) ==>
      error == Some("Session not found") && db.sessions == old(db.sessions)
    ensures sessionId in SessionIds(old(db.sessions)) ==>
      error.None? && db.sessions == SetLanguage(old(db.sessions), sessionId, code)
  {
    if FindSession(db.sessions, sessionId).None? {
      return Some("Session not found");
    }
    db.sessions := SetLanguage(db.sessions, sessionId, code);
    error := None;
  }
}
