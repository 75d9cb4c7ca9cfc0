/** Localized voice replies: a template chosen by intent, language and
    response type, with English as the fallback language, then filled in the
    way `str.format(**kwargs)` fills named fields. */
module VoiceResponses {
  import opened Wrappers
  import opened PyStr
  import opened IntentParser

  // ---------------------------------------------------------------- str.format

  /** The outcome of `template.format(**kwargs)`: the text, a `KeyError`
      (a named field without a value), or any other exception. */
  datatype FormatOutcome = Formatted(text: string) | KeyMissing | Raises

  /** A field name looked up among the keyword arguments: not empty, not a
      positional index, and without attribute, index, conversion or format
      parts. */
  predicate PlainName(name: string) {
    && name != []
    && !AllDigits(name)
    && forall k :: 0 <= k < |name| ==> name[k] !in {'{', '}', '.', '[', '!', ':'}
  }

  /** The first `}` at or after position `i`. */
  function CloseAt(t: string, i: nat): (r: Option<nat>)
    requires i <= |t|
    ensures r.Some? ==> i <= r.value < |t| && t[r.value] == '}' && forall k :: i <= k < r.value ==> t[k] != '}'
    ensures r.None? ==> forall k :: i <= k < |t| ==> t[k] != '}'
    decreases |t| - i
  {
    if i == |t| then None
    else if t[i] == '}' then Some(i)
    else CloseAt(t, i + 1)
  }

  /** Text produced before the rest of the template is formatted. */
  function Prepend(s: string, o: FormatOutcome): FormatOutcome {
    match o
    case Formatted(x) => Formatted(s + x)
    case KeyMissing => KeyMissing
    case Raises => Raises
  }

  /** `template.format(**kwargs)`, left to right: `{{` and `}}` stand for
      braces, `{name}` for the argument `name`; the first problem met decides
      the exception. */
  function Format(t: string, kwargs: map<string, string>): FormatOutcome
    decreases |t|
  {
    if t == [] then Formatted([])
    else if t[0] == '{' then
      if |t| > 1 && t[1] == '{' then Prepend("{", Format(t[2..], kwargs))
      else
        match CloseAt(t, 1)
        case None => Raises
        case Some(j) =>
          var name := t[1..j];
          if !PlainName(name) then Raises
          else if name !in kwargs then KeyMissing
          else Prepend(kwargs[name], Format(t[j + 1..], kwargs))
    else if t[0] == '}' then
      if |t| > 1 && t[1] == '}' then Prepend("}", Format(t[2..], kwargs)) else Raises
    else Prepend([t[0]], Format(t[1..], kwargs))
  }

  /** A template without braces is its own result, whatever the arguments. */
  lemma {:induction false} FormatPlain(t: string, kwargs: map<string, string>)
    requires forall k :: 0 <= k < |t| ==> t[k] != '{' && t[k] != '}'
    ensures Format(t, kwargs) == Formatted(t)
    decreases |t|
  {
    if t != [] {
      FormatPlain(t[1..], kwargs);
      assert [t[0]] + t[1..] == t;
    }
  }

  /** Text without braces passes through unchanged, and formatting goes on
      after it. */
  lemma {:induction false} FormatPrefix(p: string, rest: string, kwargs: map<string, string>)
    requires forall k :: 0 <= k < |p| ==> p[k] != '{' && p[k] != '}'
    ensures Format(p + rest, kwargs) == Prepend(p, Format(rest, kwargs))
    decreases |p|
  {
    if p == [] {
      assert p + rest == rest;
      match Format(rest, kwargs)
      case Formatted(x) => assert [] + x == x;
      case KeyMissing =>
      case Raises =>
    } else {
      FormatPrefix(p[1..], rest, kwargs);
      assert (p + rest)[1..] == p[1..] + rest;
      match Format(rest, kwargs)
      case Formatted(x) => assert [p[0]] + (p[1..] + x) == p + x;
      case KeyMissing =>
      case Raises =>
    }
  }

  /** A named field is replaced by its argument, and a missing argument is a
      `KeyError` whatever follows. */
  lemma FormatField(name: string, rest: string, kwargs: map<string, string>)
    requires PlainName(name)
    ensures name in kwargs ==> Format("{" + name + "}" + rest, kwargs) == Prepend(kwargs[name], Format(rest, kwargs))
    ensures name !in kwargs ==> Format("{" + name + "}" + rest, kwargs) == KeyMissing
  {
    var t := "{" + name + "}" + rest;
    assert t[0] == '{';
    assert |name| > 0 && name[0] != '{';
    assert t[1] == name[0];
    assert forall k :: 1 <= k < |name| + 1 ==> t[k] == name[k - 1];
    CloseAtFirst(t, 1, |name| + 1);
    assert t[1..|name| + 1] == name;
    assert t[|name| + 2..] == rest;
  }

  /** `CloseAt` finds the first `}`. */
  lemma {:induction false} CloseAtFirst(t: string, i: nat, j: nat)
    requires i <= j < |t| && t[j] == '}'
    requires forall k :: i <= k < j ==> t[k] != '}'
    ensures CloseAt(t, i) == Some(j)
    decreases j - i
  {
    if i < j {
      CloseAtFirst(t, i + 1, j);
    }
  }

  // ---------------------------------------------------------------- the table

  /** The reply texts of the table, by name. */
  datatype TextId =
    SchemesSuccessHindi
    | SchemesNoSchemesHindi
    | SchemesIncompleteProfileHindi
    | SchemesSuccessMarathi
    | SchemesNoSchemesMarathi
    | SchemesIncompleteProfileMarathi
    | SchemesSuccessEnglish
    | SchemesNoSchemesEnglish
    | SchemesIncompleteProfileEnglish
    | ApplySuccessHindi
    | ApplyAlreadyAppliedHindi
    | ApplyNotEligibleHindi
    | ApplySchemeNotFoundHindi
    | ApplySpecifySchemeHindi
    | ApplySuccessMarathi
    | ApplyAlreadyAppliedMarathi
    | ApplyNotEligibleMarathi
    | ApplySchemeNotFoundMarathi
    | ApplySpecifySchemeMarathi
    | ApplySuccessEnglish
    | ApplyAlreadyAppliedEnglish
    | ApplyNotEligibleEnglish
    | ApplySchemeNotFoundEnglish
    | ApplySpecifySchemeEnglish
    | StatusSuccessHindi
    | StatusNoApplicationsHindi
    | StatusSuccessMarathi
    | StatusNoApplicationsMarathi
    | StatusSuccessEnglish
    | StatusNoApplicationsEnglish
    | DocumentsHindi
    | DocumentsMarathi
    | DocumentsEnglish
    | HelpHindi
    | HelpMarathi
    | HelpEnglish
    | UnknownHindi
    | UnknownMarathi
    | UnknownEnglish

  /** One language's replies: a single text, or a text per response type. */
  datatype LanguageReplies = Plain(text: TextId) | ByType(replies: seq<(string, TextId)>)

  /** One intent's entry: a bare text, or replies per language. */
  datatype IntentReplies = Bare(text: TextId) | ByLanguage(languages: seq<(string, LanguageReplies)>)

  /** `RESPONSES`; `VIEW_PROFILE` and `LIST_APPLICATIONS` have no entry. */
  function Responses(intent: Intent): Option<IntentReplies> {
    match intent
    case ShowEligibleSchemes => Some(ByLanguage(Trio(ByType(SchemesHindi()), ByType(SchemesMarathi()), ByType(SchemesEnglish()))))
    case ApplyScheme => Some(ByLanguage(Trio(ByType(ApplyHindi()), ByType(ApplyMarathi()), ByType(ApplyEnglish()))))
    case CheckStatus => Some(ByLanguage(Trio(ByType(StatusHindi()), ByType(StatusMarathi()), ByType(StatusEnglish()))))
    case ViewDocuments => Some(ByLanguage(Trio(Plain(DocumentsHindi), Plain(DocumentsMarathi), Plain(DocumentsEnglish))))
    case Help => Some(ByLanguage(Trio(Plain(HelpHindi), Plain(HelpMarathi), Plain(HelpEnglish))))
    case Unknown => Some(ByLanguage(Trio(Plain(UnknownHindi), Plain(UnknownMarathi), Plain(UnknownEnglish))))
    case ViewProfile => None
    case ListApplications => None
  }

  /** Replies keyed by `hindi`, `marathi` and `english`, in that order. */
  function Trio(hindi: LanguageReplies, marathi: LanguageReplies, english: LanguageReplies): seq<(string, LanguageReplies)> {
    [("hindi", hindi), ("marathi", marathi), ("english", english)]
  }

  // The per-type replies of each intent and language.

  function SchemesHindi(): seq<(string, TextId)> {
    [("success", SchemesSuccessHindi), ("no_schemes", SchemesNoSchemesHindi), ("incomplete_profile", SchemesIncompleteProfileHindi)]
  }

  function SchemesMarathi(): seq<(string, TextId)> {
    [("success", SchemesSuccessMarathi), ("no_schemes", SchemesNoSchemesMarathi), ("incomplete_profile", SchemesIncompleteProfileMarathi)]
  }

  function SchemesEnglish(): seq<(string, TextId)> {
    [("success", SchemesSuccessEnglish), ("no_schemes", SchemesNoSchemesEnglish), ("incomplete_profile", SchemesIncompleteProfileEnglish)]
  }

  function ApplyHindi(): seq<(string, TextId)> {
    [("success", ApplySuccessHindi), ("already_applied", ApplyAlreadyAppliedHindi), ("not_eligible", ApplyNotEligibleHindi), ("scheme_not_found", ApplySchemeNotFoundHindi), ("specify_scheme", ApplySpecifySchemeHindi)]
  }

  function ApplyMarathi(): seq<(string, TextId)> {
    [("success", ApplySuccessMarathi), ("already_applied", ApplyAlreadyAppliedMarathi), ("not_eligible", ApplyNotEligibleMarathi), ("scheme_not_found", ApplySchemeNotFoundMarathi), ("specify_scheme", ApplySpecifySchemeMarathi)]
  }

  function ApplyEnglish(): seq<(string, TextId)> {
    [("success", ApplySuccessEnglish), ("already_applied", ApplyAlreadyAppliedEnglish), ("not_eligible", ApplyNotEligibleEnglish), ("scheme_not_found", ApplySchemeNotFoundEnglish), ("specify_scheme", ApplySpecifySchemeEnglish)]
  }

  function StatusHindi(): seq<(string, TextId)> {
    [("success", StatusSuccessHindi), ("no_applications", StatusNoApplicationsHindi)]
  }

  function StatusMarathi(): seq<(string, TextId)> {
    [("success", StatusSuccessMarathi), ("no_applications", StatusNoApplicationsMarathi)]
  }

  function StatusEnglish(): seq<(string, TextId)> {
    [("success", StatusSuccessEnglish), ("no_applications", StatusNoApplicationsEnglish)]
  }

  /** The texts themselves. */
  function Text(id: TextId): string {
    match id
    case SchemesSuccessHindi => "आपके लिए {count} योजनाएं उपलब्ध हैं। {schemes}"
    case SchemesNoSchemesHindi => "अभी आपके लिए कोई योजना उपलब्ध नहीं है।"
    case SchemesIncompleteProfileHindi => "कृपया पहले अपनी प्रोफाइल पूरी करें।"
    case SchemesSuccessMarathi => "तुमच्यासाठी {count} योजना उपलब्ध आहेत। {schemes}"
    case SchemesNoSchemesMarathi => "सध्या तुमच्यासाठी कोणतीही योजना उपलब्ध नाही."
    case SchemesIncompleteProfileMarathi => "कृपया प्रथम तुमची प्रोफाइल पूर्ण करा."
    case SchemesSuccessEnglish => "You are eligible for {count} schemes. {schemes}"
    case SchemesNoSchemesEnglish => "No schemes are currently available for you."
    case SchemesIncompleteProfileEnglish => "Please complete your profile first."
    case ApplySuccessHindi => "{scheme_name} के लिए आवेदन सफलतापूर्वक जमा हुआ।"
    case ApplyAlreadyAppliedHindi => "आपने पहले से इस योजना के लिए आवेदन किया है।"
    case ApplyNotEligibleHindi => "आप इस योजना के लिए पात्र नहीं हैं।"
    case ApplySchemeNotFoundHindi => "मुझे {scheme_name} आपकी पात्र योजनाओं में नहीं मिली।"
    case ApplySpecifySchemeHindi => "आप किस योजना के लिए आवेदन करना चाहते हैं? आप इनके लिए आवेदन कर सकते हैं: {schemes}"
    case ApplySuccessMarathi => "{scheme_name} साठी अर्ज यशस्वीरित्या सबमिट झाला."
    case ApplyAlreadyAppliedMarathi => "तुम्ही आधीच या योजनेसाठी अर्ज केला आहे."
    case ApplyNotEligibleMarathi => "तुम्ही या योजनेसाठी पात्र नाही."
    case ApplySchemeNotFoundMarathi => "मला {scheme_name} आपल्या पात्र योजनांमध्ये आढळली नाही."
    case ApplySpecifySchemeMarathi => "तुम्हाला कोणत्या योजनेसाठी अर्ज करायचा आहे? तुम्ही यासाठी अर्ज करू शकता: {schemes}"
    case ApplySuccessEnglish => "Application for {scheme_name} submitted successfully."
    case ApplyAlreadyAppliedEnglish => "You have already applied for this scheme."
    case ApplyNotEligibleEnglish => "You are not eligible for this scheme."
    case ApplySchemeNotFoundEnglish => " I could not find {scheme_name} in your eligible schemes."
    case ApplySpecifySchemeEnglish => "Which scheme do you want to apply for? You can apply for: {schemes}"
    case StatusSuccessHindi => "आपके {count} आवेदन हैं। {status_summary}"
    case StatusNoApplicationsHindi => "आपने अभी तक कोई आवेदन नहीं किया है।"
    case StatusSuccessMarathi => "तुमचे {count} अर्ज आहेत। {status_summary}"
    case StatusNoApplicationsMarathi => "तुम्ही अद्याप कोणताही अर्ज केला नाही."
    case StatusSuccessEnglish => "You have {count} applications. {status_summary}"
    case StatusNoApplicationsEnglish => "You have not submitted any applications yet."
    case DocumentsHindi => "आपके पास {count} दस्तावेज अपलोड हैं। आप इन्हें यहां देख सकते हैं।"
    case DocumentsMarathi => "तुमच्याकडे {count} कागदपत्रे अपलोड आहेत. तुम्ही ती येथे पाहू शकता."
    case DocumentsEnglish => "You have {count} documents uploaded. You can view them here."
    case HelpHindi => "आप मुझसे कह सकते हैं: \"मेरी योजनाएं दिखाओ\", \"आवेदन करो\", या \"स्थिति बताओ\"।"
    case HelpMarathi => "तुम्ही मला सांगू शकता: \"माझ्या योजना दाखवा\", \"अर्ज करा\", किंवा \"स्थिती सांगा\"."
    case HelpEnglish => "You can say: \"Show my schemes\", \"Apply for scheme\", or \"Check status\"."
    case UnknownHindi => "मुझे समझ नहीं आया। कृपया फिर से कहें।"
    case UnknownMarathi => "मला समजले नाही। कृपया पुन्हा सांगा."
    case UnknownEnglish => "I did not understand. Please try again."
  }

  const NotAvailable := "Response not available."

  /** `responses.get(language, responses.get('english', {}))`. */
  function LanguageEntry(languages: seq<(string, LanguageReplies)>, language: string): LanguageReplies {
    match Lookup(languages, language)
    case Some(replies) => replies
    case None => Lookup(languages, "english").GetOr(ByType([]))
  }

  /** The template chosen for a language's replies and a response type;
      `None` stands for `Response not available.`. */
  function TemplateId(replies: LanguageReplies, responseType: string): Option<TextId> {
    match replies
    case Plain(id) => Some(id)
    case ByType(byType) => Lookup(byType, responseType)
  }

  function TemplateText(id: Option<TextId>): string {
    match id
    case Some(id) => Text(id)
    case None => NotAvailable
  }

  /** Fill the template; a `KeyError` gives the template itself back, and any
      other exception propagates (`Err`). */
  function Fill(template: string, kwargs: map<string, string>): (r: Result<string>)
    ensures Format(template, kwargs) == KeyMissing ==> r == Ok(template)
    ensures r.Err? <==> Format(template, kwargs) == Raises
    ensures Format(template, kwargs).Formatted? ==> r == Ok(Format(template, kwargs).text)
  {
    match Format(template, kwargs)
    case Formatted(text) => Ok(text)
    case KeyMissing => Ok(template)
    case Raises => Err("format")
  }

  /** `ResponseGenerator.get_response(intent, language, response_type, **kwargs)`. */
  function GetResponse(intent: Intent, language: string, responseType: string, kwargs: map<string, string>): Result<string> {
    match Responses(intent).GetOr(ByLanguage([]))
    case Bare(id) => Ok(Text(id))
    case ByLanguage(languages) => Fill(TemplateText(TemplateId(LanguageEntry(languages, language), responseType)), kwargs)
  }

  /** The template `get_response` fills, for intents with per-language
      replies. */
  function ChosenTemplate(intent: Intent, language: string, responseType: string): Option<TextId> {
    TemplateId(LanguageEntry(Responses(intent).GetOr(ByLanguage([])).languages, language), responseType)
  }

  /** Every entry of the table is keyed by language; so the response is the
      chosen template filled in. */
  lemma ResponseIsChosenTemplate(intent: Intent, language: string, responseType: string, kwargs: map<string, string>)
    ensures Responses(intent).Some? ==> Responses(intent).value.ByLanguage?
    ensures GetResponse(intent, language, responseType, kwargs) == Fill(TemplateText(ChosenTemplate(intent, language, responseType)), kwargs)
  {
  }

  /** An intent without replies always answers `Response not available.`. */
  lemma MissingIntentNotAvailable(intent: Intent, language: string, responseType: string, kwargs: map<string, string>)
    requires intent == ViewProfile || intent == ListApplications
    ensures GetResponse(intent, language, responseType, kwargs) == Ok(NotAvailable)
  {
    assert forall k :: 0 <= k < |NotAvailable| ==> NotAvailable[k] != '{' && NotAvailable[k] != '}';
    FormatPlain(NotAvailable, kwargs);
  }

  /** Every intent with replies keys them by `hindi`, `marathi` and
      `english`, in that order. */
  lemma LanguageKeys(intent: Intent)
    ensures Responses(intent).Some? ==>
      var languages := Responses(intent).value.languages;
      |languages| == 3 && languages[0].0 == "hindi" && languages[1].0 == "marathi" && languages[2].0 == "english"
  {
  }

  /** A language that is not a key takes the English replies. */
  lemma LanguageEntryFallback(languages: seq<(string, LanguageReplies)>, language: string)
    requires forall k :: 0 <= k < |languages| ==> languages[k].0 != language
    ensures LanguageEntry(languages, language) == LanguageEntry(languages, "english")
  {
  }

  /** A language without replies of its own gets the English ones. */
  lemma LanguageFallsBackToEnglish(intent: Intent, language: string, responseType: string, kwargs: map<string, string>)
    requires language != "hindi" && language != "marathi"
    ensures ChosenTemplate(intent, language, responseType) == ChosenTemplate(intent, "english", responseType)
    ensures GetResponse(intent, language, responseType, kwargs) == GetResponse(intent, "english", responseType, kwargs)
  {
    LanguageKeys(intent);
    if Responses(intent).Some? && language != "english" {
      LanguageEntryFallback(Responses(intent).value.languages, language);
    }
    ResponseIsChosenTemplate(intent, language, responseType, kwargs);
    ResponseIsChosenTemplate(intent, "english", responseType, kwargs);
  }

  /** When every language has a single text, the response type plays no part
      in choosing the template. */
  lemma PlainTemplateIgnoresType(languages: seq<(string, LanguageReplies)>, language: string, a: string, b: string)
    requires forall k :: 0 <= k < |languages| ==> languages[k].1.Plain?
    ensures TemplateId(LanguageEntry(languages, language), a) == TemplateId(LanguageEntry(languages, language), b)
  {
  }

  /** For intents with one text per language the response type is ignored. */
  lemma PlainRepliesIgnoreType(intent: Intent, language: string, a: string, b: string, kwargs: map<string, string>)
    requires intent == ViewDocuments || intent == Help || intent == Unknown
    ensures GetResponse(intent, language, a, kwargs) == GetResponse(intent, language, b, kwargs)
  {
    var languages := Responses(intent).value.languages;
    assert forall k :: 0 <= k < |languages| ==> languages[k].1.Plain?;
    PlainTemplateIgnoresType(languages, language, a, b);
    ResponseIsChosenTemplate(intent, language, a, kwargs);
    ResponseIsChosenTemplate(intent, language, b, kwargs);
  }

  /** An unknown response type falls back to `Response not available.`. */
  lemma UnknownTypeNotAvailable(replies: seq<(string, TextId)>, responseType: string, kwargs: map<string, string>)
    requires forall k :: 0 <= k < |replies| ==> replies[k].0 != responseType
    ensures Fill(TemplateText(TemplateId(ByType(replies), responseType)), kwargs) == Ok(NotAvailable)
  {
    assert forall k :: 0 <= k < |NotAvailable| ==> NotAvailable[k] != '{' && NotAvailable[k] != '}';
    FormatPlain(NotAvailable, kwargs);
  }
}
