/** The multilingual voice-command intent parser: each intent's patterns are
    tried in the preferred language first and then in Hindi, English and
    Marathi; a match in the preferred language scores 0.9, in another 0.7.
    Regular-expression search is a parameter: `search(pattern, text)` says
    whether the pattern occurs in the text, and `find(pattern, text)` gives the
    matched text. */
module IntentParser {
  import opened Wrappers
  import opened PyStr
  import opened PyDecimal

  datatype Intent =
    | ShowEligibleSchemes
    | ApplyScheme
    | CheckStatus
    | ViewProfile
    | ListApplications
    | ViewDocuments
    | Help
    | Unknown

  /** The three confidences the parser ever reports. */
  datatype Confidence = Unmatched | OtherLanguage | PreferredLanguage

  function Rank(c: Confidence): nat {
    match c
    case Unmatched => 0
    case OtherLanguage => 1
    case PreferredLanguage => 2
  }

  /** 0.0, 0.7 and 0.9. */
  function Value(c: Confidence): (d: Dec)
    ensures d.exponent == -1 && 0 <= d.mantissa <= 9
  {
    match c
    case Unmatched => Dec(0, -1)
    case OtherLanguage => Dec(7, -1)
    case PreferredLanguage => Dec(9, -1)
  }

  /** Comparing ranks is comparing the numeric confidences. */
  lemma RankIsValueOrder(a: Confidence, b: Confidence)
    ensures Rank(a) <= Rank(b) <==> DecLe(Value(a), Value(b))
    ensures a == b <==> DecEq(Value(a), Value(b))
  {
    assert Pow10(0) == 1;
  }

  function Max(a: Confidence, b: Confidence): (c: Confidence)
    ensures Rank(c) >= Rank(a) && Rank(c) >= Rank(b) && (c == a || c == b)
  {
    if Rank(a) >= Rank(b) then a else b
  }

  /** An intent's patterns, language by language. */
  type PatternsByLanguage = seq<(string, seq<string>)>

  /** `INTENT_PATTERNS`, as an ordered table. */
  type PatternTable = seq<(Intent, PatternsByLanguage)>

  const IntentPatterns: PatternTable := [
    (ShowEligibleSchemes, [
      ("hindi", ["(मेरी|मुझे).*(योजना|स्कीम).*(दिखाओ|बताओ|दिखा दो)", "(कौन सी|कौनसी).*(योजना|स्कीम)",
                 "(योजना|स्कीम).*(देखना|देखनी)", "पात्र.*योजना", "eligible.*scheme"]),
      ("marathi", ["(माझ्या|मला).*(योजना|स्कीम).*(दाखवा|सांगा)", "(कोणत्या|कुठल्या).*(योजना|स्कीम)", "योजना.*पहायच्या"]),
      ("english", ["show.*(my|me).*scheme", "eligible.*scheme", "what.*scheme.*(can|eligible)", "list.*scheme", "my.*scheme"])]),
    (ApplyScheme, [
      ("hindi", ["(आवेदन|अप्लाई).*(करो|कर दो|करना)", "योजना.*(के लिए|में).*(आवेदन|अप्लाई)", "(इस|इसके).*(आवेदन|अप्लाई)"]),
      ("marathi", ["अर्ज.*करा", "योजना.*अर्ज", "अप्लाय.*करा"]),
      ("english", ["apply.*(for|to).*scheme", "submit.*application", "apply.*(this|now)"])]),
    (CheckStatus, [
      ("hindi", ["(आवेदन|अप्लीकेशन).*(स्थिति|स्टेटस)", "(स्थिति|स्टेटस).*(देखो|बताओ|दिखाओ)", "मेरा.*आवेदन.*कहां"]),
      ("marathi", ["अर्ज.*स्थिती", "स्टेटस.*दाखवा"]),
      ("english", ["(check|show|what).*(status|application)", "application.*status", "my.*application"])]),
    (ViewProfile, [
      ("hindi", ["(मेरी|मेरा).*(प्रोफाइल|जानकारी)", "प्रोफाइल.*(देखो|दिखाओ)"]),
      ("marathi", ["माझी.*माहिती", "प्रोफाइल.*दाखवा"]),
      ("english", ["(my|show).*profile", "my.*details"])]),
    (ListApplications, [
      ("hindi", ["(मेरे|मेरी).*(सारे|सभी).*(आवेदन)", "(आवेदन|अप्लीकेशन).*(लिस्ट|सूची)"]),
      ("marathi", ["(माझे|माझी).*(सर्व|सगळे).*(अर्ज)", "अर्ज.*(यादी|लिस्ट)"]),
      ("english", ["(all|list).*(my)?.*(application)", "my.*applications"])]),
    (ViewDocuments, [
      ("hindi", ["(मेरे|मेरी).*(दस्तावेज|डॉक्युमेंटस|पेपर)", "दस्तावेज.*(दिखाओ|देखने)"]),
      ("marathi", ["कागदपत्रे.*दाखवा", "डॉक्युमेंटस.*पहायचे"]),
      ("english", ["(my|show).*document(s)?", "view.*document(s)?", "upload.*doc(s)?"])]),
    (Help, [
      ("hindi", ["(मदद|सहायता)", "(क्या|कैसे).*(कर सकत|करू)"]),
      ("marathi", ["मदत"]),
      ("english", ["help", "what can (you|i) do"])])
  ]

  /** The table's intents, in the order they are tried; `UNKNOWN` has no patterns. */
  lemma IntentPatternsOrder()
    ensures IntentsOf(IntentPatterns) == [ShowEligibleSchemes, ApplyScheme, CheckStatus, ViewProfile,
                                          ListApplications, ViewDocuments, Help]
    ensures forall k :: 0 <= k < |IntentPatterns| ==> IntentPatterns[k].0 != Unknown
  {
  }

  /** `d.get(key)` on a table of distinct keys: the first entry with that key. */
  function Lookup<V>(entries: seq<(string, V)>, key: string): (r: Option<V>)
    ensures r.None? <==> forall k :: 0 <= k < |entries| ==> entries[k].0 != key
    ensures r.Some? ==> exists k :: 0 <= k < |entries| && entries[k] == (key, r.value)
    decreases |entries|
  {
    if entries == [] then None
    else if entries[0].0 == key then Some(entries[0].1)
    else
      var r := Lookup(entries[1..], key);
      assert forall k :: 0 < k < |entries| ==> entries[1..][k - 1] == entries[k];
      assert r.Some? ==> exists k :: 0 <= k < |entries| && entries[k] == (key, r.value) by {
        if r.Some? {
          var k :| 0 <= k < |entries[1..]| && entries[1..][k] == (key, r.value);
          assert entries[k + 1] == (key, r.value);
        }
      }
      r
  }

  // ---------------------------------------------------------------- languages

  /** Remove repeated entries, keeping each first occurrence in place. */
  function Dedup(xs: seq<string>): (r: seq<string>)
    ensures forall x :: x in r <==> x in xs
    ensures forall i, j :: 0 <= i < j < |r| ==> r[i] != r[j]
    ensures |r| <= |xs|
    decreases |xs|
  {
    if xs == [] then []
    else
      var front := Dedup(xs[..|xs| - 1]);
      assert forall x :: x in xs <==> x in xs[..|xs| - 1] || x == xs[|xs| - 1] by {
        assert xs == xs[..|xs| - 1] + [xs[|xs| - 1]];
      }
      if xs[|xs| - 1] in front then front else front + [xs[|xs| - 1]]
  }

  /** Repeats after a first occurrence leave the result alone. */
  lemma DedupKeepsFirst(xs: seq<string>, x: string)
    requires |xs| > 0
    ensures Dedup(xs)[0] == xs[0]
    decreases |xs|
  {
    if |xs| > 1 {
      DedupKeepsFirst(xs[..|xs| - 1], x);
    }
  }

  /** The languages tried for each intent: the preferred one first, then
      Hindi, English and Marathi, each once. */
  function LanguagesToCheck(language: string): (langs: seq<string>)
    ensures |langs| > 0 && langs[0] == language
    ensures forall k :: 1 <= k < |langs| ==> langs[k] != language
    ensures forall x :: x in langs <==> x == language || x == "hindi" || x == "english" || x == "marathi"
  {
    var xs := [language, "hindi", "english", "marathi"];
    DedupKeepsFirst(xs, language);
    var r := Dedup(xs);
    assert forall x :: x in xs <==> x == language || x == "hindi" || x == "english" || x == "marathi";
    assert forall k :: 1 <= k < |r| ==> r[k] != language by {
      forall k | 1 <= k < |r| ensures r[k] != language {
        assert r[0] != r[k];
      }
    }
    r
  }

  /** Preferring Hindi, Marathi or English leaves the other two in their
      fixed relative order; any other language adds all three after it. */
  lemma LanguagesToCheckExamples(other: string)
    requires other != "hindi" && other != "marathi" && other != "english"
    ensures LanguagesToCheck("hindi") == ["hindi", "english", "marathi"]
    ensures LanguagesToCheck("marathi") == ["marathi", "hindi", "english"]
    ensures LanguagesToCheck("english") == ["english", "hindi", "marathi"]
    ensures LanguagesToCheck(other) == [other, "hindi", "english", "marathi"]
  {
    HindiFirst();
    MarathiFirst();
    EnglishFirst();
    var xs := [other, "hindi", "english", "marathi"];
    DedupDistinct(xs);
  }

  lemma HindiFirst()
    ensures LanguagesToCheck("hindi") == ["hindi", "english", "marathi"]
  {
    assert ["hindi", "hindi", "english", "marathi"][..3] == ["hindi", "hindi", "english"];
    assert ["hindi", "hindi", "english"][..2] == ["hindi", "hindi"];
    assert ["hindi", "hindi"][..1] == ["hindi"];
  }

  lemma MarathiFirst()
    ensures LanguagesToCheck("marathi") == ["marathi", "hindi", "english"]
  {
    assert ["marathi", "hindi", "english", "marathi"][..3] == ["marathi", "hindi", "english"];
    assert ["marathi", "hindi", "english"][..2] == ["marathi", "hindi"];
    assert ["marathi", "hindi"][..1] == ["marathi"];
  }

  lemma EnglishFirst()
    ensures LanguagesToCheck("english") == ["english", "hindi", "marathi"]
  {
    assert ["english", "hindi", "english", "marathi"][..3] == ["english", "hindi", "english"];
    assert ["english", "hindi", "english"][..2] == ["english", "hindi"];
    assert ["english", "hindi"][..1] == ["english"];
  }

  /** Without repeats there is nothing to remove. */
  lemma {:induction false} DedupDistinct(xs: seq<string>)
    requires forall i, j :: 0 <= i < j < |xs| ==> xs[i] != xs[j]
    ensures Dedup(xs) == xs
    decreases |xs|
  {
    if xs != [] {
      var front := xs[..|xs| - 1];
      DedupDistinct(front);
      assert xs[|xs| - 1] !in front;
      assert front + [xs[|xs| - 1]] == xs;
    }
  }

  /** The list comprehension with its `seen` set. */
  method DedupLanguages(xs: seq<string>) returns (r: seq<string>)
    ensures r == Dedup(xs)
  {
    var seen: set<string> := {};
    r := [];
    var i := 0;
    while i < |xs|
      invariant 0 <= i <= |xs|
      invariant r == Dedup(xs[..i])
      invariant forall x :: x in seen <==> x in xs[..i]
    {
      var x := xs[i];
      assert xs[..i + 1][..i] == xs[..i];
      assert xs[..i + 1] == xs[..i] + [x];
      if x !in seen {
        seen := seen + {x};
        r := r + [x];
      }
      i := i + 1;
    }
    assert xs[..i] == xs;
  }

  // ---------------------------------------------------------------- scoring

  /** Some pattern of `patterns` occurs in `text`. */
  predicate Hits(patterns: seq<string>, text: string, search: (string, string) -> bool) {
    exists k :: 0 <= k < |patterns| && search(patterns[k], text)
  }

  /** What a match of `lang`'s patterns is worth when `language` is preferred. */
  function LangConfidence(byLang: PatternsByLanguage, lang: string, language: string, text: string,
                          search: (string, string) -> bool): Confidence {
    match Lookup(byLang, lang)
    case None => Unmatched
    case Some(patterns) => if !Hits(patterns, text, search) then Unmatched
                           else if lang == language then PreferredLanguage else OtherLanguage
  }

  /** `best_match` and `best_confidence`. */
  datatype Best = Best(intent: Option<Intent>, confidence: Confidence)

  /** One match: it replaces the best so far only with a strictly higher confidence. */
  function Consider(b: Best, intent: Intent, c: Confidence): Best {
    if Rank(c) > Rank(b.confidence) then Best(Some(intent), c) else b
  }

  /** Two matches of the same intent count as its better one. */
  lemma ConsiderTwice(b: Best, intent: Intent, c: Confidence, d: Confidence)
    ensures Consider(Consider(b, intent, c), intent, d) == Consider(b, intent, Max(c, d))
  {
  }

  /** The language loop for one intent. */
  function FoldLangs(b: Best, intent: Intent, byLang: PatternsByLanguage, langs: seq<string>, language: string,
                     text: string, search: (string, string) -> bool): Best
    decreases |langs|
  {
    if langs == [] then b
    else
      var n := |langs| - 1;
      Consider(FoldLangs(b, intent, byLang, langs[..n], language, text, search), intent,
               LangConfidence(byLang, langs[n], language, text, search))
  }

  /** The best confidence any of `langs` gives the intent. */
  function BestOver(byLang: PatternsByLanguage, langs: seq<string>, language: string, text: string,
                    search: (string, string) -> bool): (c: Confidence)
    ensures forall k :: 0 <= k < |langs| ==> Rank(LangConfidence(byLang, langs[k], language, text, search)) <= Rank(c)
    ensures c == Unmatched || exists k :: 0 <= k < |langs| && c == LangConfidence(byLang, langs[k], language, text, search)
    decreases |langs|
  {
    if langs == [] then Unmatched
    else
      var n := |langs| - 1;
      var front := BestOver(byLang, langs[..n], language, text, search);
      assert forall k :: 0 <= k < n ==> langs[..n][k] == langs[k];
      Max(front, LangConfidence(byLang, langs[n], language, text, search))
  }

  /** The language loop amounts to one consideration of the intent's best confidence. */
  lemma {:induction false} FoldLangsIsBest(b: Best, intent: Intent, byLang: PatternsByLanguage, langs: seq<string>,
                                           language: string, text: string, search: (string, string) -> bool)
    ensures FoldLangs(b, intent, byLang, langs, language, text, search)
      == Consider(b, intent, BestOver(byLang, langs, language, text, search))
    decreases |langs|
  {
    if langs != [] {
      var n := |langs| - 1;
      FoldLangsIsBest(b, intent, byLang, langs[..n], language, text, search);
      ConsiderTwice(b, intent, BestOver(byLang, langs[..n], language, text, search),
                    LangConfidence(byLang, langs[n], language, text, search));
    }
  }

  /** An intent's level: 0.9 when a pattern of the preferred language matches,
      otherwise 0.7 when one of Hindi, English or Marathi matches, otherwise
      nothing. */
  function Level(byLang: PatternsByLanguage, language: string, text: string, search: (string, string) -> bool): Confidence {
    BestOver(byLang, LanguagesToCheck(language), language, text, search)
  }

  lemma LevelMeans(byLang: PatternsByLanguage, language: string, text: string, search: (string, string) -> bool)
    ensures var l := Level(byLang, language, text, search);
      && (l == PreferredLanguage <==> LangConfidence(byLang, language, language, text, search) == PreferredLanguage)
      && (l == Unmatched <==> forall x :: x in LanguagesToCheck(language) ==> LangConfidence(byLang, x, language, text, search) == Unmatched)
  {
    var langs := LanguagesToCheck(language);
    var l := Level(byLang, language, text, search);
    if l == PreferredLanguage {
      var k :| 0 <= k < |langs| && l == LangConfidence(byLang, langs[k], language, text, search);
      assert langs[k] == language;
    }
    if l == Unmatched {
      forall x | x in langs ensures LangConfidence(byLang, x, language, text, search) == Unmatched {
        var k :| 0 <= k < |langs| && langs[k] == x;
      }
    }
    if l != Unmatched {
      var k :| 0 <= k < |langs| && l == LangConfidence(byLang, langs[k], language, text, search);
      assert langs[k] in langs;
    }
  }

  /** The intent loop. */
  function FoldIntents(table: PatternTable, language: string, text: string, search: (string, string) -> bool): Best
    decreases |table|
  {
    if table == [] then Best(None, Unmatched)
    else
      var n := |table| - 1;
      FoldLangs(FoldIntents(table[..n], language, text, search), table[n].0, table[n].1,
                LanguagesToCheck(language), language, text, search)
  }

  /** The intents of the table, in order. */
  function IntentsOf(table: PatternTable): (r: seq<Intent>)
    ensures |r| == |table| && forall k :: 0 <= k < |table| ==> r[k] == table[k].0
  {
    seq(|table|, k requires 0 <= k < |table| => table[k].0)
  }

  /** The level of each intent of the table, in order. */
  function LevelsOf(table: PatternTable, language: string, text: string, search: (string, string) -> bool): (r: seq<Confidence>)
    ensures |r| == |table| && forall k :: 0 <= k < |table| ==> r[k] == Level(table[k].1, language, text, search)
  {
    seq(|table|, k requires 0 <= k < |table| => Level(table[k].1, language, text, search))
  }

  /** Considering intents in order, each once at its level. */
  function Choose(intents: seq<Intent>, levels: seq<Confidence>): Best
    requires |intents| == |levels|
    decreases |intents|
  {
    if intents == [] then Best(None, Unmatched)
    else
      var n := |intents| - 1;
      Consider(Choose(intents[..n], levels[..n]), intents[n], levels[n])
  }

  /** The intent loop is that choice over the intents' levels. */
  lemma {:induction false} FoldIntentsIsChoose(table: PatternTable, language: string, text: string, search: (string, string) -> bool)
    ensures FoldIntents(table, language, text, search)
      == Choose(IntentsOf(table), LevelsOf(table, language, text, search))
    decreases |table|
  {
    if table != [] {
      var n := |table| - 1;
      FoldIntentsIsChoose(table[..n], language, text, search);
      assert IntentsOf(table)[..n] == IntentsOf(table[..n]);
      assert LevelsOf(table, language, text, search)[..n] == LevelsOf(table[..n], language, text, search);
      FoldLangsIsBest(FoldIntents(table[..n], language, text, search), table[n].0, table[n].1,
                      LanguagesToCheck(language), language, text, search);
    }
  }

  /** Entry `k` is the first at the confidence of `b`, and `b` names it. */
  predicate FirstAtLevel(intents: seq<Intent>, levels: seq<Confidence>, k: int, b: Best)
    requires |intents| == |levels|
  {
    && 0 <= k < |intents|
    && b.intent == Some(intents[k])
    && levels[k] == b.confidence
    && forall j :: 0 <= j < k ==> Rank(levels[j]) < Rank(b.confidence)
  }

  /** `b` holds the highest level and, unless that is no match, the first
      intent at it. */
  predicate IsFirstBest(intents: seq<Intent>, levels: seq<Confidence>, b: Best)
    requires |intents| == |levels|
  {
    && (forall j :: 0 <= j < |levels| ==> Rank(levels[j]) <= Rank(b.confidence))
    && (b.confidence == Unmatched <==> b.intent.None?)
    && (b.intent.Some? ==> exists k :: 0 <= k < |intents| && FirstAtLevel(intents, levels, k, b))
  }

  /** The choice is the highest level, and among intents at that level the
      first in order; with no match it chooses nothing. */
  lemma {:induction false} ChooseFirstBest(intents: seq<Intent>, levels: seq<Confidence>)
    requires |intents| == |levels|
    ensures IsFirstBest(intents, levels, Choose(intents, levels))
    decreases |intents|
  {
    if intents != [] {
      var n := |intents| - 1;
      var fs, ls := intents[..n], levels[..n];
      ChooseFirstBest(fs, ls);
      var b0 := Choose(fs, ls);
      var b := Choose(intents, levels);
      assert forall j :: 0 <= j < n ==> ls[j] == levels[j];
      if Rank(levels[n]) > Rank(b0.confidence) {
        assert FirstAtLevel(intents, levels, n, b);
      } else if b0.intent.Some? {
        var k :| 0 <= k < n && FirstAtLevel(fs, ls, k, b0);
        assert FirstAtLevel(intents, levels, k, b);
      }
    }
  }

  // ---------------------------------------------------------------- parsing

  /** The scheme names `_extract_entities` looks for, in order. */
  const SchemePatterns: seq<string> := [
    "(pm[-\\s]?kisan|पीएम[-\\s]?किसान|प्रधानमंत्री[-\\s]?किसान)",
    "(fasal bima|फसल बीमा)",
    "(kisan credit|किसान क्रेडिट)",
    "(soil health|मृदा स्वास्थ्य)"
  ]

  /** The text the first matching pattern matches, if any. */
  function FirstFind(patterns: seq<string>, text: string, find: (string, string) -> Option<string>): (r: Option<string>)
    ensures r.None? <==> forall k :: 0 <= k < |patterns| ==> find(patterns[k], text).None?
    ensures r.Some? ==> exists k :: 0 <= k < |patterns| && find(patterns[k], text) == r &&
                          forall j :: 0 <= j < k ==> find(patterns[j], text).None?
    decreases |patterns|
  {
    if patterns == [] then None
    else if find(patterns[0], text).Some? then find(patterns[0], text)
    else
      var r := FirstFind(patterns[1..], text, find);
      assert forall k :: 0 < k < |patterns| ==> patterns[1..][k - 1] == patterns[k];
      assert r.Some? ==> exists k :: 0 <= k < |patterns| && find(patterns[k], text) == r &&
                           forall j :: 0 <= j < k ==> find(patterns[j], text).None? by {
        if r.Some? {
          var k :| 0 <= k < |patterns[1..]| && find(patterns[1..][k], text) == r &&
                   forall j :: 0 <= j < k ==> find(patterns[1..][j], text).None?;
          assert find(patterns[k + 1], text) == r;
        }
      }
      r
  }

  /** `_extract_entities`: at most a `scheme_mention`, from the first scheme
      pattern found in the original text. The intent is not consulted. */
  method ExtractEntities(text: string, intent: Intent, find: (string, string) -> Option<string>)
    returns (schemeMention: Option<string>)
    ensures schemeMention == FirstFind(SchemePatterns, text, find)
  {
    schemeMention := None;
    var k := 0;
    while k < |SchemePatterns|
      invariant 0 <= k <= |SchemePatterns|
      invariant forall j :: 0 <= j < k ==> find(SchemePatterns[j], text).None?
      invariant FirstFind(SchemePatterns, text, find) == FirstFind(SchemePatterns[k..], text, find)
    {
      var m := find(SchemePatterns[k], text);
      if m.Some? {
        schemeMention := m;
        break;
      }
      assert SchemePatterns[k..][1..] == SchemePatterns[k + 1..];
      k := k + 1;
    }
  }

  /** The parser's answer; `entities` holds only the optional scheme mention. */
  datatype ParsedIntent = ParsedIntent(intent: Intent, confidence: Confidence, schemeMention: Option<string>, originalText: string)

  /** The answer for the best match `b`. */
  function Answer(b: Best, text: string, find: (string, string) -> Option<string>): ParsedIntent {
    match b.intent
    case Some(intent) => ParsedIntent(intent, b.confidence, FirstFind(SchemePatterns, text, find), text)
    case None => ParsedIntent(Unknown, Unmatched, None, text)
  }

  /** What `parse(text, language)` returns. */
  function ParseResult(table: PatternTable, text: string, language: string, search: (string, string) -> bool,
                       find: (string, string) -> Option<string>): ParsedIntent {
    Answer(FoldIntents(table, language, Strip(Lower(text)), search), text, find)
  }

  /** The answer for a first-best choice among intents other than `UNKNOWN`. */
  lemma AnswerMeaning(intents: seq<Intent>, levels: seq<Confidence>, b: Best, text: string,
                      find: (string, string) -> Option<string>)
    requires |intents| == |levels| && IsFirstBest(intents, levels, b)
    requires forall k :: 0 <= k < |intents| ==> intents[k] != Unknown
    ensures var p := Answer(b, text, find);
      && p.originalText == text
      && (p.intent == Unknown <==> forall j :: 0 <= j < |levels| ==> levels[j] == Unmatched)
      && (p.intent == Unknown ==> p.confidence == Unmatched && p.schemeMention.None?)
      && (p.intent != Unknown ==> p.schemeMention == FirstFind(SchemePatterns, text, find))
      && (p.intent != Unknown ==> IsFirstBest(intents, levels, Best(Some(p.intent), p.confidence)))
  {
    if b.intent.Some? {
      var k :| 0 <= k < |intents| && FirstAtLevel(intents, levels, k, b);
      assert intents[k] != Unknown;
    }
  }

  /** The parse keeps the original text; without a match it is `UNKNOWN` at
      0.0 with no entities; with one it is the first intent of the highest
      level, reported at that level (0.9 exactly when it matched in the
      preferred language, by `LevelMeans`). */
  lemma ParseMeaning(table: PatternTable, text: string, language: string, search: (string, string) -> bool,
                     find: (string, string) -> Option<string>)
    requires forall k :: 0 <= k < |table| ==> table[k].0 != Unknown
    ensures var p := ParseResult(table, text, language, search, find);
      var levels := LevelsOf(table, language, Strip(Lower(text)), search);
      && p.originalText == text
      && (p.intent == Unknown <==> forall j :: 0 <= j < |levels| ==> levels[j] == Unmatched)
      && (p.intent == Unknown ==> p.confidence == Unmatched && p.schemeMention.None?)
      && (p.intent != Unknown ==> p.schemeMention == FirstFind(SchemePatterns, text, find))
      && (p.intent != Unknown ==> IsFirstBest(IntentsOf(table), levels, Best(Some(p.intent), p.confidence)))
  {
    var t := Strip(Lower(text));
    var intents, levels := IntentsOf(table), LevelsOf(table, language, t, search);
    FoldIntentsIsChoose(table, language, t, search);
    ChooseFirstBest(intents, levels);
    AnswerMeaning(intents, levels, Choose(intents, levels), text, find);
  }

  /** The inner pattern loop: does any pattern occur in the text? */
  method AnyPatternMatches(patterns: seq<string>, text: string, search: (string, string) -> bool) returns (hit: bool)
    ensures hit <==> Hits(patterns, text, search)
  {
    hit := false;
    var k := 0;
    while k < |patterns|
      invariant 0 <= k <= |patterns|
      invariant forall j :: 0 <= j < k ==> !search(patterns[j], text)
    {
      if search(patterns[k], text) {
        hit := true;
        break;
      }
      k := k + 1;
    }
  }

  /** The language loop of `parse` for one intent. */
  method ScoreIntent(best: Best, intent: Intent, byLang: PatternsByLanguage, language: string, text: string,
                     search: (string, string) -> bool) returns (b: Best)
    ensures b == FoldLangs(best, intent, byLang, LanguagesToCheck(language), language, text, search)
  {
    var langs := DedupLanguages([language, "hindi", "english", "marathi"]);
    b := best;
    var j := 0;
    while j < |langs|
      invariant 0 <= j <= |langs|
      invariant b == FoldLangs(best, intent, byLang, langs[..j], language, text, search)
    {
      var lang := langs[j];
      assert langs[..j + 1][..j] == langs[..j];
      var patterns := Lookup(byLang, lang);
      if patterns.Some? {
        var hit := AnyPatternMatches(patterns.value, text, search);
        if hit {
          var confidence := if lang == language then PreferredLanguage else OtherLanguage;
          if Rank(confidence) > Rank(b.confidence) {
            b := Best(Some(intent), confidence);
          }
        }
      }
      j := j + 1;
    }
    assert langs[..j] == langs;
  }

  /** `IntentParser.parse(text, language)` over the pattern table `table`. */
  method Parse(table: PatternTable, text: string, language: string, search: (string, string) -> bool,
               find: (string, string) -> Option<string>) returns (p: ParsedIntent)
    ensures p == ParseResult(table, text, language, search, find)
  {
    var textLower := Strip(Lower(text));
    var best := Best(None, Unmatched);
    var i := 0;
    while i < |table|
      invariant 0 <= i <= |table|
      invariant best == FoldIntents(table[..i], language, textLower, search)
    {
      assert table[..i + 1][..i] == table[..i];
      best := ScoreIntent(best, table[i].0, table[i].1, language, textLower, search);
      i := i + 1;
    }
    assert table[..i] == table;
    if best.intent.Some? {
      var entities := ExtractEntities(text, best.intent.value, find);
      p := ParsedIntent(best.intent.value, best.confidence, entities, text);
    } else {
      p := ParsedIntent(Unknown, Unmatched, None, text);
    }
  }
}
