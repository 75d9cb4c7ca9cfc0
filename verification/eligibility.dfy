/** The decision-table eligibility engine: one rule against a farmer's
    attributes, all of a scheme's rules exhaustively, and the short-circuit
    filtering of many schemes. */
module Eligibility {
  import opened Wrappers
  import opened PyStr
  import opened PyDecimal
  import opened Seqs
  import opened Farmers
  import opened Schemes

  // ---------------------------------------------------------------- one rule

  datatype Comparison = Le | Ge | Eq

  /** What the engine makes of a rule's (trimmed) operator. */
  datatype OperatorKind = In | Compare(c: Comparison) | Unsupported

  function ClassifyOperator(op: string): OperatorKind {
    if op == "IN" then In
    else if op == "<=" then Compare(Le)
    else if op == ">=" then Compare(Ge)
    else if op == "==" then Compare(Eq)
    else Unsupported
  }

  /** The outcome of a step that may raise an exception. */
  datatype Outcome = Returns(b: bool) | Raises

  /** `text.strip().lower()`. */
  function Normalize(text: string): string {
    Lower(Strip(text))
  }

  /** The comma-separated tokens of an `IN` rule, each trimmed and lower-cased. */
  function AllowedValues(ruleValue: string): (allowed: seq<string>)
    ensures |allowed| == |Split(ruleValue, ',')|
    ensures forall k :: 0 <= k < |allowed| ==> allowed[k] == Normalize(Split(ruleValue, ',')[k])
  {
    var parts := Split(ruleValue, ',');
    seq(|parts|, k requires 0 <= k < |parts| => Normalize(parts[k]))
  }

  /** `_evaluate_in`. */
  function EvaluateIn(farmerValue: FieldValue, ruleValue: string): (r: Outcome)
    ensures r == Raises <==> farmerValue.Unrenderable?
  {
    match Render(farmerValue)
    case None => Raises
    case Some(text) => Returns(Normalize(text) in AllowedValues(ruleValue))
  }

  function CompareDecimals(c: Comparison, x: Dec, y: Dec): bool {
    match c
    case Le => DecLe(x, y)
    case Ge => DecLe(y, x)
    case Eq => DecEq(x, y)
  }

  function CompareText(c: Comparison, a: string, b: string): bool {
    match c
    case Le => LexLe(a, b)
    case Ge => LexLe(b, a)
    case Eq => a == b
  }

  /** The rule values that count as true against a boolean field. */
  const TrueWords: seq<string> := ["true", "1", "yes"]

  /** `_evaluate_comparison`: numbers first, then booleans, then text. */
  function EvaluateComparison(farmerValue: FieldValue, c: Comparison, ruleValue: string): (r: Outcome)
    ensures r == Raises <==> farmerValue.Unrenderable?
  {
    match Render(farmerValue)
    case None => Raises
    case Some(text) =>
      match (ParseDecimal(text), ParseDecimal(ruleValue))
      case (Some(x), Some(y)) => Returns(CompareDecimals(c, x, y))
      case _ =>
        if farmerValue.Flag? then Returns(c == Eq && farmerValue.b == (Normalize(ruleValue) in TrueWords))
        else Returns(CompareText(c, Normalize(text), Normalize(ruleValue)))
  }

  /** A step passes only when it returns true; an exception counts as failure. */
  predicate Passes(o: Outcome) {
    o == Returns(true)
  }

  /** `_evaluate_rule`: whether the farmer with attributes `attrs` passes `rule`. */
  predicate EvaluateRule(attrs: map<string, FieldValue>, rule: SchemeRule) {
    if rule.field !in attrs then true
    else
      var value := Strip(rule.value);
      match ClassifyOperator(Strip(rule.operator))
      case In => Passes(EvaluateIn(attrs[rule.field], value))
      case Compare(c) => Passes(EvaluateComparison(attrs[rule.field], c, value))
      case Unsupported => true
  }

  /** Configuration problems fail open: a rule about an attribute the farmer does
      not have, or with an operator other than `IN`, `<=`, `>=`, `==` (after
      trimming), passes whatever the farmer's data. */
  lemma FailOpen(attrs: map<string, FieldValue>, rule: SchemeRule)
    ensures rule.field !in attrs ==> EvaluateRule(attrs, rule)
    ensures ClassifyOperator(Strip(rule.operator)) == Unsupported ==> EvaluateRule(attrs, rule)
  {
  }

  /** Runtime problems fail closed: when rendering the farmer's value raises,
      a rule with a supported operator fails. */
  lemma FailClosed(attrs: map<string, FieldValue>, rule: SchemeRule)
    requires rule.field in attrs && attrs[rule.field] == Unrenderable
    requires ClassifyOperator(Strip(rule.operator)) != Unsupported
    ensures !EvaluateRule(attrs, rule)
  {
  }

  /** An operator is recognised only in exactly its upper-case spelling. */
  lemma OperatorSpelling()
    ensures ClassifyOperator("in") == Unsupported
    ensures ClassifyOperator("=") == Unsupported
    ensures ClassifyOperator("<") == Unsupported
    ensures ClassifyOperator(Strip(" <= ")) == Compare(Le)
  {
    assert Strip(" <= ") == "<=" by {
      assert TrimLeft(" <= ") == TrimLeft("<= ");
      assert TrimRight("<= ") == TrimRight("<=");
    }
  }

  // ---------------------------------------------------------------- IN

  /** `IN` passes iff the farmer's normalized text equals some normalized token. */
  lemma InMeansSomeToken(farmerValue: FieldValue, ruleValue: string, text: string)
    requires Render(farmerValue) == Some(text)
    ensures EvaluateIn(farmerValue, ruleValue) == Returns(true) <==>
      exists k :: 0 <= k < |Split(ruleValue, ',')| && Normalize(Split(ruleValue, ',')[k]) == Normalize(text)
  {
    var allowed := AllowedValues(ruleValue);
    if Normalize(text) in allowed {
      var k :| 0 <= k < |allowed| && allowed[k] == Normalize(text);
      assert Normalize(Split(ruleValue, ',')[k]) == Normalize(text);
    }
  }

  /** `IN` ignores the order and repetition of its tokens: two lists of the
      same tokens give the same verdict. */
  lemma InIgnoresTokenOrder(farmerValue: FieldValue, tokens1: seq<string>, tokens2: seq<string>)
    requires |tokens1| >= 1 && |tokens2| >= 1
    requires forall k :: 0 <= k < |tokens1| ==> ',' !in tokens1[k]
    requires forall k :: 0 <= k < |tokens2| ==> ',' !in tokens2[k]
    requires forall t :: t in tokens1 <==> t in tokens2
    ensures EvaluateIn(farmerValue, Join(tokens1, ',')) == EvaluateIn(farmerValue, Join(tokens2, ','))
  {
    JoinSplit(tokens1, ',');
    JoinSplit(tokens2, ',');
    if farmerValue != Unrenderable {
      var text := Render(farmerValue).value;
      InMeansSomeToken(farmerValue, Join(tokens1, ','), text);
      InMeansSomeToken(farmerValue, Join(tokens2, ','), text);
      if exists k :: 0 <= k < |tokens1| && Normalize(tokens1[k]) == Normalize(text) {
        var k :| 0 <= k < |tokens1| && Normalize(tokens1[k]) == Normalize(text);
        assert tokens1[k] in tokens2;
        var j :| 0 <= j < |tokens2| && tokens2[j] == tokens1[k];
        assert Normalize(tokens2[j]) == Normalize(text);
      }
      if exists k :: 0 <= k < |tokens2| && Normalize(tokens2[k]) == Normalize(text) {
        var k :| 0 <= k < |tokens2| && Normalize(tokens2[k]) == Normalize(text);
        assert tokens2[k] in tokens1;
        var j :| 0 <= j < |tokens1| && tokens1[j] == tokens2[k];
        assert Normalize(tokens1[j]) == Normalize(text);
      }
    }
  }

  /** An empty `IN` list admits exactly the farmer values that are blank. */
  lemma InEmptyValue(farmerValue: FieldValue, text: string)
    requires Render(farmerValue) == Some(text)
    ensures EvaluateIn(farmerValue, "") == Returns(Strip(text) == "")
  {
    assert Split("", ',') == [""];
    assert AllowedValues("") == [Normalize("")];
    assert Strip("") == "";
    assert Normalize("") == "";
  }

  // ---------------------------------------------------------------- comparisons

  /** When both sides read as decimals the comparison is numeric, whatever the
      kind of field. */
  lemma NumericTier(farmerValue: FieldValue, c: Comparison, ruleValue: string, text: string, x: Dec, y: Dec)
    requires Render(farmerValue) == Some(text)
    requires ParseDecimal(text) == Some(x) && ParseDecimal(ruleValue) == Some(y)
    ensures EvaluateComparison(farmerValue, c, ruleValue) == Returns(CompareDecimals(c, x, y))
  {
  }

  /** A Python `bool` never reads as a decimal (`str(True)` is `"True"`). */
  lemma FlagTextNotDecimal(b: bool)
    ensures ParseDecimal(Render(Flag(b)).value).None?
  {
    var t := Render(Flag(b)).value;
    assert !IsSpace(t[0]) && !IsSpace(t[|t| - 1]);
    StripUnchanged(t);
    SignedOfUnsigned(t);
    assert LeadingDigits(t) == 0;
    assert t[..0] == [] && t[0..] == t;
  }

  /** A boolean field passes only `==`, and only against a rule value that
      names the same truth value; `<=` and `>=` always fail. */
  lemma BooleanTier(b: bool, c: Comparison, ruleValue: string)
    ensures EvaluateComparison(Flag(b), c, ruleValue) == Returns(c == Eq && b == (Normalize(ruleValue) in TrueWords))
    ensures c != Eq ==> EvaluateComparison(Flag(b), c, ruleValue) == Returns(false)
  {
    FlagTextNotDecimal(b);
  }

  /** Text that does not read as a decimal (on either side) is compared after
      trimming and lower-casing, in code-point order. */
  lemma TextTier(text: string, c: Comparison, ruleValue: string)
    requires ParseDecimal(text).None? || ParseDecimal(ruleValue).None?
    ensures EvaluateComparison(Text(text), c, ruleValue) == Returns(CompareText(c, Normalize(text), Normalize(ruleValue)))
  {
  }

  /** The numeric tier takes precedence: `"10" <= "9"` holds as text, but the
      rule fails because 10 > 9. */
  lemma TenAboveNine()
    ensures LexLe("10", "9")
    ensures EvaluateComparison(Text("10"), Le, "9") == Returns(false)
  {
    NonNegativeIntText(10);
    NonNegativeIntText(9);
    assert NatText(10) == "10";
    assert NatText(9) == "9";
    NumericTier(Text("10"), Le, "9", "10", Dec(10, 0), Dec(9, 0));
  }

  /** `"2.00" == "2"` passes although the texts differ. */
  lemma TwoEqualsTwoPointZeroZero()
    ensures EvaluateComparison(Text("2.00"), Eq, "2") == Returns(true)
  {
    TwoAndTwoPointZeroZeroParse();
    TwoHundredHundredthsIsTwo();
    NumericTier(Text("2.00"), Eq, "2", "2.00", Dec(200, -2), Dec(2, 0));
  }

  lemma TwoHundredHundredthsIsTwo()
    ensures CompareDecimals(Eq, Dec(200, -2), Dec(2, 0))
  {
    assert Pow10(2) == 100;
  }

  lemma TwoAndTwoPointZeroZeroParse()
    ensures ParseDecimal("2.00") == Some(Dec(200, -2))
    ensures ParseDecimal("2") == Some(Dec(2, 0))
  {
    NonNegativeIntText(2);
    assert NatText(2) == "2";
    NonNegativeCentsText(200);
    assert UnsignedCentsText(200) == "2.00";
  }

  /** A rule whose (trimmed) operator is a comparison evaluates its comparison
      against the farmer's value for the field. */
  lemma RuleIsComparison(attrs: map<string, FieldValue>, rule: SchemeRule, c: Comparison)
    requires rule.field in attrs && ClassifyOperator(Strip(rule.operator)) == Compare(c)
    ensures EvaluateRule(attrs, rule) == Passes(EvaluateComparison(attrs[rule.field], c, Strip(rule.value)))
  {
  }

  /** Land size against a whole number of acres: `land_size <= n` passes exactly
      when the stored size (in hundredths) is at most `100 * n`; so 2.00 and 1.99
      pass `<= 2` and 2.01 fails. */
  lemma LandSizeAtMost(f: Farmer, n: nat, message: string)
    ensures EvaluateRule(Attributes(f), SchemeRule("land_size", "<=", NatText(n), message)) <==> f.landSize <= 100 * n
  {
    LandSizeEntries(f);
    LandSizeRule(Attributes(f), f.landSize, n, message);
  }

  /** The same for any attribute map holding a two-place land size. */
  lemma LandSizeRule(attrs: map<string, FieldValue>, cents: int, n: nat, message: string)
    requires "land_size" in attrs && attrs["land_size"] == Text(CentsText(cents))
    ensures EvaluateRule(attrs, SchemeRule("land_size", "<=", NatText(n), message)) <==> cents <= 100 * n
  {
    var rule := SchemeRule("land_size", "<=", NatText(n), message);
    assert Strip("<=") == "<=";
    NatTextStripped(n);
    RuleIsComparison(attrs, rule, Le);
    LandSizeComparison(cents, n);
  }

  lemma NatTextStripped(n: nat)
    ensures Strip(NatText(n)) == NatText(n)
  {
    var t := NatText(n);
    assert IsDigit(t[0]) && IsDigit(t[|t| - 1]);
    StripUnchanged(t);
  }

  lemma LandSizeComparison(cents: int, n: nat)
    ensures EvaluateComparison(Text(CentsText(cents)), Le, NatText(n)) == Returns(cents <= 100 * n)
  {
    CentsTextRoundTrip(cents);
    NonNegativeIntText(n);
    NumericTier(Text(CentsText(cents)), Le, NatText(n), CentsText(cents), Dec(cents, -2), Dec(n, 0));
    HundredthsAtMost(cents, n);
  }

  lemma HundredthsAtMost(cents: int, n: nat)
    ensures CompareDecimals(Le, Dec(cents, -2), Dec(n, 0)) == (cents <= 100 * n)
  {
    assert Pow10(2) == 100;
  }

  lemma LandSizeExamples(f: Farmer, message: string)
    ensures f.landSize == 200 ==> EvaluateRule(Attributes(f), SchemeRule("land_size", "<=", "2", message))
    ensures f.landSize == 199 ==> EvaluateRule(Attributes(f), SchemeRule("land_size", "<=", "2", message))
    ensures f.landSize == 201 ==> !EvaluateRule(Attributes(f), SchemeRule("land_size", "<=", "2", message))
  {
    assert NatText(2) == "2";
    LandSizeAtMost(f, 2, message);
  }

  // ---------------------------------------------------------------- one scheme

  /** One entry of `matched_rules` / `failed_rules`. */
  datatype RuleEntry = RuleEntry(rule: string, field: string, message: string)

  function RuleText(r: SchemeRule): string {
    r.field + " " + r.operator + " " + r.value
  }

  function Entry(r: SchemeRule): RuleEntry {
    RuleEntry(RuleText(r), r.field, if r.message == "" then RuleText(r) else r.message)
  }

  function Entries(rules: seq<SchemeRule>): (es: seq<RuleEntry>)
    ensures |es| == |rules|
    ensures forall k :: 0 <= k < |rules| ==> es[k] == Entry(rules[k])
  {
    seq(|rules|, k requires 0 <= k < |rules| => Entry(rules[k]))
  }

  /** The result dictionary of `check_eligibility`. */
  datatype EligibilityResult = EligibilityResult(
    eligible: bool,
    matchedRules: seq<RuleEntry>,
    failedRules: seq<RuleEntry>,
    missingDocuments: seq<string>,
    hasAllDocuments: bool)

  /** The test `check_eligibility` sorts rules by, as a function value. */
  function RulePasses(attrs: map<string, FieldValue>): SchemeRule -> bool {
    r => EvaluateRule(attrs, r)
  }

  function RuleFails(attrs: map<string, FieldValue>): SchemeRule -> bool {
    r => !EvaluateRule(attrs, r)
  }

  function PassingRules(attrs: map<string, FieldValue>, rules: seq<SchemeRule>): seq<SchemeRule> {
    Filter(RulePasses(attrs), rules)
  }

  function FailingRules(attrs: map<string, FieldValue>, rules: seq<SchemeRule>): seq<SchemeRule> {
    Filter(RuleFails(attrs), rules)
  }

  lemma EntriesAppend(xs: seq<SchemeRule>, ys: seq<SchemeRule>)
    ensures Entries(xs + ys) == Entries(xs) + Entries(ys)
  {
  }

  /** One more rule extends exactly one of the two lists, by that rule's entry. */
  lemma ClassifyStep(attrs: map<string, FieldValue>, rules: seq<SchemeRule>, i: nat)
    requires i < |rules|
    ensures EvaluateRule(attrs, rules[i]) ==>
      Entries(PassingRules(attrs, rules[..i + 1])) == Entries(PassingRules(attrs, rules[..i])) + [Entry(rules[i])] &&
      FailingRules(attrs, rules[..i + 1]) == FailingRules(attrs, rules[..i])
    ensures !EvaluateRule(attrs, rules[i]) ==>
      Entries(FailingRules(attrs, rules[..i + 1])) == Entries(FailingRules(attrs, rules[..i])) + [Entry(rules[i])] &&
      PassingRules(attrs, rules[..i + 1]) == PassingRules(attrs, rules[..i])
  {
    assert rules[..i + 1][..i] == rules[..i];
    EntriesAppend(PassingRules(attrs, rules[..i]), [rules[i]]);
    EntriesAppend(FailingRules(attrs, rules[..i]), [rules[i]]);
  }

  /** The test `doc not in farmer_docs`, as a function value. */
  function Lacks(docs: seq<string>): string -> bool {
    d => d !in docs
  }

  /** The required documents the farmer lacks; `None` for `farmerDocs` stands for
      a document lookup that raised, which leaves the list empty. */
  function MissingDocuments(required: seq<string>, farmerDocs: Option<seq<string>>): seq<string> {
    match farmerDocs
    case None => []
    case Some(docs) => Filter(Lacks(docs), required)
  }

  /** What `check_eligibility(farmer, scheme)` returns. */
  function Eligibility(attrs: map<string, FieldValue>, s: Scheme, farmerDocs: Option<seq<string>>): EligibilityResult {
    var failed := Entries(FailingRules(attrs, s.rules));
    var missing := MissingDocuments(s.requiredDocuments, farmerDocs);
    EligibilityResult(|failed| == 0, Entries(PassingRules(attrs, s.rules)), failed, missing, |missing| == 0)
  }

  /** `check_eligibility`: every rule is evaluated, in order. */
  method CheckEligibility(attrs: map<string, FieldValue>, s: Scheme, farmerDocs: Option<seq<string>>)
    returns (result: EligibilityResult)
    ensures result == Eligibility(attrs, s, farmerDocs)
  {
    var matched, failed := ClassifyRules(attrs, s.rules);
    var missing := MissingDocuments(s.requiredDocuments, farmerDocs);
    result := EligibilityResult(|failed| == 0, matched, failed, missing, |missing| == 0);
  }

  /** The rule loop of `check_eligibility`: each rule's entry goes to
      `matched_rules` when it passes and to `failed_rules` otherwise. */
  method ClassifyRules(attrs: map<string, FieldValue>, rules: seq<SchemeRule>)
    returns (matched: seq<RuleEntry>, failed: seq<RuleEntry>)
    ensures matched == Entries(PassingRules(attrs, rules))
    ensures failed == Entries(FailingRules(attrs, rules))
  {
    matched, failed := [], [];
    var i := 0;
    while i < |rules|
      invariant 0 <= i <= |rules|
      invariant matched == Entries(PassingRules(attrs, rules[..i]))
      invariant failed == Entries(FailingRules(attrs, rules[..i]))
    {
      var rule := rules[i];
      var passed := EvaluateRule(attrs, rule);
      ClassifyStep(attrs, rules, i);
      if passed {
        matched := matched + [Entry(rule)];
      } else {
        failed := failed + [Entry(rule)];
      }
      i := i + 1;
    }
    assert rules[..i] == rules;
  }

  /** Every rule lands in exactly one of the two lists: the passing ones in
      `matched_rules`, the others in `failed_rules`, each list in rule order. */
  lemma RulesPartitioned(attrs: map<string, FieldValue>, s: Scheme, farmerDocs: Option<seq<string>>, rule: SchemeRule)
    ensures var r := Eligibility(attrs, s, farmerDocs);
      |r.matchedRules| + |r.failedRules| == |s.rules|
    ensures rule in s.rules && EvaluateRule(attrs, rule) ==> rule in PassingRules(attrs, s.rules) && rule !in FailingRules(attrs, s.rules)
    ensures rule in s.rules && !EvaluateRule(attrs, rule) ==> rule in FailingRules(attrs, s.rules) && rule !in PassingRules(attrs, s.rules)
  {
    FilterPartition(RulePasses(attrs), RuleFails(attrs), s.rules);
    if rule in s.rules {
      if EvaluateRule(attrs, rule) {
        FilterKeeps(RulePasses(attrs), s.rules, rule);
      } else {
        FilterKeeps(RuleFails(attrs), s.rules, rule);
      }
    }
  }

  /** Rule order is kept: the rules of a longer list are classified after
      those of its prefix. */
  lemma RuleOrderKept(attrs: map<string, FieldValue>, rules1: seq<SchemeRule>, rules2: seq<SchemeRule>)
    ensures Entries(PassingRules(attrs, rules1 + rules2)) == Entries(PassingRules(attrs, rules1)) + Entries(PassingRules(attrs, rules2))
    ensures Entries(FailingRules(attrs, rules1 + rules2)) == Entries(FailingRules(attrs, rules1)) + Entries(FailingRules(attrs, rules2))
  {
    FilterAppend(RulePasses(attrs), rules1, rules2);
    FilterAppend(RuleFails(attrs), rules1, rules2);
    EntriesAppend(PassingRules(attrs, rules1), PassingRules(attrs, rules2));
    EntriesAppend(FailingRules(attrs, rules1), FailingRules(attrs, rules2));
  }

  /** An entry's message is the rule's own message, or `"field op value"` when
      the rule has none. */
  lemma EntryMessage(r: SchemeRule)
    ensures r.message != "" ==> Entry(r).message == r.message
    ensures r.message == "" ==> Entry(r).message == r.field + " " + r.operator + " " + r.value
  {
  }

  /** A farmer is eligible for a scheme iff every one of its rules passes. */
  lemma EligibleIffAllRulesPass(attrs: map<string, FieldValue>, s: Scheme, farmerDocs: Option<seq<string>>)
    ensures Eligibility(attrs, s, farmerDocs).eligible <==> AllRulesPass(attrs, s.rules)
    ensures Eligibility(attrs, s, farmerDocs).eligible <==> Eligibility(attrs, s, farmerDocs).failedRules == []
  {
    FilterNone(RuleFails(attrs), s.rules);
  }

  /** The missing documents are the required ones the farmer lacks, in the
      order required; a failing lookup reports none missing. */
  lemma MissingDocumentsMeaning(s: Scheme, farmerDocs: Option<seq<string>>, d: string)
    ensures farmerDocs.None? ==> MissingDocuments(s.requiredDocuments, farmerDocs) == []
    ensures farmerDocs.Some? ==>
      (d in MissingDocuments(s.requiredDocuments, farmerDocs) <==> d in s.requiredDocuments && d !in farmerDocs.value)
    ensures farmerDocs.Some? ==>
      (MissingDocuments(s.requiredDocuments, farmerDocs) == [] <==>
       forall k :: 0 <= k < |s.requiredDocuments| ==> s.requiredDocuments[k] in farmerDocs.value)
  {
    if farmerDocs.Some? {
      var docs := farmerDocs.value;
      if d in s.requiredDocuments && d !in docs {
        FilterKeeps(Lacks(docs), s.requiredDocuments, d);
      }
      FilterNone(Lacks(docs), s.requiredDocuments);
    }
  }

  /** `has_all_documents` holds iff no document is missing. */
  lemma HasAllDocumentsMeaning(attrs: map<string, FieldValue>, s: Scheme, farmerDocs: Option<seq<string>>)
    ensures Eligibility(attrs, s, farmerDocs).hasAllDocuments <==> Eligibility(attrs, s, farmerDocs).missingDocuments == []
    ensures farmerDocs.None? ==> Eligibility(attrs, s, farmerDocs).hasAllDocuments
  {
  }

  // ---------------------------------------------------------------- many schemes

  predicate AllRulesPass(attrs: map<string, FieldValue>, rules: seq<SchemeRule>) {
    forall k :: 0 <= k < |rules| ==> EvaluateRule(attrs, rules[k])
  }

  /** The test bulk filtering applies to one scheme of the active ones. */
  predicate ShortlistedFor(attrs: map<string, FieldValue>, today: int, s: Scheme) {
    !IsExpired(s, today) && AllRulesPass(attrs, s.rules)
  }

  /** `ShortlistedFor` as a function value. */
  function Shortlist(attrs: map<string, FieldValue>, today: int): Scheme -> bool {
    s => ShortlistedFor(attrs, today, s)
  }

  /** The query filter `is_active=True`. */
  function Active(s: Scheme): bool {
    s.isActive
  }

  function ActiveSchemes(table: seq<Scheme>): seq<Scheme> {
    Filter(Active, table)
  }

  /** Whether all rules pass, stopping at the first failing rule. */
  method RulesPass(attrs: map<string, FieldValue>, rules: seq<SchemeRule>) returns (isEligible: bool)
    ensures isEligible <==> AllRulesPass(attrs, rules)
  {
    isEligible := true;
    var i := 0;
    while i < |rules|
      invariant 0 <= i <= |rules|
      invariant isEligible && forall k :: 0 <= k < i ==> EvaluateRule(attrs, rules[k])
    {
      if !EvaluateRule(attrs, rules[i]) {
        isEligible := false;
        break;
      }
      i := i + 1;
    }
  }

  /** `get_eligible_schemes_for_farmer`: the active schemes of `table` (in
      query order) that have not expired on `today` and whose rules all pass. */
  method EligibleSchemesForFarmer(attrs: map<string, FieldValue>, table: seq<Scheme>, today: int)
    returns (eligible: seq<Scheme>)
    ensures eligible == Filter(Shortlist(attrs, today), ActiveSchemes(table))
  {
    var schemes := ActiveSchemes(table);
    eligible := [];
    var i := 0;
    while i < |schemes|
      invariant 0 <= i <= |schemes|
      invariant eligible == Filter(Shortlist(attrs, today), schemes[..i])
    {
      FilterStep(Shortlist(attrs, today), schemes, i);
      var keep := KeepScheme(attrs, schemes[i], today);
      if keep {
        eligible := eligible + [schemes[i]];
      }
      i := i + 1;
    }
    assert schemes[..i] == schemes;
  }

  /** The body of the bulk loop for one active scheme: an expired scheme is
      skipped, a scheme without rules is kept, otherwise the rules decide. */
  method KeepScheme(attrs: map<string, FieldValue>, scheme: Scheme, today: int) returns (keep: bool)
    ensures keep == Shortlist(attrs, today)(scheme)
  {
    if IsExpired(scheme, today) {
      return false;
    }
    var rules := scheme.rules;
    if rules == [] {
      return true;
    }
    keep := RulesPass(attrs, rules);
  }

  /** Bulk filtering keeps exactly the active, unexpired schemes for which
      `check_eligibility` reports the farmer eligible; a scheme without rules
      needs only to be active and unexpired. */
  lemma BulkAgreesWithCheck(attrs: map<string, FieldValue>, table: seq<Scheme>, today: int,
                            farmerDocs: Option<seq<string>>, s: Scheme)
    ensures s in Filter(Shortlist(attrs, today), ActiveSchemes(table)) <==>
      s in table && s.isActive && !IsExpired(s, today) && Eligibility(attrs, s, farmerDocs).eligible
    ensures s in table && s.isActive && !IsExpired(s, today) && s.rules == [] ==>
      s in Filter(Shortlist(attrs, today), ActiveSchemes(table))
  {
    EligibleIffAllRulesPass(attrs, s, farmerDocs);
    if s in table && s.isActive {
      FilterKeeps(Active, table, s);
      if ShortlistedFor(attrs, today, s) {
        FilterKeeps(Shortlist(attrs, today), ActiveSchemes(table), s);
      }
    }
  }

  /** The order of the scheme table is kept: schemes listed earlier come earlier. */
  lemma BulkKeepsOrder(attrs: map<string, FieldValue>, table1: seq<Scheme>, table2: seq<Scheme>, today: int)
    ensures Filter(Shortlist(attrs, today), ActiveSchemes(table1 + table2)) ==
      Filter(Shortlist(attrs, today), ActiveSchemes(table1)) +
      Filter(Shortlist(attrs, today), ActiveSchemes(table2))
  {
    FilterAppend(Active, table1, table2);
    FilterAppend(Shortlist(attrs, today), ActiveSchemes(table1), ActiveSchemes(table2));
  }

  // ---------------------------------------------------------------- result shaping

  /** `getattr(farmer, 'language', 'english')`; a value that is not text never
      equals a language name, and the empty text stands for it. */
  function PreferredLanguage(attrs: map<string, FieldValue>): string {
    if "language" !in attrs then "english"
    else match attrs["language"]
      case Text(s) => s
      case _ => ""
  }

  /** One element of `get_eligible_schemes`'s list. */
  datatype SchemeSummary = SchemeSummary(
    scheme: Scheme,
    schemeId: string,
    name: string,
    nameLocalized: string,
    description: string,
    benefitAmount: Dec,
    deadline: Option<int>,
    eligibility: EligibilityResult,
    canApply: bool)

  function Summary(attrs: map<string, FieldValue>, s: Scheme, farmerDocs: Option<seq<string>>): SchemeSummary {
    var language := PreferredLanguage(attrs);
    var eligibility := Eligibility(attrs, s, farmerDocs);
    SchemeSummary(s, s.id, s.name, GetLocalizedName(s, language), GetLocalizedDescription(s, language),
                  Dec(s.benefitAmount, -2), s.deadline, eligibility, eligibility.hasAllDocuments)
  }

  function Summaries(attrs: map<string, FieldValue>, schemes: seq<Scheme>, farmerDocs: Option<seq<string>>): (r: seq<SchemeSummary>)
    ensures |r| == |schemes|
    ensures forall k :: 0 <= k < |schemes| ==> r[k] == Summary(attrs, schemes[k], farmerDocs)
  {
    seq(|schemes|, k requires 0 <= k < |schemes| => Summary(attrs, schemes[k], farmerDocs))
  }

  /** The schemes `get_eligible_schemes` reports: the bulk filter over the
      table, or, for a given list, its unexpired schemes whose rules all pass. */
  function EligibleSchemes(attrs: map<string, FieldValue>, given: Option<seq<Scheme>>, table: seq<Scheme>, today: int): seq<Scheme> {
    match given
    case None => Filter(Shortlist(attrs, today), ActiveSchemes(table))
    case Some(schemes) => Filter(Shortlist(attrs, today), schemes)
  }

  /** The given-list branch of `get_eligible_schemes`: unexpired schemes whose
      rules all pass (a scheme without rules passes), in the given order. */
  method ShortlistGiven(attrs: map<string, FieldValue>, schemes: seq<Scheme>, today: int)
    returns (chosen: seq<Scheme>)
    ensures chosen == Filter(Shortlist(attrs, today), schemes)
  {
    chosen := [];
    var i := 0;
    while i < |schemes|
      invariant 0 <= i <= |schemes|
      invariant chosen == Filter(Shortlist(attrs, today), schemes[..i])
    {
      var scheme := schemes[i];
      FilterStep(Shortlist(attrs, today), schemes, i);
      var keep := false;
      if !IsExpired(scheme, today) {
        var allPass := RulesPass(attrs, scheme.rules);
        keep := scheme.rules == [] || allPass;
      }
      assert keep == Shortlist(attrs, today)(scheme);
      if keep {
        chosen := chosen + [scheme];
      }
      i := i + 1;
    }
    assert schemes[..i] == schemes;
  }

  /** `get_eligible_schemes(farmer, schemes)`. */
  method GetEligibleSchemes(attrs: map<string, FieldValue>, given: Option<seq<Scheme>>, table: seq<Scheme>,
                            today: int, farmerDocs: Option<seq<string>>)
    returns (result: seq<SchemeSummary>)
    ensures result == Summaries(attrs, EligibleSchemes(attrs, given, table, today), farmerDocs)
  {
    var chosen: seq<Scheme>;
    if given.None? {
      chosen := EligibleSchemesForFarmer(attrs, table, today);
    } else {
      chosen := ShortlistGiven(attrs, given.value, today);
    }
    result := Summarize(attrs, chosen, farmerDocs);
  }

  /** The result list of `get_eligible_schemes`: one summary per chosen scheme. */
  method Summarize(attrs: map<string, FieldValue>, chosen: seq<Scheme>, farmerDocs: Option<seq<string>>)
    returns (result: seq<SchemeSummary>)
    ensures result == Summaries(attrs, chosen, farmerDocs)
  {
    result := [];
    var j := 0;
    while j < |chosen|
      invariant 0 <= j <= |chosen|
      invariant result == Summaries(attrs, chosen[..j], farmerDocs)
    {
      var eligibility := CheckEligibility(attrs, chosen[j], farmerDocs);
      var language := PreferredLanguage(attrs);
      var s := chosen[j];
      result := result + [SchemeSummary(s, s.id, s.name, GetLocalizedName(s, language), GetLocalizedDescription(s, language),
                                        Dec(s.benefitAmount, -2), s.deadline, eligibility, eligibility.hasAllDocuments)];
      j := j + 1;
    }
    assert chosen[..j] == chosen;
  }

  /** Every scheme `get_eligible_schemes` reports is one the farmer is eligible
      for, and it can be applied for exactly when no document is missing. */
  lemma ReportedSchemesEligible(attrs: map<string, FieldValue>, given: Option<seq<Scheme>>, table: seq<Scheme>,
                                today: int, farmerDocs: Option<seq<string>>, k: nat)
    requires k < |EligibleSchemes(attrs, given, table, today)|
    ensures var r := Summaries(attrs, EligibleSchemes(attrs, given, table, today), farmerDocs)[k];
      r.eligibility.eligible && (r.canApply <==> r.eligibility.missingDocuments == [])
  {
    var s := EligibleSchemes(attrs, given, table, today)[k];
    assert s in EligibleSchemes(attrs, given, table, today);
    EligibleIffAllRulesPass(attrs, s, farmerDocs);
  }

  /** One element of `get_all_schemes_with_eligibility`'s list. */
  datatype SchemeStatus = SchemeStatus(
    schemeId: string,
    name: string,
    nameLocalized: string,
    description: string,
    benefitAmount: Dec,
    deadline: Option<int>,
    isEligible: bool,
    eligibilityDetails: EligibilityResult,
    isExpired: bool)

  function Status(attrs: map<string, FieldValue>, s: Scheme, today: int, farmerDocs: Option<seq<string>>): SchemeStatus {
    var language := PreferredLanguage(attrs);
    var details := Eligibility(attrs, s, farmerDocs);
    SchemeStatus(s.id, s.name, GetLocalizedName(s, language), GetLocalizedDescription(s, language),
                 Dec(s.benefitAmount, -2), s.deadline, details.eligible, details, IsExpired(s, today))
  }

  /** One status per scheme, in order. */
  function Statuses(attrs: map<string, FieldValue>, schemes: seq<Scheme>, today: int,
                    farmerDocs: Option<seq<string>>): (r: seq<SchemeStatus>)
    ensures |r| == |schemes|
    ensures forall k :: 0 <= k < |schemes| ==> r[k] == Status(attrs, schemes[k], today, farmerDocs)
  {
    seq(|schemes|, k requires 0 <= k < |schemes| => Status(attrs, schemes[k], today, farmerDocs))
  }

  /** `get_all_schemes_with_eligibility(farmer, schemes)`: one status per scheme,
      for the given list or else the active schemes of the table. */
  method GetAllSchemesWithEligibility(attrs: map<string, FieldValue>, given: Option<seq<Scheme>>, table: seq<Scheme>,
                                      today: int, farmerDocs: Option<seq<string>>)
    returns (result: seq<SchemeStatus>)
    ensures result == Statuses(attrs, if given.Some? then given.value else ActiveSchemes(table), today, farmerDocs)
  {
    var schemes := if given.Some? then given.value else ActiveSchemes(table);
    result := StatusAll(attrs, schemes, today, farmerDocs);
  }

  /** The loop of `get_all_schemes_with_eligibility` over the chosen schemes. */
  method StatusAll(attrs: map<string, FieldValue>, schemes: seq<Scheme>, today: int, farmerDocs: Option<seq<string>>)
    returns (result: seq<SchemeStatus>)
    ensures result == Statuses(attrs, schemes, today, farmerDocs)
  {
    result := [];
    var i := 0;
    while i < |schemes|
      invariant 0 <= i <= |schemes|
      invariant result == Statuses(attrs, schemes[..i], today, farmerDocs)
    {
      var scheme := schemes[i];
      var details := CheckEligibility(attrs, scheme, farmerDocs);
      var language := PreferredLanguage(attrs);
      result := result + [SchemeStatus(scheme.id, scheme.name, GetLocalizedName(scheme, language),
                                       GetLocalizedDescription(scheme, language), Dec(scheme.benefitAmount, -2),
                                       scheme.deadline, details.eligible, details, IsExpired(scheme, today))];
      i := i + 1;
    }
    assert schemes[..i] == schemes;
  }

  /** The overview and the bulk filter agree: a scheme of the table is
      reported eligible and unexpired in the overview exactly when bulk
      filtering keeps it. */
  lemma OverviewAgreesWithBulk(attrs: map<string, FieldValue>, table: seq<Scheme>, today: int,
                               farmerDocs: Option<seq<string>>, s: Scheme)
    requires s in ActiveSchemes(table)
    ensures var st := Status(attrs, s, today, farmerDocs);
      (st.isEligible && !st.isExpired) <==> s in Filter(Shortlist(attrs, today), ActiveSchemes(table))
  {
    BulkAgreesWithCheck(attrs, table, today, farmerDocs, s);
  }
}
