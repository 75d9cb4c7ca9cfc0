/** A government scheme, its decision-table rules, and the scheme-level
    predicates: localized name and description, expiry and availability. */
module Schemes {
  import opened Wrappers

  /** One row of the decision table: `field operator value`, with an optional
      explanation shown to the farmer (empty when not given). */
  datatype SchemeRule = SchemeRule(field: string, operator: string, value: string, message: string)

  /** A scheme together with its prefetched rules. Dates are day numbers;
      `benefitAmount` is in hundredths. */
  datatype Scheme = Scheme(
    id: string,
    name: string,
    nameHindi: Option<string>,
    nameMarathi: Option<string>,
    description: string,
    descriptionHindi: Option<string>,
    benefitAmount: int,
    requiredDocuments: seq<string>,
    isActive: bool,
    deadline: Option<int>,
    rules: seq<SchemeRule>)

  /** Python truthiness of a nullable text column: present and non-empty. */
  predicate Truthy(t: Option<string>) {
    t.Some? && t.value != ""
  }

  /** `get_localized_name(language)`. */
  function GetLocalizedName(s: Scheme, language: string): (r: string)
    ensures language == "hindi" && Truthy(s.nameHindi) ==> r == s.nameHindi.value
    ensures language == "marathi" && Truthy(s.nameMarathi) ==> r == s.nameMarathi.value
    ensures !(language == "hindi" && Truthy(s.nameHindi)) && !(language == "marathi" && Truthy(s.nameMarathi)) ==>
              r == s.name
  {
    if language == "hindi" && Truthy(s.nameHindi) then s.nameHindi.value
    else if language == "marathi" && Truthy(s.nameMarathi) then s.nameMarathi.value
    else s.name
  }

  /** A localized name is never empty when the scheme has a name, and any
      language other than Hindi or Marathi gets the plain name. */
  lemma LocalizedNameFallback(s: Scheme, language: string)
    ensures s.name != "" ==> GetLocalizedName(s, language) != ""
    ensures language != "hindi" && language != "marathi" ==> GetLocalizedName(s, language) == s.name
    ensures !Truthy(s.nameHindi) && !Truthy(s.nameMarathi) ==> GetLocalizedName(s, language) == s.name
  {
  }

  /** `get_localized_description(language)`: only Hindi is localized. */
  function GetLocalizedDescription(s: Scheme, language: string): (r: string)
    ensures language == "hindi" && Truthy(s.descriptionHindi) ==> r == s.descriptionHindi.value
    ensures !(language == "hindi" && Truthy(s.descriptionHindi)) ==> r == s.description
  {
    if language == "hindi" && Truthy(s.descriptionHindi) then s.descriptionHindi.value
    else s.description
  }

  /** A Marathi reader gets the scheme's own description. */
  lemma MarathiDescriptionNotLocalized(s: Scheme)
    ensures GetLocalizedDescription(s, "marathi") == s.description
  {
  }

  /** `is_expired` on day `today`: a deadline strictly before today. */
  predicate IsExpired(s: Scheme, today: int) {
    s.deadline.Some? && s.deadline.value < today
  }

  /** A scheme without a deadline never expires; one with a deadline is still
      open on that day and expired from the next day on, for good. */
  lemma ExpiryBoundary(s: Scheme, today: int, later: int)
    requires today <= later
    ensures s.deadline.None? ==> !IsExpired(s, today)
    ensures s.deadline == Some(today) ==> !IsExpired(s, today) && IsExpired(s, today + 1)
    ensures IsExpired(s, today) ==> IsExpired(s, later)
  {
  }

  /** `is_available`: active and not expired. */
  predicate IsAvailable(s: Scheme, today: int) {
    s.isActive && !IsExpired(s, today)
  }

  lemma AvailableMeans(s: Scheme, today: int)
    ensures IsAvailable(s, today) <==> s.isActive && (s.deadline.None? || today <= s.deadline.value)
    ensures !s.isActive ==> !IsAvailable(s, today)
  {
  }
}
