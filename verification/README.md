# Agrisarthi core, modelled in Dafny

Agrisarthi helps farmers in India find government schemes they are eligible for and apply to them. They can apply by voice, in Hindi, Marathi or English.

This project models the logic at the centre of the Django back end.

- **The eligibility engine.** It is a decision table of `(field, operator, value)` rules per scheme. A rule is evaluated against a farmer's profile in three tiers: exact decimal, then boolean, then case-insensitive text. Configuration problems fail open and runtime problems fail closed.
  - A single scheme is checked exhaustively. Every rule is classified as matched or failed, and the missing documents are listed.
  - The bulk filter short-circuits at the first failing rule.
  - The two result-shaping entry points build on both paths.
- **The scheme and farmer models.** These cover the localized name and description, expiry against a `today` day number, availability, profile completeness, and the auto-fill dictionary of an application.
- **Phone, OTP and document-dictionary validation** in the authentication serializers.
- **The OTP service** over an in-memory `otp_codes` table, held by the class `OtpService.OtpTable`. Issuing a code invalidates the phone's earlier codes. A code verifies once. Cleanup deletes the expired rows.
- **Document-type identification and required-document matching** in the storage service. The bucket listing and the signed-URL call are parameters.
- **The voice intent parser.** Regular-expression search is a parameter. The three confidences 0.9, 0.7 and 0.0 form an enum. The language order, the tie-break of the first best intent and entity extraction are all modelled. The localized response table is modelled together with the subset of `str.format` it uses.
- **Error-message extraction** of the REST exception handler.
- **The application's approve and reject transitions**, held by the class `Applications.Application`.

Python builtins the core relies on are written out in these modules:

- `PyStr`: `strip`, ASCII `lower`, `split`/`join`, `isdigit`, lexicographic `<=` and integer rendering.
- `PyDecimal`: a `Decimal` parser with exact comparison.
- `Seqs`: an order-preserving filter, used for every list comprehension and filtering loop.

Times are whole seconds and dates are day numbers. Both are always parameters.

## Model

| member | source | states |
|---|---|---|
| Eligibility.ClassifyOperator | schemes/services/eligibility_engine.py:85-95 | the operator dispatch: exactly `IN`, `<=`, `>=` and `==` are recognised; its consequences are stated by OperatorSpelling and FailOpen |
| Eligibility.EvaluateRule | schemes/services/eligibility_engine.py:66-101 | the definition of `_evaluate_rule` (strip, `hasattr`, dispatch, exception); its behaviour is stated by FailOpen, FailClosed and RuleIsComparison |
| Eligibility.AllowedValues | schemes/services/eligibility_engine.py:104-110 | the `IN` tokens are the comma-separated parts of the rule value, each trimmed and lower-cased, one per part |
| Eligibility.EvaluateIn | schemes/services/eligibility_engine.py:104-110 | `IN` raises exactly when the farmer value cannot be rendered with `str()` |
| Eligibility.EvaluateComparison | schemes/services/eligibility_engine.py:113-150 | the comparison raises exactly when the farmer value cannot be rendered |
| Eligibility.FailOpen | schemes/services/eligibility_engine.py:76-95 | a rule passes when the farmer lacks its field, or when its trimmed operator is not `IN`, `<=`, `>=` or `==` |
| Eligibility.FailClosed | schemes/services/eligibility_engine.py:96-101 | when evaluation raises, the rule fails |
| Eligibility.OperatorSpelling | schemes/services/eligibility_engine.py:72-95 | operators match case-sensitively after trimming: `in`, `=` and `<` are unsupported, and ` <= ` is `<=` |
| Eligibility.InMeansSomeToken | schemes/services/eligibility_engine.py:104-110 | `IN` passes iff the normalised farmer text equals some normalised token |
| Eligibility.InIgnoresTokenOrder | schemes/services/eligibility_engine.py:104-110 | two comma lists with the same tokens, in any order and with any duplicates, give the same verdict |
| Eligibility.InEmptyValue | schemes/services/eligibility_engine.py:104-110 | an empty `IN` value admits only a farmer text that is blank after trimming |
| Eligibility.NumericTier | schemes/services/eligibility_engine.py:119-130 | when both sides parse as decimals, the verdict is the exact numeric comparison under the operator |
| Eligibility.FlagTextNotDecimal | schemes/services/eligibility_engine.py:119-137 | the rendering of a boolean (`True`/`False`) never parses as a decimal, so booleans reach the boolean tier |
| Eligibility.BooleanTier | schemes/services/eligibility_engine.py:133-137 | for a boolean, `==` compares it with "rule value in {true, 1, yes}"; `<=` and `>=` fail |
| Eligibility.TextTier | schemes/services/eligibility_engine.py:140-150 | when either side is not a decimal, the verdict is the lexicographic comparison of the trimmed, lower-cased texts |
| Eligibility.TenAboveNine | schemes/services/eligibility_engine.py:140-150 | under text comparison `"10" <= "9"` holds, so a text rule `<= 9` rejects the text `10` |
| Eligibility.TwoEqualsTwoPointZeroZero | schemes/services/eligibility_engine.py:119-130 | the text `2.00` is `== 2` (numeric tier) |
| Eligibility.TwoHundredHundredthsIsTwo | schemes/services/eligibility_engine.py:119-130 | 200 hundredths equals 2 under decimal equality |
| Eligibility.TwoAndTwoPointZeroZeroParse | schemes/services/eligibility_engine.py:119-123 | `Decimal("2.00")` is 200 × 10⁻² and `Decimal("2")` is 2 |
| Eligibility.RuleIsComparison | schemes/services/eligibility_engine.py:85-95 | a present field with a comparison operator is decided by the comparison on the trimmed value |
| Eligibility.LandSizeAtMost | schemes/services/eligibility_engine.py:66-130 | a farmer passes `land_size <= n` iff their land size, in hundredths, is at most 100·n |
| Eligibility.LandSizeRule | schemes/services/eligibility_engine.py:66-130 | for any attribute map holding a two-place land size, `land_size <= n` passes iff the size in hundredths is at most 100·n |
| Eligibility.LandSizeComparison | schemes/services/eligibility_engine.py:119-130 | the two-place rendering of a land size compared `<= n` is the exact comparison cents ≤ 100·n |
| Eligibility.HundredthsAtMost | schemes/services/eligibility_engine.py:119-130 | decimal `<=` between hundredths and an integer is the integer inequality |
| Eligibility.LandSizeExamples | schemes/services/eligibility_engine.py:119-130 | land sizes 2.00 and 1.99 pass `land_size <= 2`; 2.01 fails |
| Eligibility.NatTextStripped | schemes/services/eligibility_engine.py:72-73 | a rendered natural number is unchanged by trimming |
| Eligibility.Entries | schemes/services/eligibility_engine.py:175-186 | one rule entry per rule, in order |
| Eligibility.EntriesAppend | schemes/services/eligibility_engine.py:171-186 | entry lists concatenate along with the rule lists |
| Eligibility.ClassifyStep | schemes/services/eligibility_engine.py:171-186 | one loop step appends the rule's entry to exactly one of the matched and failed lists |
| Eligibility.CheckEligibility | schemes/services/eligibility_engine.py:165-206 | `check_eligibility` returns the result specified by `Eligibility` |
| Eligibility.ClassifyRules | schemes/services/eligibility_engine.py:171-186 | the loop yields the entries of the passing rules and of the failing rules, each in rule order |
| Eligibility.RulesPartitioned | schemes/services/eligibility_engine.py:171-186 | every rule goes into exactly one of matched and failed, and the two counts add up to the number of rules |
| Eligibility.RuleOrderKept | schemes/services/eligibility_engine.py:171-186 | classification distributes over concatenation of rule lists, so rule order is kept |
| Eligibility.EntryMessage | schemes/services/eligibility_engine.py:179-185 | an empty rule message defaults to `field op value` |
| Eligibility.MissingDocuments | schemes/services/eligibility_engine.py:188-196 | the definition of `missing_documents`; stated by MissingDocumentsMeaning |
| Eligibility.Eligibility | schemes/services/eligibility_engine.py:165-206 | the definition of the `check_eligibility` result; stated by RulesPartitioned, EligibleIffAllRulesPass and HasAllDocumentsMeaning |
| Eligibility.EligibleIffAllRulesPass | schemes/services/eligibility_engine.py:198-206 | `eligible` holds iff every rule passes, iff `failed_rules` is empty |
| Eligibility.MissingDocumentsMeaning | schemes/services/eligibility_engine.py:188-196 | missing documents are exactly the required ones the farmer lacks, in order; a failed lookup gives none |
| Eligibility.HasAllDocumentsMeaning | schemes/services/eligibility_engine.py:198-206 | `has_all_documents` holds iff the missing list is empty, and always holds when the lookup failed |
| Eligibility.RulesPass | schemes/services/eligibility_engine.py:50-57 | the short-circuit loop decides eligibility iff every rule passes |
| Eligibility.EligibleSchemesForFarmer | schemes/services/eligibility_engine.py:18-59 | the bulk filter is the order-preserving filter of the active schemes that are unexpired and whose rules all pass |
| Eligibility.KeepScheme | schemes/services/eligibility_engine.py:37-59 | a scheme is kept iff it is unexpired and either has no rules or all of its rules pass |
| Eligibility.BulkAgreesWithCheck | schemes/services/eligibility_engine.py:37-59 | a scheme is in the bulk result iff it is listed, active, unexpired and `check_eligibility` calls it eligible; an unexpired active scheme without rules is always included |
| Eligibility.BulkKeepsOrder | schemes/services/eligibility_engine.py:37-59 | the bulk result over a concatenated table is the concatenation of the bulk results |
| Eligibility.Summaries | schemes/services/eligibility_engine.py:225-244 | one summary per scheme, in order |
| Eligibility.ShortlistGiven | schemes/services/eligibility_engine.py:215-223 | the given-list branch keeps the unexpired schemes whose rules all pass, in the given order |
| Eligibility.GetEligibleSchemes | schemes/services/eligibility_engine.py:208-244 | the result is the summaries of the bulk result (no list given) or of the shortlist of the given list |
| Eligibility.Summarize | schemes/services/eligibility_engine.py:225-244 | the summary loop yields one summary per chosen scheme, in order |
| Eligibility.ReportedSchemesEligible | schemes/services/eligibility_engine.py:225-244 | every reported scheme is eligible, and `can_apply` holds iff it misses no document |
| Eligibility.Statuses | schemes/services/eligibility_engine.py:255-279 | one status per scheme, in order |
| Eligibility.GetAllSchemesWithEligibility | schemes/services/eligibility_engine.py:246-279 | the statuses of every given scheme, or else of every active scheme, eligible or not |
| Eligibility.StatusAll | schemes/services/eligibility_engine.py:255-279 | the status loop yields one status per scheme, in order |
| Eligibility.OverviewAgreesWithBulk | schemes/services/eligibility_engine.py:246-279 | for an active scheme, "eligible and not expired" in the overview holds iff the bulk filter keeps it |
| PyDecimal.LeadingDigits | schemes/services/eligibility_engine.py:119-123 | the length of the longest all-digit prefix |
| PyDecimal.ParseDecimal | schemes/services/eligibility_engine.py:119-123 | the definition of `Decimal(text)`, `None` for `InvalidOperation`; its round trips are IntTextRoundTrip and CentsTextRoundTrip |
| PyDecimal.IntTextRoundTrip | schemes/services/eligibility_engine.py:119-123 | `Decimal(str(i))` is i for every integer |
| PyDecimal.CentsTextRoundTrip | schemes/services/eligibility_engine.py:119-123 | `Decimal(str(d))` of a two-place value is that value, at exponent −2 |
| PyDecimal.NonNegativeIntText | schemes/services/eligibility_engine.py:119-123 | a rendered natural number parses to itself |
| PyDecimal.NegativeIntText | schemes/services/eligibility_engine.py:119-123 | a rendered negative integer parses to itself |
| PyDecimal.NonNegativeCentsText | schemes/services/eligibility_engine.py:119-123 | a rendered non-negative two-place value parses to itself |
| PyDecimal.NegativeCentsText | schemes/services/eligibility_engine.py:119-123 | a rendered negative two-place value parses to itself |
| PyStr.Strip | schemes/services/eligibility_engine.py:72-73 | the result is a sub-length string with no whitespace at either end |
| PyStr.StripIdempotent | schemes/services/eligibility_engine.py:72-73 | trimming twice is trimming once |
| PyStr.LowerIdempotent | schemes/services/eligibility_engine.py:106-110 | lower-casing twice is lower-casing once |
| PyStr.NatTextValue | schemes/services/eligibility_engine.py:119-123 | the decimal digits of `str(n)` denote n |
| PyStr.Split | schemes/services/eligibility_engine.py:106 | `split(',')` gives at least one part, none containing the separator |
| PyStr.SplitJoin | schemes/services/eligibility_engine.py:106 | joining the parts of a split gives the string back |
| PyStr.JoinSplit | schemes/services/eligibility_engine.py:106 | splitting a join of separator-free parts gives the parts back |
| PyStr.ContainsAt | applications/services/supabase_storage.py:101 | the substring test holds iff the needle occurs at some position |
| PyStr.LexLeTotal | schemes/services/eligibility_engine.py:140-150 | text `<=` is total |
| PyStr.LexLeTransitive | schemes/services/eligibility_engine.py:140-150 | text `<=` is transitive |
| PyStr.LexLeAntisymmetric | schemes/services/eligibility_engine.py:140-150 | text `<=` is antisymmetric |
| PyStr.LexLeReflexive | schemes/services/eligibility_engine.py:140-150 | text `<=` is reflexive |
| PyStr.LexLeFirstDifference | schemes/services/eligibility_engine.py:140-150 | text `<=` is decided by the first differing character |
| PyStr.LexLePrefix | schemes/services/eligibility_engine.py:140-150 | a prefix is `<=` the longer string |
| Seqs.FilterAppend | schemes/services/eligibility_engine.py:37-59 | filtering distributes over concatenation (order preservation) |
| Seqs.FilterPartition | schemes/services/eligibility_engine.py:171-186 | a filter and its complement split the input as a multiset |
| Schemes.GetLocalizedName | schemes/models.py:52-58 | Hindi and Marathi names are used only when asked for and non-empty; any other result is `name` |
| Schemes.LocalizedNameFallback | schemes/models.py:52-58 | other languages, or empty localized names, give `name` |
| Schemes.GetLocalizedDescription | schemes/models.py:60-64 | only Hindi with a non-empty `description_hindi` is localized; otherwise `description` |
| Schemes.MarathiDescriptionNotLocalized | schemes/models.py:60-64 | Marathi gets the default description |
| Schemes.ExpiryBoundary | schemes/models.py:66-71 | no deadline never expires; the deadline day itself is open and the next day is expired, for good |
| Schemes.IsExpired | schemes/models.py:66-71 | the definition of `is_expired`; stated by ExpiryBoundary |
| Schemes.AvailableMeans | schemes/models.py:73-76 | available iff active and (no deadline or today ≤ deadline) |
| Schemes.IsAvailable | schemes/models.py:73-76 | the definition of `is_available`; stated by AvailableMeans |
| Farmers.Render | farmers/models.py:66-141 | `str()` fails only on an unrenderable value |
| Farmers.DefaultFarmer | farmers/models.py:66-141 | the field defaults: empty texts, land size and income 0, age 30, rainfed, crop_farming, general, male, hindi, no irrigation, not BPL, active |
| Farmers.IsProfileComplete | farmers/models.py:153-163 | the definition of `is_profile_complete`; stated by DefaultIncomplete and CompleteNeedsEveryField |
| Farmers.Attributes | farmers/models.py:66-141 | what `hasattr`/`getattr` give the engine: the stored fields, `pk` and the three properties; stated by TimestampsAreAttributes and the ApplicationDataCarries lemmas |
| Farmers.TimestampsAreAttributes | farmers/models.py:140-141 | `created_at`, `updated_at` and `pk` are attributes the engine reads, as their renderings |
| Farmers.ToApplicationData | farmers/models.py:165-185 | the definition of `to_application_data`; stated by ApplicationDataKeys and the ApplicationDataCarries lemmas |
| Farmers.DefaultIncomplete | farmers/models.py:153-163 | a farmer with the default values is not profile-complete |
| Farmers.CompleteNeedsEveryField | farmers/models.py:153-163 | an empty name, state, district, crop type or farming category, or a land size ≤ 0, makes the profile incomplete |
| Farmers.IsAuthenticated | farmers/models.py:17-20 | always true |
| Farmers.IsAnonymous | farmers/models.py:22-25 | always false |
| Farmers.ApplicationDataKeys | farmers/models.py:165-185 | the auto-fill dictionary has exactly its 17 keys, with the farmer's id and name |
| Farmers.ApplicationDataCarriesLocation | farmers/models.py:165-185 | state, district and village appear unchanged both to the engine and in the auto-fill data |
| Farmers.ApplicationDataCarriesCategories | farmers/models.py:165-185 | farming and social category and gender appear unchanged in both |
| Farmers.ApplicationDataCarriesCrop | farmers/models.py:165-185 | land and crop type appear unchanged in both |
| Farmers.ApplicationDataCarriesFlags | farmers/models.py:165-185 | the BPL and irrigation flags appear unchanged in both |
| Farmers.ApplicationDataCarriesNumbers | farmers/models.py:165-185 | land size, income and age in the auto-fill data are the values the engine parses from the farmer's rendered fields |
| AuthSerializers.RemoveSeparators | auth_app/serializers.py:15 | the result has no space, `-`, `(`, `)` or `+` |
| AuthSerializers.RemoveSeparatorsCounts | auth_app/serializers.py:15 | every other character is kept, with its multiplicity |
| AuthSerializers.RemoveSeparatorsAppend | auth_app/serializers.py:15 | removal distributes over concatenation, so order is kept |
| AuthSerializers.StandardizePhone | auth_app/serializers.py:31-38 | the OTP-verify normaliser never rejects, and gives at most 10 characters free of separators |
| AuthSerializers.StandardizeKeepsLastTen | auth_app/serializers.py:16-19 | after separator removal, at most the last 10 characters are kept; this also covers a 12-character `91…` number |
| AuthSerializers.StandardizeTenDigits | auth_app/serializers.py:80-87 | a 10-digit number is unchanged by the registration normaliser |
| AuthSerializers.StandardizeIdempotent | auth_app/serializers.py:80-87 | normalising twice is normalising once |
| AuthSerializers.ValidateLoginPhone | auth_app/serializers.py:13-23 | the login normaliser accepts iff the normalised number is 10 digits, and returns it; otherwise it raises its message |
| AuthSerializers.LoginPhoneIdempotent | auth_app/serializers.py:13-23 | an accepted number is accepted again unchanged, and a 10-digit number is accepted as is |
| AuthSerializers.LoginAgreesWithStandardize | auth_app/serializers.py:13-23 | login gives the same number as the other normalisers, and rejects anything shorter than 10 |
| AuthSerializers.LoginPhoneWritten | auth_app/serializers.py:13-23 | `+91 (xxxxx)-xxxxx` and a leading `0` before ten digits both give the ten digits |
| AuthSerializers.ValidateOtp | auth_app/serializers.py:40-44 | accepted iff all digits (and non-empty), unchanged |
| AuthSerializers.OtpRejectsNonDigit | auth_app/serializers.py:40-44 | any non-digit character rejects the code |
| AuthSerializers.ValidateDocument | auth_app/serializers.py:89-93 | accepted iff both `document_type` and `document_url` are keys, unchanged |
| OtpModel.ExpiryMonotone | auth_app/models.py:32-35 | a code is not expired at its expiry instant, is expired one second later, and stays expired |
| OtpModel.IsExpired | auth_app/models.py:32-35 | the definition of `is_expired`; stated by ExpiryMonotone |
| OtpModel.IsValid | auth_app/models.py:37-40 | the definition of `is_valid`; stated by ValidMeans and ExpiryInstant |
| OtpModel.ValidMeans | auth_app/models.py:37-40 | a used code is never valid; an unused one is valid iff now ≤ expiry |
| OtpModel.Describe | auth_app/models.py:29-30 | `OTP for ` followed by the phone |
| OtpModel.DescribeNamesPhone | auth_app/models.py:29-30 | two codes render the same iff they have the same phone |
| OtpService.GenerateOtp | auth_app/services.py:18-21 | a six-digit code |
| OtpService.GenerateOtpIgnoresLength | auth_app/services.py:18-21 | the requested length has no effect |
| OtpService.Invalidate | auth_app/services.py:33-36 | exactly the phone's unused codes are marked used; nothing else changes |
| OtpService.CreateLeavesOneUnused | auth_app/services.py:25-53 | after `create_otp` the new code is the phone's only unused code; other phones' rows are untouched, and no row changes except in `is_used` |
| OtpService.AfterCreate | auth_app/services.py:25-53 | the table after `create_otp`; stated by CreateLeavesOneUnused and IssuedCodeIsSingleUse |
| OtpService.LatestMatch | auth_app/services.py:63-68 | no position iff nothing matches; otherwise a matching row with the greatest `created_at` |
| OtpService.AfterVerify | auth_app/services.py:56-76 | the table after `verify_otp`; stated by VerifyConsumesOne |
| OtpService.CountMatching | auth_app/services.py:63-68 | zero iff no row matches |
| OtpService.CountAfterUpdate | auth_app/services.py:71-72 | replacing one row changes the count of matching rows by that row's contribution only |
| OtpService.VerifyConsumesOne | auth_app/services.py:56-76 | success iff some row matches; success consumes exactly one matching row, and failure changes nothing |
| OtpService.IssuedCodeIsSingleUse | auth_app/services.py:25-76 | a freshly issued code verifies exactly once before it expires |
| OtpService.OnlyOneMatches | auth_app/services.py:63-68 | a unique matching row is the latest match, and the count is one |
| OtpService.CleanupDeletesExactlyExpired | auth_app/services.py:79-84 | cleanup keeps exactly the rows with expiry ≥ now, and reports how many it deleted |
| OtpService.ExpiryInstant | auth_app/services.py:67 | at its expiry instant an unused code is `is_valid`, yet verification refuses it and cleanup keeps it |
| OtpService.OtpTable.constructor | auth_app/models.py:17-22 | an empty table |
| OtpService.OtpTable.CreateOtp | auth_app/services.py:25-53 | returns `123456`; the table becomes the earlier rows with the phone's codes invalidated, plus the new code |
| OtpService.OtpTable.VerifyOtp | auth_app/services.py:56-76 | returns whether a row matched; the latest match is marked used |
| OtpService.OtpTable.CleanupExpiredOtps | auth_app/services.py:79-84 | deletes the rows expiring before now, keeping order, and returns their count |
| SupabaseStorage.BucketName | applications/services/supabase_storage.py:54-57 | `farmer-` followed by the farmer id |
| SupabaseStorage.BucketNameInjective | applications/services/supabase_storage.py:54-57 | different farmers get different buckets |
| SupabaseStorage.PatternHitMeans | applications/services/supabase_storage.py:99-102 | a type hits iff one of its patterns occurs in the lower-cased name, or the name starts with the type |
| SupabaseStorage.PatternHit | applications/services/supabase_storage.py:99-102 | the inner-loop test of `_identify_document_type`; stated by PatternHitMeans |
| SupabaseStorage.FirstHit | applications/services/supabase_storage.py:99-102 | the first type in table order that hits, or none |
| SupabaseStorage.LastDot | applications/services/supabase_storage.py:105 | the position of the last dot, or none when there is none |
| SupabaseStorage.Stem | applications/services/supabase_storage.py:105 | the name up to its last dot, or the whole name without a dot |
| SupabaseStorage.IdentifyDocumentType | applications/services/supabase_storage.py:94-105 | the first hitting type in table order, or else the stem of the name |
| SupabaseStorage.IdentifyIgnoresCase | applications/services/supabase_storage.py:97-102 | names equal up to case get the same identified type; only the fallback keeps the name's own case |
| SupabaseStorage.AadhaarByPrefix | applications/services/supabase_storage.py:28-40 | any name starting with `aadhaar`, in any case, is an Aadhaar card |
| SupabaseStorage.DocsByType | applications/services/supabase_storage.py:153-157 | holds exactly the listed types, each mapped to the first file listed with that type |
| SupabaseStorage.DocsByTypeListed | applications/services/supabase_storage.py:153-157 | every held file was listed under its key |
| SupabaseStorage.Fetch | applications/services/supabase_storage.py:136-189 | the result of `fetch_required_documents`; stated by FetchPartition, MissingEntriesMeaning and FoundEntriesMeaning |
| SupabaseStorage.FetchPartition | applications/services/supabase_storage.py:159-189 | found and missing split the required types; the totals and `all_found` agree with the lists |
| SupabaseStorage.MissingEntriesMeaning | applications/services/supabase_storage.py:176-181 | each missing entry is a required, unlisted type with status `missing` and the message `<type> not found in your documents` |
| SupabaseStorage.FoundEntriesMeaning | applications/services/supabase_storage.py:163-175 | each found entry is a required type with the first file listed for it, that file's signed URL, `verified` and `attached` |
| SupabaseStorage.FirstListed | applications/services/supabase_storage.py:153-157 | the file held for a listed type is the first listed with it |
| SupabaseStorage.FetchStep | applications/services/supabase_storage.py:163-181 | one loop step appends to exactly one of found and missing |
| SupabaseStorage.FetchRequiredDocuments | applications/services/supabase_storage.py:136-189 | the method returns the result specified by `Fetch` |
| SupabaseStorage.MatchRequired | applications/services/supabase_storage.py:163-181 | the loop yields the found entries and the missing entries, each in required order |
| IntentParser.Value | voice/services/intent_parser.py:180-185 | each confidence is a tenth between 0.0 and 0.9 |
| IntentParser.RankIsValueOrder | voice/services/intent_parser.py:180-185 | the confidence enum orders as the decimal constants 0.0 < 0.7 < 0.9 |
| IntentParser.Max | voice/services/intent_parser.py:180-185 | the larger of two confidences |
| IntentParser.IntentPatternsOrder | voice/services/intent_parser.py:40-151 | the pattern table lists the intents in source order, and `UNKNOWN` has no patterns |
| IntentParser.Lookup | voice/services/intent_parser.py:313-323 | absent iff no entry has the key; otherwise an entry's value |
| IntentParser.Dedup | voice/services/intent_parser.py:173-175 | the same elements without duplicates |
| IntentParser.DedupKeepsFirst | voice/services/intent_parser.py:173-175 | the first element stays first |
| IntentParser.LanguagesToCheck | voice/services/intent_parser.py:173-175 | the preferred language first, then hindi, english and marathi, each once |
| IntentParser.LanguagesToCheckExamples | voice/services/intent_parser.py:173-175 | hindi → hindi, english, marathi; marathi → marathi, hindi, english; english → english, hindi, marathi; any other → it, hindi, english, marathi |
| IntentParser.DedupLanguages | voice/services/intent_parser.py:173-175 | the `seen`-set loop computes the deduplicated list |
| IntentParser.ConsiderTwice | voice/services/intent_parser.py:183-185 | considering an intent at two confidences is considering it at the higher one |
| IntentParser.FoldLangsIsBest | voice/services/intent_parser.py:176-185 | the language loop leaves the intent's best confidence over the languages checked |
| IntentParser.LevelMeans | voice/services/intent_parser.py:180-182 | 0.9 iff the intent matched in the preferred language; 0.0 iff it matched in no language checked |
| IntentParser.IntentsOf | voice/services/intent_parser.py:176 | the intents of the table, in order |
| IntentParser.LevelsOf | voice/services/intent_parser.py:176-185 | each intent's confidence, in order |
| IntentParser.FoldIntentsIsChoose | voice/services/intent_parser.py:171-185 | the intent loop selects as the choice over the confidences |
| IntentParser.ChooseFirstBest | voice/services/intent_parser.py:171-185 | the choice is the first intent of the highest confidence; a later intent replaces it only with strictly higher confidence |
| IntentParser.FirstFind | voice/services/intent_parser.py:209-222 | the match of the first scheme pattern that matches, or none |
| IntentParser.ExtractEntities | voice/services/intent_parser.py:203-222 | the loop with `break` yields that first match as `scheme_mention` |
| IntentParser.AnswerMeaning | voice/services/intent_parser.py:187-201 | with no match: `UNKNOWN` at 0.0 without entities; otherwise the first best intent with its scheme mention; the text is kept |
| IntentParser.ParseMeaning | voice/services/intent_parser.py:153-201 | the same, stated for the parse of the lower-cased, trimmed text |
| IntentParser.ParseResult | voice/services/intent_parser.py:153-201 | the result of `parse`; stated by ParseMeaning |
| IntentParser.AnyPatternMatches | voice/services/intent_parser.py:177-179 | the pattern loop decides whether any pattern occurs |
| IntentParser.ScoreIntent | voice/services/intent_parser.py:176-185 | the language loop for one intent computes the fold over the languages checked |
| IntentParser.Parse | voice/services/intent_parser.py:153-201 | the method returns the parse specified by `ParseResult` |
| VoiceResponses.CloseAt | voice/services/intent_parser.py:325-328 | the first `}` from a position on, or none |
| VoiceResponses.Format | voice/services/intent_parser.py:325-328 | `template.format(**kwargs)` for simple fields; stated by FormatPlain, FormatPrefix and FormatField |
| VoiceResponses.FormatPlain | voice/services/intent_parser.py:325-328 | a template without braces formats to itself |
| VoiceResponses.FormatPrefix | voice/services/intent_parser.py:325-328 | brace-free text is copied through ahead of the rest |
| VoiceResponses.FormatField | voice/services/intent_parser.py:325-328 | `{name}` is replaced by the keyword argument, or raises `KeyError` when it is missing |
| VoiceResponses.CloseAtFirst | voice/services/intent_parser.py:325-328 | the first closing brace is found |
| VoiceResponses.Fill | voice/services/intent_parser.py:325-328 | the formatted text; the raw template on `KeyError`; any other formatting error propagates |
| VoiceResponses.GetResponse | voice/services/intent_parser.py:302-328 | the definition of `get_response`; stated by ResponseIsChosenTemplate and the lemmas below |
| VoiceResponses.ResponseIsChosenTemplate | voice/services/intent_parser.py:302-328 | the response is the chosen template, filled in |
| VoiceResponses.MissingIntentNotAvailable | voice/services/intent_parser.py:313-316 | `VIEW_PROFILE` and `LIST_APPLICATIONS` always give `Response not available.` |
| VoiceResponses.LanguageKeys | voice/services/intent_parser.py:229-300 | every intent in the table has replies in hindi, marathi and english |
| VoiceResponses.LanguageEntryFallback | voice/services/intent_parser.py:318 | an unknown language reads the English entry |
| VoiceResponses.LanguageFallsBackToEnglish | voice/services/intent_parser.py:318 | any language other than hindi and marathi gets the English response |
| VoiceResponses.PlainTemplateIgnoresType | voice/services/intent_parser.py:320-323 | a plain-string entry ignores the response type |
| VoiceResponses.PlainRepliesIgnoreType | voice/services/intent_parser.py:320-323 | view-documents, help and unknown replies are the same for every response type |
| VoiceResponses.UnknownTypeNotAvailable | voice/services/intent_parser.py:320-323 | a response type without an entry gives `Response not available.` |
| ErrorMessages.GetErrorMessage | core/exceptions.py:30-44 | the definition of `get_error_message`; stated by DetailWins, NonFieldErrorsNext, FirstKeyOnly and DefaultOtherwise |
| ErrorMessages.DetailWins | core/exceptions.py:33-34 | a `detail` key decides the message, whatever else the dictionary holds |
| ErrorMessages.NonFieldErrorsNext | core/exceptions.py:35-36 | otherwise `non_field_errors` gives its first item, raising only when it has none |
| ErrorMessages.FirstKeyOnly | core/exceptions.py:38-41 | otherwise only the first key counts: `key: ` followed by the first item of a non-empty list, or by the value |
| ErrorMessages.DefaultOtherwise | core/exceptions.py:42-44 | an empty dictionary, an empty list, a string or a scalar gives `An error occurred`; only `non_field_errors` can raise |
| Applications.Reviewer | applications/models.py:76-91 | a truthy reviewer is recorded, and otherwise the earlier one is kept |
| Applications.ReviewerSticks | applications/models.py:76-91 | a decision without a reviewer keeps the one from an earlier decision |
| Applications.Application.constructor | applications/models.py:46-63 | a new application is `PENDING` with empty notes and reason, no reviewer and creation time = update time |
| Applications.Application.Approve | applications/models.py:76-82 | status `APPROVED`, `verified_at` now, reviewer only when given, reason and notes and application data unchanged |
| Applications.Application.Reject | applications/models.py:84-91 | status `REJECTED`, the given reason, `verified_at` now, reviewer only when given, notes and application data unchanged |

## Left out

- Unicode. `lower()` and `isdigit()` are modelled on ASCII only. Non-ASCII letters and digits (Devanagari numerals among them) are treated as unchanged and as non-digits. `strip()` uses Python's full whitespace set.
- `Decimal` is a subset. The parser reads whitespace, a sign, digits with an optional fraction, and an optional exponent. `NaN`, `Infinity`, underscores and non-ASCII digits are read as invalid, and an invalid operation is a parse failure.
- Regular expressions are left out. `re.search` becomes the parameter `search(pattern, text)`, and the group of a match becomes the parameter `find(pattern, text)`. The pattern tables are kept as data.
- Network calls to the storage service are left out:
  - the client;
  - the bucket listing, `list_farmer_documents` (its per-file typing is `IdentifyDocumentType`);
  - `ensure_farmer_bucket_exists`.
  The listed files and `get_document_signed_url` are parameters.
- Database access, `save()`, logging and `print` are left out. Queries are modelled as the tables they return, in order.
- SupabaseStorage.FetchRequiredDocuments: a listing failure is modelled only as an empty listing.
- Eligibility.Summary and Eligibility.Status keep `deadline` as a day number rather than its `str()` rendering.
- Amounts are not floats. The `float()` of `benefit_amount` in the summaries is kept as the exact two-place decimal. Amounts and land sizes are whole hundredths.
- Field declarations (maximum lengths, choices, nullability, UUID generation) are not modelled beyond the values the logic reads.
- Times are integers. Times are whole seconds and dates are day numbers, with `now` and `today` passed in.
- Separate `timezone.now()` readings that happen within one call are modelled as one `now`:
  - the two readings in `create_otp`;
  - in `Applications.Application.Approve` and `Applications.Application.Reject`, the `verified_at` stamp and the `auto_now` stamp of `updated_at` that `save()` makes;
  - in `Applications.Application.constructor`, the `auto_now_add` stamp of `created_at` and the `auto_now` stamp of `updated_at`.
- Farmers.Attributes covers the stored fields, `pk` and the three properties. `hasattr` also finds the model's methods (`save`, `to_application_data`, and so on) and its manager; a rule naming one of those is evaluated against that attribute's `str()`, which this model does not capture. The timestamps are held as their rendered text.
- OtpService.LatestMatch: among matching rows with equal `created_at`, the one stored last is taken. The database's order for ties is unspecified.
- The `length` argument of `generate_otp` has no effect, as in the code. The code is always `123456`.
- VoiceResponses.Format models simple `{name}` fields and the `{{`/`}}` escapes. Other fields raise: positional, attribute, index, conversion and format-spec fields, and stray braces. Keyword values are given already rendered as strings.
- ErrorMessages.GetErrorMessage takes `str()` of a value as the parameter `show`.
- The surrounding `custom_exception_handler`, which rewrites the response body, is left out. So are the `__str__` methods of the scheme, farmer and application models.
- The registration `validate_phone` (`auth_app/serializers.py:80-87`) is the same code as the OTP-verify one, so both are `StandardizePhone`.
- Eligibility.EvaluateComparison: `str()` of an attribute that cannot be rendered stands for every exception raised during evaluation.
- Eligibility.GetEligibleSchemes: the document lookup of the farmer is a parameter. `None` stands for the lookup raising.
