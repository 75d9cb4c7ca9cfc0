/** The farmer profile: its stored fields with their defaults, the derived
    properties, and the attribute view the eligibility engine reads. */
module Farmers {
  import opened Wrappers
  import opened PyStr
  import opened PyDecimal

  /** What `getattr(farmer, name)` yields, as far as the eligibility engine can
      tell: a value whose `str()` is `s`, a Python `bool`, or a value whose
      `str()` raises. */
  datatype FieldValue = Text(s: string) | Flag(b: bool) | Unrenderable

  /** `str(value)`; `None` when the conversion raises. */
  function Render(v: FieldValue): (r: Option<string>)
    ensures r.None? <==> v.Unrenderable?
  {
    match v
    case Text(s) => Some(s)
    case Flag(b) => Some(if b then "True" else "False")
    case Unrenderable => None
  }

  /** A stored farmer. The two decimal fields hold hundredths (two decimal places);
      the two timestamps are held as their `str()` renderings. */
  datatype Farmer = Farmer(
    id: string,
    phone: string,
    name: string,
    state: string,
    district: string,
    village: string,
    landSize: int,
    cropType: string,
    landType: string,
    hasIrrigation: bool,
    farmingCategory: string,
    socialCategory: string,
    gender: string,
    age: int,
    annualIncome: int,
    isBpl: bool,
    language: string,
    isActive: bool,
    createdAt: string,
    updatedAt: string)

  /** A farmer created with only its identity and phone: every other field at its default. */
  function DefaultFarmer(id: string, phone: string, now: string): (f: Farmer)
    ensures f.id == id && f.phone == phone
    ensures f.createdAt == now && f.updatedAt == now
    ensures f.name == "" && f.state == "" && f.district == "" && f.village == "" && f.cropType == ""
    ensures f.landSize == 0 && f.annualIncome == 0 && f.age == 30
    ensures f.landType == "rainfed" && f.farmingCategory == "crop_farming"
    ensures f.socialCategory == "general" && f.gender == "male" && f.language == "hindi"
    ensures !f.hasIrrigation && !f.isBpl && f.isActive
  {
    Farmer(id, phone, "", "", "", "", 0, "", "rainfed", false, "crop_farming",
           "general", "male", 30, 0, false, "hindi", true, now, now)
  }

  /** The minimum profile: name, state, district, crop type and farming category
      filled in, and a positive land size. */
  predicate IsProfileComplete(f: Farmer) {
    && f.name != ""
    && f.state != ""
    && f.district != ""
    && f.landSize > 0
    && f.cropType != ""
    && f.farmingCategory != ""
  }

  /** A farmer with default values is never profile-complete. */
  lemma DefaultIncomplete(id: string, phone: string, now: string)
    ensures !IsProfileComplete(DefaultFarmer(id, phone, now))
  {
  }

  /** Every field (each guarding one requirement) is needed for a complete profile. */
  lemma CompleteNeedsEveryField(f: Farmer)
    ensures IsProfileComplete(f) ==> f.name != "" && f.landSize > 0 && f.cropType != ""
    ensures f.landSize <= 0 ==> !IsProfileComplete(f)
    ensures f.name == "" || f.state == "" || f.district == "" ==> !IsProfileComplete(f)
    ensures f.cropType == "" || f.farmingCategory == "" ==> !IsProfileComplete(f)
  {
  }

  /** `is_authenticated`: a farmer object always counts as an authenticated user. */
  function IsAuthenticated(f: Farmer): (r: bool)
    ensures r
  {
    true
  }

  /** `is_anonymous`: never. */
  function IsAnonymous(f: Farmer): (r: bool)
    ensures !r
  {
    false
  }

  /** The farmer as the eligibility engine sees it: the stored fields, the
      primary key `pk` and the three properties, each with what `getattr`
      returns for it. */
  function Attributes(f: Farmer): map<string, FieldValue> {
    map[
      "id" := Text(f.id),
      "phone" := Text(f.phone),
      "name" := Text(f.name),
      "state" := Text(f.state),
      "district" := Text(f.district),
      "village" := Text(f.village),
      "land_size" := Text(CentsText(f.landSize)),
      "crop_type" := Text(f.cropType),
      "land_type" := Text(f.landType),
      "has_irrigation" := Flag(f.hasIrrigation),
      "farming_category" := Text(f.farmingCategory),
      "social_category" := Text(f.socialCategory),
      "gender" := Text(f.gender),
      "age" := Text(IntText(f.age)),
      "annual_income" := Text(CentsText(f.annualIncome)),
      "is_bpl" := Flag(f.isBpl),
      "language" := Text(f.language),
      "is_active" := Flag(f.isActive),
      "created_at" := Text(f.createdAt),
      "updated_at" := Text(f.updatedAt),
      "pk" := Text(f.id),
      "is_profile_complete" := Flag(IsProfileComplete(f)),
      "is_authenticated" := Flag(IsAuthenticated(f)),
      "is_anonymous" := Flag(IsAnonymous(f))
    ]
  }

  /** The timestamps and the primary key are attributes too: a rule may name
      them, and is then evaluated against their renderings. */
  lemma TimestampsAreAttributes(f: Farmer)
    ensures Attributes(f)["created_at"] == Text(f.createdAt)
    ensures Attributes(f)["updated_at"] == Text(f.updatedAt)
    ensures Attributes(f)["pk"] == Text(f.id) && Attributes(f)["id"] == Attributes(f)["pk"]
  {
  }

  /** A value of the application auto-fill dictionary. */
  datatype AppValue = JStr(s: string) | JInt(i: int) | JNum(d: Dec) | JBool(b: bool)

  /** `to_application_data()`: the profile as the auto-fill dictionary. */
  function ToApplicationData(f: Farmer): map<string, AppValue> {
    map[
      "farmer_id" := JStr(f.id),
      "farmer_name" := JStr(f.name),
      "phone" := JStr(f.phone),
      "state" := JStr(f.state),
      "district" := JStr(f.district),
      "village" := JStr(f.village),
      "land_size" := JNum(Dec(f.landSize, -2)),
      "land_type" := JStr(f.landType),
      "crop_type" := JStr(f.cropType),
      "farming_category" := JStr(f.farmingCategory),
      "social_category" := JStr(f.socialCategory),
      "gender" := JStr(f.gender),
      "age" := JInt(f.age),
      "annual_income" := JNum(Dec(f.annualIncome, -2)),
      "is_bpl" := JBool(f.isBpl),
      "has_irrigation" := JBool(f.hasIrrigation),
      "language" := JStr(f.language)
    ]
  }

  /** The keys of the auto-fill dictionary. */
  const ApplicationDataKeySet: set<string> :=
    {"farmer_id", "farmer_name", "phone", "state", "district", "village", "land_size",
     "land_type", "crop_type", "farming_category", "social_category", "gender", "age",
     "annual_income", "is_bpl", "has_irrigation", "language"}

  /** The dictionary has exactly the seventeen auto-fill keys, and names the
      farmer by its identity and name. */
  lemma ApplicationDataKeys(f: Farmer)
    ensures ToApplicationData(f).Keys == ApplicationDataKeySet
    ensures ToApplicationData(f)["farmer_id"] == JStr(f.id)
    ensures ToApplicationData(f)["farmer_name"] == JStr(f.name)
  {
    IdentityEntries(f);
  }

  lemma IdentityEntries(f: Farmer)
    ensures ToApplicationData(f)["farmer_id"] == JStr(f.id)
    ensures ToApplicationData(f)["farmer_name"] == JStr(f.name)
  {
  }

  /** The location fields reach the auto-fill dictionary under the same keys
      with the same text the eligibility rules see. */
  lemma ApplicationDataCarriesLocation(f: Farmer)
    ensures Attributes(f)["state"] == Text(f.state) && ToApplicationData(f)["state"] == JStr(f.state)
    ensures Attributes(f)["district"] == Text(f.district) && ToApplicationData(f)["district"] == JStr(f.district)
    ensures Attributes(f)["village"] == Text(f.village) && ToApplicationData(f)["village"] == JStr(f.village)
  {
    StateEntries(f);
    DistrictEntries(f);
    VillageEntries(f);
  }

  /** So do the categorical fields the rules test with `IN` and `==`. */
  lemma ApplicationDataCarriesCategories(f: Farmer)
    ensures Attributes(f)["farming_category"] == Text(f.farmingCategory)
    ensures ToApplicationData(f)["farming_category"] == JStr(f.farmingCategory)
    ensures Attributes(f)["social_category"] == Text(f.socialCategory)
    ensures ToApplicationData(f)["social_category"] == JStr(f.socialCategory)
    ensures Attributes(f)["gender"] == Text(f.gender) && ToApplicationData(f)["gender"] == JStr(f.gender)
  {
    FarmingCategoryEntries(f);
    SocialCategoryEntries(f);
    GenderEntries(f);
  }

  /** And the crop and land types. */
  lemma ApplicationDataCarriesCrop(f: Farmer)
    ensures Attributes(f)["land_type"] == Text(f.landType) && ToApplicationData(f)["land_type"] == JStr(f.landType)
    ensures Attributes(f)["crop_type"] == Text(f.cropType) && ToApplicationData(f)["crop_type"] == JStr(f.cropType)
  {
    LandTypeEntries(f);
    CropTypeEntries(f);
  }

  /** The two flags reach the auto-fill dictionary as the same booleans. */
  lemma ApplicationDataCarriesFlags(f: Farmer)
    ensures Attributes(f)["is_bpl"] == Flag(f.isBpl) && ToApplicationData(f)["is_bpl"] == JBool(f.isBpl)
    ensures Attributes(f)["has_irrigation"] == Flag(f.hasIrrigation)
    ensures ToApplicationData(f)["has_irrigation"] == JBool(f.hasIrrigation)
  {
    IsBplEntries(f);
    HasIrrigationEntries(f);
  }

  // One entry of each dictionary at a time.

  lemma StateEntries(f: Farmer)
    ensures Attributes(f)["state"] == Text(f.state) && ToApplicationData(f)["state"] == JStr(f.state)
  {
  }

  lemma DistrictEntries(f: Farmer)
    ensures Attributes(f)["district"] == Text(f.district) && ToApplicationData(f)["district"] == JStr(f.district)
  {
  }

  lemma VillageEntries(f: Farmer)
    ensures Attributes(f)["village"] == Text(f.village) && ToApplicationData(f)["village"] == JStr(f.village)
  {
  }

  lemma FarmingCategoryEntries(f: Farmer)
    ensures Attributes(f)["farming_category"] == Text(f.farmingCategory) && ToApplicationData(f)["farming_category"] == JStr(f.farmingCategory)
  {
  }

  lemma SocialCategoryEntries(f: Farmer)
    ensures Attributes(f)["social_category"] == Text(f.socialCategory) && ToApplicationData(f)["social_category"] == JStr(f.socialCategory)
  {
  }

  lemma GenderEntries(f: Farmer)
    ensures Attributes(f)["gender"] == Text(f.gender) && ToApplicationData(f)["gender"] == JStr(f.gender)
  {
  }

  lemma LandTypeEntries(f: Farmer)
    ensures Attributes(f)["land_type"] == Text(f.landType) && ToApplicationData(f)["land_type"] == JStr(f.landType)
  {
  }

  lemma CropTypeEntries(f: Farmer)
    ensures Attributes(f)["crop_type"] == Text(f.cropType) && ToApplicationData(f)["crop_type"] == JStr(f.cropType)
  {
  }

  lemma IsBplEntries(f: Farmer)
    ensures Attributes(f)["is_bpl"] == Flag(f.isBpl) && ToApplicationData(f)["is_bpl"] == JBool(f.isBpl)
  {
  }

  lemma HasIrrigationEntries(f: Farmer)
    ensures Attributes(f)["has_irrigation"] == Flag(f.hasIrrigation) && ToApplicationData(f)["has_irrigation"] == JBool(f.hasIrrigation)
  {
  }

  /** The three numeric fields carry, through `Decimal`, the number the farmer's
      attribute text denotes: land size and income exactly, age as an integer. */
  lemma ApplicationDataCarriesNumbers(f: Farmer)
    ensures Attributes(f)["land_size"].Text? && ToApplicationData(f)["land_size"].JNum?
    ensures ParseDecimal(Attributes(f)["land_size"].s) == Some(ToApplicationData(f)["land_size"].d)
    ensures Attributes(f)["annual_income"].Text? && ToApplicationData(f)["annual_income"].JNum?
    ensures ParseDecimal(Attributes(f)["annual_income"].s) == Some(ToApplicationData(f)["annual_income"].d)
    ensures Attributes(f)["age"].Text? && ToApplicationData(f)["age"].JInt?
    ensures ParseDecimal(Attributes(f)["age"].s) == Some(Dec(ToApplicationData(f)["age"].i, 0))
  {
    LandSizeEntries(f);
    IncomeEntries(f);
    AgeEntries(f);
    CentsTextRoundTrip(f.landSize);
    CentsTextRoundTrip(f.annualIncome);
    IntTextRoundTrip(f.age);
  }

  lemma LandSizeEntries(f: Farmer)
    ensures "land_size" in Attributes(f)
    ensures Attributes(f)["land_size"] == Text(CentsText(f.landSize))
    ensures ToApplicationData(f)["land_size"] == JNum(Dec(f.landSize, -2))
  {
  }

  lemma IncomeEntries(f: Farmer)
    ensures Attributes(f)["annual_income"] == Text(CentsText(f.annualIncome))
    ensures ToApplicationData(f)["annual_income"] == JNum(Dec(f.annualIncome, -2))
  {
  }

  lemma AgeEntries(f: Farmer)
    ensures Attributes(f)["age"] == Text(IntText(f.age))
    ensures ToApplicationData(f)["age"] == JInt(f.age)
  {
  }
}
