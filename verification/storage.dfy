/** The document side of the storage service: each farmer's bucket name, the
    document type a stored file is taken for, and the matching of a scheme's
    required documents against the files in the bucket. */
module SupabaseStorage {
  import opened Wrappers
  import opened PyStr
  import opened Seqs

  /** `get_farmer_bucket_name`. */
  function BucketName(farmerId: string): (r: string)
    ensures |r| == 7 + |farmerId| && r[..7] == "farmer-" && r[7..] == farmerId
  {
    "farmer-" + farmerId
  }

  /** Different farmers get different buckets. */
  lemma BucketNameInjective(a: string, b: string)
    ensures BucketName(a) == BucketName(b) <==> a == b
  {
    if BucketName(a) == BucketName(b) {
      assert a == BucketName(a)[7..];
    }
  }

  /** `DOCUMENT_TYPES`, in its declaration order: each type with its file-name patterns. */
  const DocumentTypes: seq<(string, seq<string>)> := [
    ("aadhaar", ["aadhaar.pdf", "aadhaar.jpg", "aadhaar.png"]),
    ("land_certificate", ["land_certificate.pdf", "land_record.pdf", "7_12_extract.pdf"]),
    ("bank_passbook", ["bank_passbook.pdf", "bank_passbook.jpg", "passbook.pdf"]),
    ("caste_certificate", ["caste_certificate.pdf", "caste_cert.pdf"]),
    ("income_certificate", ["income_certificate.pdf", "income_cert.pdf"]),
    ("pan_card", ["pan_card.pdf", "pan_card.jpg", "pan.pdf"]),
    ("voter_id", ["voter_id.pdf", "voter_id.jpg", "voter.pdf"]),
    ("ration_card", ["ration_card.pdf", "ration_card.jpg"]),
    ("photo", ["photo.jpg", "photo.png", "passport_photo.jpg"]),
    ("soil_health_card", ["soil_health_card.pdf", "soil_health.pdf"]),
    ("kisan_credit_card", ["kcc.pdf", "kisan_credit_card.pdf"])
  ]

  /** The inner loop over one type's patterns: some pattern occurs in the
      lower-cased name, or (tested with each pattern) the name starts with the
      type itself. */
  predicate PatternHit(lowered: string, docType: string, patterns: seq<string>)
    decreases |patterns|
  {
    patterns != [] &&
    (Contains(lowered, Lower(patterns[0])) || StartsWith(lowered, docType) || PatternHit(lowered, docType, patterns[1..]))
  }

  /** What the inner loop tests, stated without the loop. */
  lemma {:induction false} PatternHitMeans(lowered: string, docType: string, patterns: seq<string>)
    ensures PatternHit(lowered, docType, patterns) <==>
      patterns != [] && (StartsWith(lowered, docType) || exists k :: 0 <= k < |patterns| && Contains(lowered, Lower(patterns[k])))
    decreases |patterns|
  {
    if patterns != [] {
      PatternHitMeans(lowered, docType, patterns[1..]);
      if exists k :: 0 <= k < |patterns| && Contains(lowered, Lower(patterns[k])) {
        var k :| 0 <= k < |patterns| && Contains(lowered, Lower(patterns[k]));
        if k > 0 {
          assert patterns[1..][k - 1] == patterns[k];
        }
      }
      if exists k :: 0 <= k < |patterns[1..]| && Contains(lowered, Lower(patterns[1..][k])) {
        var k :| 0 <= k < |patterns[1..]| && Contains(lowered, Lower(patterns[1..][k]));
        assert patterns[1..][k] == patterns[k + 1];
      }
    }
  }

  /** Entry `k` is the first of `table` the lower-cased name hits. */
  predicate FirstHitAt(lowered: string, table: seq<(string, seq<string>)>, k: int) {
    && 0 <= k < |table|
    && PatternHit(lowered, table[k].0, table[k].1)
    && forall j :: 0 <= j < k ==> !PatternHit(lowered, table[j].0, table[j].1)
  }

  /** The outer loop: the first type of `table` the lower-cased name hits. */
  function FirstHit(lowered: string, table: seq<(string, seq<string>)>): (r: Option<string>)
    ensures r.None? <==> forall k :: 0 <= k < |table| ==> !PatternHit(lowered, table[k].0, table[k].1)
    ensures r.Some? ==> exists k :: FirstHitAt(lowered, table, k) && table[k].0 == r.value
    decreases |table|
  {
    if table == [] then None
    else if PatternHit(lowered, table[0].0, table[0].1) then Some(table[0].0)
    else
      var r := FirstHit(lowered, table[1..]);
      assert forall k :: 0 < k < |table| ==> table[1..][k - 1] == table[k];
      assert r.Some? ==> exists k :: FirstHitAt(lowered, table, k) && table[k].0 == r.value by {
        if r.Some? {
          var k :| FirstHitAt(lowered, table[1..], k) && table[1..][k].0 == r.value;
          assert table[k + 1] == table[1..][k];
          forall j | 0 <= j < k + 1 ensures !PatternHit(lowered, table[j].0, table[j].1) {
            if j > 0 {
              assert table[j] == table[1..][j - 1];
            }
          }
          assert FirstHitAt(lowered, table, k + 1);
        }
      }
      r
  }

  /** The position of the last `.`, if any. */
  function LastDot(s: string): (r: Option<nat>)
    ensures r.None? <==> forall k :: 0 <= k < |s| ==> s[k] != '.'
    ensures r.Some? ==> r.value < |s| && s[r.value] == '.' && forall k :: r.value < k < |s| ==> s[k] != '.'
    decreases |s|
  {
    if s == [] then None
    else if s[|s| - 1] == '.' then Some(|s| - 1)
    else
      var r := LastDot(s[..|s| - 1]);
      assert forall k :: 0 <= k < |s| - 1 ==> s[..|s| - 1][k] == s[k];
      r
  }

  /** `filename.rsplit('.', 1)[0]` when the name has a dot, else the name. */
  function Stem(filename: string): (r: string)
    ensures |r| <= |filename| && r == filename[..|r|]
    ensures (forall k :: 0 <= k < |filename| ==> filename[k] != '.') ==> r == filename
    ensures (exists k :: 0 <= k < |filename| && filename[k] == '.') ==>
              |r| < |filename| && filename[|r|] == '.' && forall k :: |r| < k < |filename| ==> filename[k] != '.'
  {
    match LastDot(filename)
    case None => filename
    case Some(i) => filename[..i]
  }

  /** `_identify_document_type`. */
  function IdentifyDocumentType(filename: string): (r: string)
    ensures (exists k :: FirstHitAt(Lower(filename), DocumentTypes, k) && r == DocumentTypes[k].0) ||
            ((forall k :: 0 <= k < |DocumentTypes| ==> !PatternHit(Lower(filename), DocumentTypes[k].0, DocumentTypes[k].1)) &&
             r == Stem(filename))
  {
    match FirstHit(Lower(filename), DocumentTypes)
    case Some(t) => t
    case None => Stem(filename)
  }

  /** Matching ignores case: two names equal up to ASCII case that hit a type
      get the same type; only the fallback keeps the name's own case. */
  lemma IdentifyIgnoresCase(f: string, g: string)
    requires Lower(f) == Lower(g)
    ensures FirstHit(Lower(f), DocumentTypes).Some? ==> IdentifyDocumentType(f) == IdentifyDocumentType(g)
    ensures IdentifyDocumentType(f) == IdentifyDocumentType(g) || IdentifyDocumentType(f) == Stem(f)
  {
  }

  /** A name beginning (in any case) with `aadhaar` is an Aadhaar card: the
      first type of the table wins through the prefix test. */
  lemma AadhaarByPrefix(f: string)
    requires StartsWith(Lower(f), "aadhaar")
    ensures IdentifyDocumentType(f) == "aadhaar"
  {
    assert DocumentTypes[0] == ("aadhaar", ["aadhaar.pdf", "aadhaar.jpg", "aadhaar.png"]);
    assert PatternHit(Lower(f), DocumentTypes[0].0, DocumentTypes[0].1);
  }

  /** A file of the bucket, with the type `list_farmer_documents` assigned it. */
  datatype StoredDocument = StoredDocument(filename: string, documentType: string)

  /** An entry of `found`: `verified` and `status` are always `True` and `attached`. */
  datatype FoundDocument = FoundDocument(documentType: string, filename: string, signedUrl: Option<string>,
                                         verified: bool, status: string)

  /** An entry of `missing`. */
  datatype MissingDocument = MissingDocument(documentType: string, status: string, message: string)

  datatype FetchResult = FetchResult(found: seq<FoundDocument>, missing: seq<MissingDocument>, allFound: bool,
                                     totalRequired: nat, totalFound: nat)

  /** The type of some listed file is `t`. */
  predicate Listed(available: seq<StoredDocument>, t: string) {
    exists k :: 0 <= k < |available| && available[k].documentType == t
  }

  /** `docs_by_type`: for each type, the first file listed with it. */
  function DocsByType(available: seq<StoredDocument>): (m: map<string, StoredDocument>)
    ensures forall t :: t in m <==> Listed(available, t)
    ensures forall k :: 0 <= k < |available| && (forall j :: 0 <= j < k ==> available[j].documentType != available[k].documentType) ==>
      available[k].documentType in m && m[available[k].documentType] == available[k]
    decreases |available|
  {
    if available == [] then map[]
    else
      var n := |available| - 1;
      var front := DocsByType(available[..n]);
      assert forall j :: 0 <= j < n ==> available[..n][j] == available[j];
      var doc := available[n];
      if doc.documentType in front then front else front[doc.documentType := doc]
  }

  /** Every file `docs_by_type` holds was listed under its key. */
  lemma {:induction false} DocsByTypeListed(available: seq<StoredDocument>, t: string)
    requires t in DocsByType(available)
    ensures DocsByType(available)[t] in available && DocsByType(available)[t].documentType == t
    decreases |available|
  {
    var n := |available| - 1;
    if t in DocsByType(available[..n]) {
      DocsByTypeListed(available[..n], t);
    }
  }

  /** `required_doc in docs_by_type` and its negation, as function values. */
  function HasType(m: map<string, StoredDocument>): string -> bool {
    t => t in m
  }

  function LacksType(m: map<string, StoredDocument>): string -> bool {
    t => t !in m
  }

  function FoundEntry(m: map<string, StoredDocument>, signedUrl: string -> Option<string>, t: string): FoundDocument
    requires t in m
  {
    FoundDocument(t, m[t].filename, signedUrl(m[t].filename), true, "attached")
  }

  function FoundEntries(m: map<string, StoredDocument>, signedUrl: string -> Option<string>, ts: seq<string>): (r: seq<FoundDocument>)
    requires forall k :: 0 <= k < |ts| ==> ts[k] in m
    ensures |r| == |ts| && forall k :: 0 <= k < |ts| ==> r[k] == FoundEntry(m, signedUrl, ts[k])
  {
    seq(|ts|, k requires 0 <= k < |ts| => FoundEntry(m, signedUrl, ts[k]))
  }

  function MissingEntry(t: string): MissingDocument {
    MissingDocument(t, "missing", t + " not found in your documents")
  }

  function MissingEntries(ts: seq<string>): (r: seq<MissingDocument>)
    ensures |r| == |ts| && forall k :: 0 <= k < |ts| ==> r[k] == MissingEntry(ts[k])
  {
    seq(|ts|, k requires 0 <= k < |ts| => MissingEntry(ts[k]))
  }

  /** The types found, in required order: all of them are in `m`. */
  function FoundTypes(m: map<string, StoredDocument>, required: seq<string>): (r: seq<string>)
    ensures forall k :: 0 <= k < |r| ==> r[k] in m
  {
    var r := Filter(HasType(m), required);
    assert forall k :: 0 <= k < |r| ==> r[k] in r;
    r
  }

  /** What `fetch_required_documents` returns for the listed files `available`
      and the scheme's `required` types; `signedUrl` stands for
      `get_document_signed_url` on the farmer's bucket. */
  function Fetch(available: seq<StoredDocument>, required: seq<string>, signedUrl: string -> Option<string>): FetchResult {
    var m := DocsByType(available);
    var found := FoundEntries(m, signedUrl, FoundTypes(m, required));
    var missing := MissingEntries(Filter(LacksType(m), required));
    FetchResult(found, missing, |missing| == 0, |required|, |found|)
  }

  /** `found` and `missing` split the required types between them, and the
      counts and `all_found` agree with the two lists. */
  lemma FetchPartition(available: seq<StoredDocument>, required: seq<string>, signedUrl: string -> Option<string>)
    ensures var r := Fetch(available, required, signedUrl);
      && |r.found| + |r.missing| == |required| == r.totalRequired
      && r.totalFound == |r.found|
      && (r.allFound <==> r.missing == [])
      && (r.allFound <==> forall k :: 0 <= k < |required| ==> Listed(available, required[k]))
  {
    var m := DocsByType(available);
    FilterPartition(HasType(m), LacksType(m), required);
    FilterNone(LacksType(m), required);
  }

  /** Each missing entry names a required type no listed file has, with status
      `missing` and the message `<type> not found in your documents`. */
  lemma MissingEntriesMeaning(available: seq<StoredDocument>, required: seq<string>, signedUrl: string -> Option<string>, k: nat)
    requires k < |Fetch(available, required, signedUrl).missing|
    ensures var e := Fetch(available, required, signedUrl).missing[k];
      && e.status == "missing"
      && e.message == e.documentType + " not found in your documents"
      && e.documentType in required
      && !Listed(available, e.documentType)
  {
    var m := DocsByType(available);
    var ts := Filter(LacksType(m), required);
    assert ts[k] in ts;
  }

  /** Each found entry names a required, listed type and attaches the first
      file listed with that type, with that file's signed URL. */
  lemma FoundEntriesMeaning(available: seq<StoredDocument>, required: seq<string>, signedUrl: string -> Option<string>, k: nat)
    requires k < |Fetch(available, required, signedUrl).found|
    ensures var e := Fetch(available, required, signedUrl).found[k];
      && e.status == "attached" && e.verified
      && e.documentType in required
      && (exists i :: FirstListedAt(available, e.documentType, i) && available[i].filename == e.filename)
      && e.signedUrl == signedUrl(e.filename)
  {
    var m := DocsByType(available);
    var ts := FoundTypes(m, required);
    var t := ts[k];
    assert t in ts;
    FirstListed(available, t);
  }

  /** File `i` is the first listed with type `t`. */
  predicate FirstListedAt(available: seq<StoredDocument>, t: string, i: int) {
    && 0 <= i < |available|
    && available[i].documentType == t
    && forall j :: 0 <= j < i ==> available[j].documentType != t
  }

  /** A listed type has a first file, and `docs_by_type` holds that one. */
  lemma FirstListed(available: seq<StoredDocument>, t: string)
    requires Listed(available, t)
    ensures exists i :: FirstListedAt(available, t, i) && DocsByType(available)[t] == available[i]
  {
    var i :| 0 <= i < |available| && available[i].documentType == t;
    while exists j :: 0 <= j < i && available[j].documentType == t
      invariant 0 <= i < |available| && available[i].documentType == t
      decreases i
    {
      var j :| 0 <= j < i && available[j].documentType == t;
      i := j;
    }
  }

  /** One more required type extends exactly one of the two lists. */
  lemma FetchStep(m: map<string, StoredDocument>, signedUrl: string -> Option<string>, required: seq<string>, i: nat)
    requires i < |required|
    ensures required[i] in m ==>
      FoundEntries(m, signedUrl, FoundTypes(m, required[..i + 1]))
        == FoundEntries(m, signedUrl, FoundTypes(m, required[..i])) + [FoundEntry(m, signedUrl, required[i])] &&
      Filter(LacksType(m), required[..i + 1]) == Filter(LacksType(m), required[..i])
    ensures required[i] !in m ==>
      MissingEntries(Filter(LacksType(m), required[..i + 1])) == MissingEntries(Filter(LacksType(m), required[..i])) + [MissingEntry(required[i])] &&
      FoundTypes(m, required[..i + 1]) == FoundTypes(m, required[..i])
  {
    assert required[..i + 1][..i] == required[..i];
  }

  /** `fetch_required_documents`. */
  method FetchRequiredDocuments(available: seq<StoredDocument>, required: seq<string>, signedUrl: string -> Option<string>)
    returns (result: FetchResult)
    ensures result == Fetch(available, required, signedUrl)
  {
    var docsByType: map<string, StoredDocument> := map[];
    var i := 0;
    while i < |available|
      invariant 0 <= i <= |available|
      invariant docsByType == DocsByType(available[..i])
    {
      var doc := available[i];
      assert available[..i + 1][..i] == available[..i];
      if doc.documentType !in docsByType {
        docsByType := docsByType[doc.documentType := doc];
      }
      i := i + 1;
    }
    assert available[..i] == available;
    var found, missing := MatchRequired(docsByType, required, signedUrl);
    result := FetchResult(found, missing, |missing| == 0, |required|, |found|);
  }

  /** The matching loop of `fetch_required_documents`. */
  method MatchRequired(m: map<string, StoredDocument>, required: seq<string>, signedUrl: string -> Option<string>)
    returns (found: seq<FoundDocument>, missing: seq<MissingDocument>)
    ensures found == FoundEntries(m, signedUrl, FoundTypes(m, required))
    ensures missing == MissingEntries(Filter(LacksType(m), required))
  {
    found, missing := [], [];
    var i := 0;
    while i < |required|
      invariant 0 <= i <= |required|
      invariant found == FoundEntries(m, signedUrl, FoundTypes(m, required[..i]))
      invariant missing == MissingEntries(Filter(LacksType(m), required[..i]))
    {
      var requiredDoc := required[i];
      FetchStep(m, signedUrl, required, i);
      if requiredDoc in m {
        var doc := m[requiredDoc];
        found := found + [FoundDocument(requiredDoc, doc.filename, signedUrl(doc.filename), true, "attached")];
      } else {
        missing := missing + [MissingDocument(requiredDoc, "missing", requiredDoc + " not found in your documents")];
      }
      i := i + 1;
    }
    assert required[..i] == required;
  }
}
