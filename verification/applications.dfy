/** A farmer's application to a scheme and its two review decisions. */
module Applications {
  import opened Wrappers

  /** The application statuses. */
  datatype Status = Draft | Pending | UnderReview | Approved | Rejected | Incomplete

  /** `if verified_by:`: a reviewer name counts only when given and not
      empty. */
  predicate Given(verifiedBy: Option<string>) {
    verifiedBy.Some? && verifiedBy.value != ""
  }

  /** The reviewer recorded after a decision: the one given, if any, else the
      earlier one. */
  function Reviewer(earlier: Option<string>, verifiedBy: Option<string>): (r: Option<string>)
    ensures Given(verifiedBy) ==> r == verifiedBy
    ensures !Given(verifiedBy) ==> r == earlier
  {
    if Given(verifiedBy) then verifiedBy else earlier
  }

  /** Deciding twice with no reviewer given keeps the first reviewer; a
      reviewer given later replaces it. */
  lemma ReviewerSticks(first: Option<string>, second: Option<string>, earlier: Option<string>)
    ensures !Given(second) ==> Reviewer(Reviewer(earlier, first), second) == Reviewer(earlier, first)
    ensures Given(second) ==> Reviewer(Reviewer(earlier, first), second) == second
  {
  }

  /** A row of the `applications` table. Times are whole seconds on one
      clock; `save()` stamps `updatedAt`. */
  class Application {
    var farmer: string
    var scheme: string
    var autoFilledData: map<string, string>
    var status: Status
    var documentsSubmitted: seq<string>
    var missingDocuments: seq<string>
    var adminNotes: string
    var rejectionReason: string
    var verifiedBy: Option<string>
    var verifiedAt: Option<int>
    var createdAt: int
    var updatedAt: int

    /** A new application, created at `now`: status `PENDING`, no notes, no
        rejection reason, not verified. */
    constructor(farmer: string, scheme: string, autoFilledData: map<string, string>,
                documentsSubmitted: seq<string>, missingDocuments: seq<string>, now: int)
      ensures this.farmer == farmer && this.scheme == scheme && this.autoFilledData == autoFilledData
      ensures this.documentsSubmitted == documentsSubmitted && this.missingDocuments == missingDocuments
      ensures status == Pending
      ensures adminNotes == "" && rejectionReason == ""
      ensures verifiedBy == None && verifiedAt == None
      ensures createdAt == now && updatedAt == now
    {
      this.farmer := farmer;
      this.scheme := scheme;
      this.autoFilledData := autoFilledData;
      this.status := Pending;
      this.documentsSubmitted := documentsSubmitted;
      this.missingDocuments := missingDocuments;
      this.adminNotes := "";
      this.rejectionReason := "";
      this.verifiedBy := None;
      this.verifiedAt := None;
      this.createdAt := now;
      this.updatedAt := now;
    }

    /** `approve(verified_by)` at `now`. */
    method Approve(verifiedBy: Option<string>, now: int)
      modifies this
      ensures status == Approved && verifiedAt == Some(now) && updatedAt == now
      ensures this.verifiedBy == Reviewer(old(this.verifiedBy), verifiedBy)
      ensures rejectionReason == old(rejectionReason) && adminNotes == old(adminNotes)
      ensures farmer == old(farmer) && scheme == old(scheme) && autoFilledData == old(autoFilledData)
      ensures documentsSubmitted == old(documentsSubmitted) && missingDocuments == old(missingDocuments)
      ensures createdAt == old(createdAt)
    {
      status := Approved;
      verifiedAt := Some(now);
      if Given(verifiedBy) {
        this.verifiedBy := verifiedBy;
      }
      updatedAt := now;
    }

    /** `reject(reason, verified_by)` at `now`. */
    method Reject(reason: string, verifiedBy: Option<string>, now: int)
      modifies this
      ensures status == Rejected && rejectionReason == reason && verifiedAt == Some(now) && updatedAt == now
      ensures this.verifiedBy == Reviewer(old(this.verifiedBy), verifiedBy)
      ensures adminNotes == old(adminNotes)
      ensures farmer == old(farmer) && scheme == old(scheme) && autoFilledData == old(autoFilledData)
      ensures documentsSubmitted == old(documentsSubmitted) && missingDocuments == old(missingDocuments)
      ensures createdAt == old(createdAt)
    {
      status := Rejected;
      rejectionReason := reason;
      verifiedAt := Some(now);
      if Given(verifiedBy) {
        this.verifiedBy := verifiedBy;
      }
      updatedAt := now;
    }
  }
}
