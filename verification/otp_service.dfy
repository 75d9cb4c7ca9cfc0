/** The OTP service over an in-memory `otp_codes` table: issuing a code
    invalidates the phone's earlier codes, verifying consumes one code, and
    cleanup deletes the expired rows. */
module OtpService {
  import opened Wrappers
  import opened PyStr
  import opened Seqs
  import opened OtpModel

  /** The fixed demonstration code, whatever length is asked for. */
  function GenerateOtp(length: int): (code: string)
    ensures |code| == 6 && IsDigitString(code)
  {
    "123456"
  }

  /** The requested length has no effect. */
  lemma GenerateOtpIgnoresLength(a: int, b: int)
    ensures GenerateOtp(a) == GenerateOtp(b)
  {
  }

  /** The default `OTP_LENGTH` and `OTP_EXPIRY_MINUTES` settings. */
  const DefaultOtpLength := 6
  const DefaultExpiryMinutes := 5

  /** The bulk update `is_used=True` over the phone's unused codes. */
  function Invalidate(rs: seq<OtpCode>, phone: string): (r: seq<OtpCode>)
    ensures |r| == |rs|
    ensures forall j :: 0 <= j < |rs| ==> r[j] == if rs[j].phone == phone && !rs[j].isUsed then rs[j].(isUsed := true) else rs[j]
  {
    seq(|rs|, j requires 0 <= j < |rs| => if rs[j].phone == phone && !rs[j].isUsed then rs[j].(isUsed := true) else rs[j])
  }

  /** The table after `create_otp(phone)` at `now`: earlier codes of the phone
      invalidated, then one new unused code expiring `expiryMinutes` later. */
  function AfterCreate(rs: seq<OtpCode>, phone: string, now: int, otpLength: int, expiryMinutes: int): seq<OtpCode> {
    Invalidate(rs, phone) + [OtpCode(phone, GenerateOtp(otpLength), false, now + 60 * expiryMinutes, now)]
  }

  /** After `create_otp`, the new code is the phone's only unused one; every
      other row keeps its phone, code and times, and other phones' rows are
      untouched. */
  lemma CreateLeavesOneUnused(rs: seq<OtpCode>, phone: string, now: int, otpLength: int, expiryMinutes: int)
    ensures var after := AfterCreate(rs, phone, now, otpLength, expiryMinutes);
      && |after| == |rs| + 1
      && after[|rs|] == OtpCode(phone, "123456", false, now + 60 * expiryMinutes, now)
      && (forall j :: 0 <= j < |after| && after[j].phone == phone && !after[j].isUsed ==> j == |rs|)
      && (forall j :: 0 <= j < |rs| && rs[j].phone != phone ==> after[j] == rs[j])
      && (forall j :: 0 <= j < |rs| ==> after[j].(isUsed := rs[j].isUsed) == rs[j])
  {
  }

  /** The filter of `verify_otp`: same phone and code, unused, expiring
      strictly after `now`. */
  predicate Matches(c: OtpCode, phone: string, code: string, now: int) {
    c.phone == phone && c.code == code && !c.isUsed && c.expiresAt > now
  }

  /** `.latest('created_at')` over the matching rows: the position of a
      matching row with the greatest creation time (among equal times, the one
      stored last), or `None` when no row matches. */
  function LatestMatch(rs: seq<OtpCode>, phone: string, code: string, now: int): (r: Option<nat>)
    ensures r.None? <==> forall j :: 0 <= j < |rs| ==> !Matches(rs[j], phone, code, now)
    ensures r.Some? ==> r.value < |rs| && Matches(rs[r.value], phone, code, now)
    ensures r.Some? ==> forall j :: 0 <= j < |rs| && Matches(rs[j], phone, code, now) ==> rs[j].createdAt <= rs[r.value].createdAt
    decreases |rs|
  {
    if rs == [] then None
    else
      var n := |rs| - 1;
      var front := LatestMatch(rs[..n], phone, code, now);
      assert forall j :: 0 <= j < n ==> rs[..n][j] == rs[j];
      if Matches(rs[n], phone, code, now) && (front.None? || rs[front.value].createdAt <= rs[n].createdAt) then Some(n)
      else front
  }

  /** The table after `verify_otp`: the latest matching row marked used, or
      the table unchanged when nothing matches. */
  function AfterVerify(rs: seq<OtpCode>, phone: string, code: string, now: int): seq<OtpCode> {
    match LatestMatch(rs, phone, code, now)
    case None => rs
    case Some(i) => rs[i := rs[i].(isUsed := true)]
  }

  /** The number of rows `verify_otp` could accept. */
  function CountMatching(rs: seq<OtpCode>, phone: string, code: string, now: int): (n: nat)
    ensures n <= |rs|
    ensures n == 0 <==> forall j :: 0 <= j < |rs| ==> !Matches(rs[j], phone, code, now)
    decreases |rs|
  {
    if rs == [] then 0
    else
      var m := |rs| - 1;
      assert forall j :: 0 <= j < m ==> rs[..m][j] == rs[j];
      CountMatching(rs[..m], phone, code, now) + (if Matches(rs[m], phone, code, now) then 1 else 0)
  }

  /** Replacing one row changes the count by that row's contribution only. */
  lemma {:induction false} CountAfterUpdate(rs: seq<OtpCode>, i: nat, c: OtpCode, phone: string, code: string, now: int)
    requires i < |rs|
    ensures CountMatching(rs[i := c], phone, code, now)
      == CountMatching(rs, phone, code, now)
         - (if Matches(rs[i], phone, code, now) then 1 else 0)
         + (if Matches(c, phone, code, now) then 1 else 0)
    decreases |rs|
  {
    var m := |rs| - 1;
    var rs' := rs[i := c];
    assert rs'[..m] == if i < m then rs[..m][i := c] else rs[..m];
    if i < m {
      CountAfterUpdate(rs[..m], i, c, phone, code, now);
    }
  }

  /** `verify_otp` consumes exactly one acceptable row when it succeeds and
      changes nothing when it fails; so `n` acceptable rows allow exactly `n`
      successful verifications. */
  lemma VerifyConsumesOne(rs: seq<OtpCode>, phone: string, code: string, now: int)
    ensures LatestMatch(rs, phone, code, now).Some? <==> CountMatching(rs, phone, code, now) > 0
    ensures LatestMatch(rs, phone, code, now).None? ==> AfterVerify(rs, phone, code, now) == rs
    ensures LatestMatch(rs, phone, code, now).Some? ==>
      CountMatching(AfterVerify(rs, phone, code, now), phone, code, now) == CountMatching(rs, phone, code, now) - 1
  {
    match LatestMatch(rs, phone, code, now)
    case None =>
    case Some(i) =>
      CountAfterUpdate(rs, i, rs[i].(isUsed := true), phone, code, now);
  }

  /** Right after `create_otp`, the issued code is the phone's one acceptable
      row until its expiry, and it verifies exactly once. */
  lemma IssuedCodeIsSingleUse(rs: seq<OtpCode>, phone: string, now: int, otpLength: int, expiryMinutes: int, t: int)
    requires now <= t < now + 60 * expiryMinutes
    ensures var after := AfterCreate(rs, phone, now, otpLength, expiryMinutes);
      && CountMatching(after, phone, "123456", t) == 1
      && LatestMatch(after, phone, "123456", t) == Some(|rs|)
      && LatestMatch(AfterVerify(after, phone, "123456", t), phone, "123456", t).None?
  {
    var after := AfterCreate(rs, phone, now, otpLength, expiryMinutes);
    CreateLeavesOneUnused(rs, phone, now, otpLength, expiryMinutes);
    OnlyOneMatches(after, |rs|, phone, "123456", t);
    VerifyConsumesOne(after, phone, "123456", t);
  }

  /** When only row `k` matches, it is the latest match and the count is one. */
  lemma {:induction false} OnlyOneMatches(rs: seq<OtpCode>, k: nat, phone: string, code: string, now: int)
    requires k < |rs| && Matches(rs[k], phone, code, now)
    requires forall j :: 0 <= j < |rs| && Matches(rs[j], phone, code, now) ==> j == k
    ensures LatestMatch(rs, phone, code, now) == Some(k)
    ensures CountMatching(rs, phone, code, now) == 1
    decreases |rs|
  {
    var m := |rs| - 1;
    assert forall j :: 0 <= j < m ==> rs[..m][j] == rs[j];
    if k < m {
      OnlyOneMatches(rs[..m], k, phone, code, now);
    } else {
      assert LatestMatch(rs[..m], phone, code, now).None?;
    }
  }

  /** The rows cleanup keeps: those not expiring strictly before `now`. */
  function Kept(now: int): OtpCode -> bool {
    (c: OtpCode) => !(c.expiresAt < now)
  }

  /** The rows cleanup deletes. */
  function ExpiredBefore(now: int): OtpCode -> bool {
    (c: OtpCode) => c.expiresAt < now
  }

  /** `cleanup_expired_otps`: the table keeps the other rows in order, and the
      deleted count is the number of rows expiring strictly before `now`. */
  lemma CleanupDeletesExactlyExpired(rs: seq<OtpCode>, now: int, c: OtpCode)
    ensures c in Filter(Kept(now), rs) <==> c in rs && c.expiresAt >= now
    ensures |rs| - |Filter(Kept(now), rs)| == |Filter(ExpiredBefore(now), rs)|
  {
    if c in rs && c.expiresAt >= now {
      FilterKeeps(Kept(now), rs, c);
    }
    FilterPartition(Kept(now), ExpiredBefore(now), rs);
  }

  /** At its expiry instant an unused code is `is_valid`, yet `verify_otp`
      refuses it and cleanup keeps it: the model property and the query
      disagree at that one instant. */
  lemma ExpiryInstant(rs: seq<OtpCode>, c: OtpCode, code: string)
    requires !c.isUsed && c in rs
    ensures IsValid(c, c.expiresAt)
    ensures !Matches(c, c.phone, code, c.expiresAt)
    ensures c in Filter(Kept(c.expiresAt), rs)
  {
    FilterKeeps(Kept(c.expiresAt), rs, c);
  }

  /** The `otp_codes` table as the service sees it. */
  class OtpTable {
    var records: seq<OtpCode>

    constructor()
      ensures records == []
    {
      records := [];
    }

    /** `create_otp(phone)` at `now`, with the `OTP_LENGTH` and
        `OTP_EXPIRY_MINUTES` settings. */
    method CreateOtp(phone: string, now: int, otpLength: int, expiryMinutes: int) returns (code: string)
      modifies this
      ensures code == "123456"
      ensures records == AfterCreate(old(records), phone, now, otpLength, expiryMinutes)
    {
      records := Invalidate(records, phone);
      code := GenerateOtp(otpLength);
      records := records + [OtpCode(phone, code, false, now + 60 * expiryMinutes, now)];
    }

    /** `verify_otp(phone, code)` at `now`. */
    method VerifyOtp(phone: string, code: string, now: int) returns (ok: bool)
      modifies this
      ensures ok <==> CountMatching(old(records), phone, code, now) > 0
      ensures records == AfterVerify(old(records), phone, code, now)
    {
      VerifyConsumesOne(records, phone, code, now);
      var latest := LatestMatch(records, phone, code, now);
      match latest {
        case None =>
          ok := false;
        case Some(i) =>
          records := records[i := records[i].(isUsed := true)];
          ok := true;
      }
    }

    /** `cleanup_expired_otps()` at `now`: the number of rows deleted. */
    method CleanupExpiredOtps(now: int) returns (deleted: nat)
      modifies this
      ensures records == Filter(Kept(now), old(records))
      ensures deleted == |Filter(ExpiredBefore(now), old(records))|
    {
      FilterPartition(Kept(now), ExpiredBefore(now), records);
      var kept := Filter(Kept(now), records);
      deleted := |records| - |kept|;
      records := kept;
    }
  }
}
