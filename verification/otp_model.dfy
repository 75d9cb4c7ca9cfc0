/** One stored one-time password and its two properties. Times are whole
    seconds on one clock; `now` is always a parameter. */
module OtpModel {

  /** A row of the `otp_codes` table. */
  datatype OtpCode = OtpCode(phone: string, code: string, isUsed: bool, expiresAt: int, createdAt: int)

  /** `is_expired`: strictly past the expiry instant. */
  predicate IsExpired(c: OtpCode, now: int) {
    now > c.expiresAt
  }

  /** `is_valid`: neither used nor expired. */
  predicate IsValid(c: OtpCode, now: int) {
    !c.isUsed && !IsExpired(c, now)
  }

  /** Expiry is the instant itself inclusive: a code is still unexpired at
      its expiry instant, and once expired it stays expired. */
  lemma ExpiryMonotone(c: OtpCode, now: int, later: int)
    requires now <= later
    ensures !IsExpired(c, c.expiresAt) && IsExpired(c, c.expiresAt + 1)
    ensures IsExpired(c, now) ==> IsExpired(c, later)
  {
  }

  /** A used code is never valid; an unused one is valid exactly up to and
      including its expiry instant. */
  lemma ValidMeans(c: OtpCode, now: int)
    ensures c.isUsed ==> !IsValid(c, now)
    ensures !c.isUsed ==> (IsValid(c, now) <==> now <= c.expiresAt)
  {
  }

  /** `__str__`. */
  function Describe(c: OtpCode): (r: string)
    ensures |r| == 8 + |c.phone|
    ensures r[..8] == "OTP for " && r[8..] == c.phone
  {
    "OTP for " + c.phone
  }

  /** The rendering tells codes of different phones apart, and says nothing
      about the code itself. */
  lemma DescribeNamesPhone(c: OtpCode, d: OtpCode)
    ensures Describe(c) == Describe(d) <==> c.phone == d.phone
  {
    if Describe(c) == Describe(d) {
      assert c.phone == Describe(c)[8..];
    }
  }
}
