/** The field validators of the sign-in serializers: the Indian phone-number
    normaliser shared by the three serializers, the login check on top of
    it, and the OTP and document checks. */
module AuthSerializers {
  import opened Wrappers
  import opened PyStr

  /** The characters the pattern `[\s\-\(\)\+]` matches. */
  predicate IsSeparator(c: char) {
    IsSpace(c) || c == '-' || c == '(' || c == ')' || c == '+'
  }

  /** The substitution of every separator by nothing. */
  function RemoveSeparators(s: string): (r: string)
    ensures |r| <= |s|
    ensures forall i :: 0 <= i < |r| ==> !IsSeparator(r[i])
  {
    if s == [] then []
    else (if IsSeparator(s[0]) then [] else [s[0]]) + RemoveSeparators(s[1..])
  }

  /** Removing separators from a concatenation removes them from each part. */
  lemma {:induction false} RemoveSeparatorsAppend(a: string, b: string)
    ensures RemoveSeparators(a + b) == RemoveSeparators(a) + RemoveSeparators(b)
    decreases |a|
  {
    if a == [] {
      assert a + b == b;
    } else {
      assert (a + b)[0] == a[0];
      assert (a + b)[1..] == a[1..] + b;
      RemoveSeparatorsAppend(a[1..], b);
    }
  }

  /** A text without separators is left as it is; in particular the
      substitution is idempotent. */
  lemma {:induction false} RemoveSeparatorsKeepsClean(s: string)
    requires forall i :: 0 <= i < |s| ==> !IsSeparator(s[i])
    ensures RemoveSeparators(s) == s
    decreases |s|
  {
    if s != [] {
      RemoveSeparatorsKeepsClean(s[1..]);
    }
  }

  /** Every other character survives, as often as it occurs. */
  lemma {:induction false} RemoveSeparatorsCounts(s: string, c: char)
    ensures multiset(RemoveSeparators(s))[c] == if IsSeparator(c) then 0 else multiset(s)[c]
    decreases |s|
  {
    if s != [] {
      RemoveSeparatorsCounts(s[1..], c);
      assert s == [s[0]] + s[1..];
    } else {
      assert multiset(s) == multiset{};
    }
  }

  /** The `validate_phone` normaliser: remove separators, drop a `91` prefix
      from a 12-character result, otherwise keep the last 10 characters of a
      longer one. It never rejects. */
  function StandardizePhone(value: string): (phone: string)
    ensures |phone| <= 10
    ensures forall i :: 0 <= i < |phone| ==> !IsSeparator(phone[i])
  {
    var phone := RemoveSeparators(value);
    if StartsWith(phone, "91") && |phone| == 12 then phone[2..]
    else if |phone| > 10 then phone[|phone| - 10..]
    else phone
  }

  /** Whatever the branch, the result is the last ten characters of what the
      substitution leaves (or all of it when that is shorter): the `91` branch
      gives the same answer as the general one. */
  lemma StandardizeKeepsLastTen(value: string)
    ensures var p := RemoveSeparators(value);
      StandardizePhone(value) == if |p| <= 10 then p else p[|p| - 10..]
  {
  }

  /** A ten-digit number is already standard. */
  lemma StandardizeTenDigits(p: string)
    requires |p| == 10 && IsDigitString(p)
    ensures StandardizePhone(p) == p
  {
    forall i | 0 <= i < |p| ensures !IsSeparator(p[i]) {
      assert IsDigit(p[i]);
    }
    RemoveSeparatorsKeepsClean(p);
  }

  /** Standardising twice changes nothing. */
  lemma StandardizeIdempotent(value: string)
    ensures StandardizePhone(StandardizePhone(value)) == StandardizePhone(value)
  {
    var p := StandardizePhone(value);
    RemoveSeparatorsKeepsClean(p);
  }

  const InvalidPhone := "Please enter a valid 10-digit phone number."

  /** `PhoneLoginSerializer.validate_phone`: the standard form, which must be
      exactly ten digits. */
  function ValidateLoginPhone(value: string): (r: Result<string>)
    ensures r.Ok? <==> |StandardizePhone(value)| == 10 && IsDigitString(StandardizePhone(value))
    ensures r.Ok? ==> r.value == StandardizePhone(value)
    ensures r.Err? ==> r.message == InvalidPhone
  {
    var phone := StandardizePhone(value);
    if !IsDigitString(phone) || |phone| != 10 then Err(InvalidPhone) else Ok(phone)
  }

  /** The login check accepts a ten-digit number unchanged, and accepts its
      own output unchanged. */
  lemma LoginPhoneIdempotent(value: string)
    ensures var r := ValidateLoginPhone(value);
      r.Ok? ==> ValidateLoginPhone(r.value) == r
    ensures |value| == 10 && IsDigitString(value) ==> ValidateLoginPhone(value) == Ok(value)
  {
    var r := ValidateLoginPhone(value);
    if r.Ok? {
      StandardizeTenDigits(r.value);
    }
    if |value| == 10 && IsDigitString(value) {
      StandardizeTenDigits(value);
    }
  }

  /** The login check agrees with the other two normalisers wherever it accepts. */
  lemma LoginAgreesWithStandardize(value: string)
    ensures ValidateLoginPhone(value).Ok? ==> ValidateLoginPhone(value).value == StandardizePhone(value)
    ensures |StandardizePhone(value)| < 10 ==> ValidateLoginPhone(value) == Err(InvalidPhone)
  {
  }

  /** Separator-only text disappears. */
  lemma {:induction false} RemoveSeparatorsDrops(s: string)
    requires forall i :: 0 <= i < |s| ==> IsSeparator(s[i])
    ensures RemoveSeparators(s) == []
    decreases |s|
  {
    if s != [] {
      RemoveSeparatorsDrops(s[1..]);
    }
  }

  /** Digits survive the substitution. */
  lemma DigitsClean(d: string)
    requires AllDigits(d)
    ensures RemoveSeparators(d) == d
  {
    forall i | 0 <= i < |d| ensures !IsSeparator(d[i]) {
      assert IsDigit(d[i]);
    }
    RemoveSeparatorsKeepsClean(d);
  }

  lemma CountryCodeOpening()
    ensures RemoveSeparators("+91 (") == "91"
  {
    assert "+91 (" == "+" + "91" + " (";
    RemoveSeparatorsAppend("+", "91" + " (");
    RemoveSeparatorsAppend("91", " (");
    RemoveSeparatorsDrops("+");
    RemoveSeparatorsDrops(" (");
    DigitsClean("91");
  }

  /** What the substitution leaves of `+91 (aaaaa)-bbbbb`. */
  lemma RemoveSeparatorsWritten(a: string, b: string)
    requires AllDigits(a) && AllDigits(b)
    ensures RemoveSeparators("+91 (" + a + ")-" + b) == "91" + a + b
  {
    DigitsClean(a);
    DigitsClean(b);
    CountryCodeOpening();
    RemoveSeparatorsDrops(")-");
    RemoveSeparatorsAppend("+91 (" + a + ")-", b);
    RemoveSeparatorsAppend("+91 (" + a, ")-");
    RemoveSeparatorsAppend("+91 (", a);
  }

  /** A ten-digit number written `+91 (ddddd)-ddddd`, or with a leading trunk
      `0`, logs in as the bare ten digits. */
  lemma LoginPhoneWritten(d: string)
    requires |d| == 10 && IsDigitString(d)
    ensures ValidateLoginPhone("+91 (" + d[..5] + ")-" + d[5..]) == Ok(d)
    ensures ValidateLoginPhone("0" + d) == Ok(d)
  {
    var a, b := d[..5], d[5..];
    assert AllDigits(a) && AllDigits(b);
    RemoveSeparatorsWritten(a, b);
    assert "91" + a + b == "91" + d;
    assert ("91" + d)[..2] == "91";
    assert ("91" + d)[2..] == d;
    assert AllDigits("0" + d);
    DigitsClean("0" + d);
    assert ("0" + d)[1..] == d;
  }

  const InvalidOtp := "OTP must contain only digits."

  /** `validate_otp`: the code must be all digits (and so not empty). */
  function ValidateOtp(value: string): (r: Result<string>)
    ensures r.Ok? <==> IsDigitString(value)
    ensures r.Ok? ==> r.value == value
    ensures r.Err? ==> r.message == InvalidOtp
  {
    if !IsDigitString(value) then Err(InvalidOtp) else Ok(value)
  }

  /** A code holding any non-digit character is rejected. */
  lemma OtpRejectsNonDigit(value: string, i: nat)
    requires i < |value| && !IsDigit(value[i])
    ensures ValidateOtp(value) == Err(InvalidOtp)
  {
  }

  const InvalidDocument := "Document must have 'document_type' and 'document_url'"

  /** `validate_document`: a document entry must name its type and its URL. */
  function ValidateDocument<V>(value: map<string, V>): (r: Result<map<string, V>>)
    ensures r.Ok? <==> "document_type" in value && "document_url" in value
    ensures r.Ok? ==> r.value == value
    ensures r.Err? ==> r.message == InvalidDocument
  {
    if "document_type" !in value || "document_url" !in value then Err(InvalidDocument) else Ok(value)
  }
}
