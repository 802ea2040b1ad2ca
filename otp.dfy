/** The one-time-code service of core/services/OTPService.py over the OTP table
    (core/models/OTP.py). Time is an integer count of seconds passed in by the
    caller; the random digit source is a parameter. */
module Otp {
  import opened Wrappers
  import Store

  const OTP_LENGTH := 6
  const OTP_EXPIRY_MINUTES := 10
  const SECONDS_PER_MINUTE := 60

  /** One row of the OTP table. */
  datatype OtpRecord = OtpRecord(phone: string, code: string, createdAt: int, expiresAt: int, user: Option<Store.Id>)

  predicate IsDigit(c: char) {
    '0' <= c <= '9'
  }

  /** `count` characters drawn from `string.digits`; `rand(i)` is the i-th draw. */
  function Digits(count: nat, rand: nat -> nat): (code: string)
    ensures |code| == count
    ensures forall i | 0 <= i < |code| :: IsDigit(code[i])
  {
    if count == 0 then []
    else Digits(count - 1, rand) + [(('0' as int) + rand(count - 1) % 10) as char]
  }

  /** `generate_otp(length)`: `length or OTP_LENGTH` digits, so `None` and 0 give
      six; `random.choices` with a negative count gives the empty string. */
  function GenerateOtp(length: Option<int>, rand: nat -> nat): (code: string)
    ensures length.None? || length == Some(0) ==> |code| == OTP_LENGTH
    ensures length.Some? && length.value > 0 ==> |code| == length.value
    ensures length.Some? && length.value < 0 ==> code == []
    ensures forall i | 0 <= i < |code| :: IsDigit(code[i])
  {
    var k := if length.None? || length.value == 0 then OTP_LENGTH else length.value;
    Digits(if k < 0 then 0 else k, rand)
  }

  /** A record that matches `phone` and `code` and has not expired at `now` (strict `expires_at > now`). */
  predicate Live(r: OtpRecord, phone: string, code: string, now: int) {
    r.phone == phone && r.code == code && r.expiresAt > now
  }

  /** `OTP.objects.filter(phone=phone, code=code).filter(expires_at__gt=now)` */
  function Matching(records: seq<OtpRecord>, phone: string, code: string, now: int): (m: seq<OtpRecord>)
    ensures forall r | r in m :: r in records && Live(r, phone, code, now)
    ensures forall r | r in records && Live(r, phone, code, now) :: r in m
  {
    if records == [] then []
    else
      var rest := Matching(records[1..], phone, code, now);
      if Live(records[0], phone, code, now) then [records[0]] + rest else rest
  }

  /** `.order_by("-created_at").first()`: a record created last, or `None`. */
  function Newest(records: seq<OtpRecord>): (r: Option<OtpRecord>)
    ensures r.None? <==> records == []
    ensures r.Some? ==> r.value in records && forall x | x in records :: x.createdAt <= r.value.createdAt
  {
    if records == [] then None
    else
      var later := Newest(records[1..]);
      if later.None? || later.value.createdAt <= records[0].createdAt then Some(records[0]) else later
  }

  /** `verify_otp(phone, code)` evaluated at time `now` over the table `records`. */
  function Verify(records: seq<OtpRecord>, phone: string, code: string, now: int): bool {
    Newest(Matching(records, phone, code, now)).Some?
  }

  /** The ordering by creation time does not matter to the answer: a code is
      accepted exactly when some stored record for the phone carries it and has
      not expired, not only when the newest one does. */
  lemma {:induction false} VerifyIffLive(records: seq<OtpRecord>, phone: string, code: string, now: int)
    ensures Verify(records, phone, code, now) <==> exists i | 0 <= i < |records| :: Live(records[i], phone, code, now)
  {
    var m := Matching(records, phone, code, now);
    if Verify(records, phone, code, now) {
      assert m[0] in records;
    } else {
      forall i | 0 <= i < |records|
        ensures !Live(records[i], phone, code, now)
      {
        assert records[i] in records;
      }
    }
  }

  /** A code just issued verifies at any time before it expires. */
  lemma IssuedCodeVerifies(records: seq<OtpRecord>, issued: OtpRecord, now: int)
    requires issued.expiresAt > now
    ensures Verify(records + [issued], issued.phone, issued.code, now)
  {
    VerifyIffLive(records + [issued], issued.phone, issued.code, now);
    assert Live((records + [issued])[|records|], issued.phone, issued.code, now);
  }

  /** Adding a record never makes an accepted code fail: an older unexpired code
      still verifies after a newer one was issued for the same phone. */
  lemma OlderCodeStillVerifies(records: seq<OtpRecord>, issued: OtpRecord, phone: string, code: string, now: int)
    requires Verify(records, phone, code, now)
    ensures Verify(records + [issued], phone, code, now)
  {
    VerifyIffLive(records, phone, code, now);
    VerifyIffLive(records + [issued], phone, code, now);
    var i :| 0 <= i < |records| && Live(records[i], phone, code, now);
    assert (records + [issued])[i] == records[i];
  }

  /** A record that has expired at `now`, or that belongs to another phone or
      carries another code, does not change any answer. */
  lemma {:induction false} IrrelevantRecord(records: seq<OtpRecord>, extra: OtpRecord, phone: string, code: string, now: int)
    requires now >= extra.expiresAt || extra.phone != phone || extra.code != code
    ensures Verify(records + [extra], phone, code, now) == Verify(records, phone, code, now)
  {
    VerifyIffLive(records, phone, code, now);
    VerifyIffLive(records + [extra], phone, code, now);
    if Verify(records + [extra], phone, code, now) {
      var i :| 0 <= i < |records| + 1 && Live((records + [extra])[i], phone, code, now);
      assert i < |records| && (records + [extra])[i] == records[i];
    }
  }

  /** A phone with no record carrying `code`, in particular one with no record at all, never verifies. */
  lemma NeverIssuedNeverVerifies(records: seq<OtpRecord>, phone: string, code: string, now: int)
    requires forall i | 0 <= i < |records| :: records[i].phone == phone ==> records[i].code != code
    ensures !Verify(records, phone, code, now)
    ensures !Verify([], phone, code, now)
  {
    VerifyIffLive(records, phone, code, now);
  }

  /** The OTP table. */
  class OtpTable {
    var records: seq<OtpRecord>

    constructor ()
      ensures records == []
    {
      records := [];
    }

    /** `create_otp(phone, user)` at time `now`: a fresh six-digit code is stored
        with expiry `now` plus ten minutes, after every existing record, and
        verifies straight away. */
    method CreateOtp(phone: string, user: Option<Store.Id>, now: int, rand: nat -> nat) returns (code: string)
      modifies this
      ensures |code| == OTP_LENGTH && forall i | 0 <= i < |code| :: IsDigit(code[i])
      ensures records == old(records)
        + [OtpRecord(phone, code, now, now + OTP_EXPIRY_MINUTES * SECONDS_PER_MINUTE, user)]
      ensures VerifyOtp(phone, code, now)
    {
      code := GenerateOtp(None, rand);
      var expiresAt := now + OTP_EXPIRY_MINUTES * SECONDS_PER_MINUTE;
      var issued := OtpRecord(phone, code, now, expiresAt, user);
      IssuedCodeVerifies(records, issued, now);
      records := records + [issued];
    }

    /** `verify_otp(phone, code)` at time `now`. Reading only, it leaves the
        table as it was: asking again at the same time gives the same answer. */
    function VerifyOtp(phone: string, code: string, now: int): (ok: bool)
      reads this
      ensures ok <==> exists i | 0 <= i < |records| :: Live(records[i], phone, code, now)
    {
      VerifyIffLive(records, phone, code, now);
      Verify(records, phone, code, now)
    }
  }

  /** A code issued at `t0` is accepted at every `t` before `t0` plus ten minutes;
      from then on it is accepted only if another live record carries it. */
  lemma ValidityWindow(records: seq<OtpRecord>, phone: string, code: string, user: Option<Store.Id>, t0: int, t: int)
    ensures var issued := OtpRecord(phone, code, t0, t0 + OTP_EXPIRY_MINUTES * SECONDS_PER_MINUTE, user);
      && (t < t0 + OTP_EXPIRY_MINUTES * SECONDS_PER_MINUTE ==> Verify(records + [issued], phone, code, t))
      && (t >= t0 + OTP_EXPIRY_MINUTES * SECONDS_PER_MINUTE ==>
            Verify(records + [issued], phone, code, t) == Verify(records, phone, code, t))
  {
    var issued := OtpRecord(phone, code, t0, t0 + OTP_EXPIRY_MINUTES * SECONDS_PER_MINUTE, user);
    if t < issued.expiresAt {
      IssuedCodeVerifies(records, issued, t);
    } else {
      IrrelevantRecord(records, issued, phone, code, t);
    }
  }
}
