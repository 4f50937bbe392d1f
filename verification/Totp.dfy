/** Time-based one-time codes: dynamic truncation, the printed form and the window of verification. */
module Totp {
  import opened Wrappers
  import opened AccessToken

  const STEP := 30
  const MODULUS := 1_000_000

  type Bytes = seq<bv8>

  /** A SHA-1 digest. */
  type Digest = d: Bytes | |d| == 20 witness seq(20, i => 0)

  /** HMAC over the eight bytes of a counter. */
  type Mac = (Bytes, nat) -> Digest

  datatype Error = WeakSecret | InvalidTime

  // ------------------------------------------------------------------- codes

  lemma LowNibble(b: bv8)
    ensures (b & 0x0f) as int < 16
  {
    assert b & 0x0f < 16;
  }

  /** Where truncation starts: four bytes from here stay inside the digest (section 5.3 of RFC 4226). */
  function Offset(digest: Digest): (offset: nat)
    ensures offset + 3 < |digest|
  {
    LowNibble(digest[19]);
    (digest[19] & 0x0f) as int
  }

  function Binary(digest: Digest): bv32 {
    var offset := Offset(digest);
    ((digest[offset] as bv32 & 0x7f) << 24)
    | (digest[offset + 1] as bv32 << 16)
    | (digest[offset + 2] as bv32 << 8)
    | digest[offset + 3] as bv32
  }

  /** The sign bit is masked off, so signed and unsigned readings agree. */
  lemma BinaryIsPositive(digest: Digest)
    ensures Binary(digest) < 0x8000_0000
  {}

  /** The bytes are read big-endian: the example of section 5.4 of RFC 4226. */
  lemma TruncationExample(digest: Digest)
    requires digest ==
      [0x1f, 0x86, 0x98, 0x69, 0x0e, 0x02, 0xca, 0x16, 0x61, 0x85,
       0x50, 0xef, 0x7f, 0x19, 0xda, 0x8e, 0x94, 0x5b, 0x55, 0x5a]
    ensures Offset(digest) == 10 && Binary(digest) == 0x50ef7f19 && Binary(digest) as nat % MODULUS == 872_921
  {
    assert digest[19] & 0x0f == 10;
  }

  function CodeAt(mac: Mac, secret: Bytes, t: I64): (r: Result<nat, Error>)
    ensures r.Ok? <==> |secret| >= 20 && t >= 0
    ensures r.Ok? ==> r.value < MODULUS
  {
    if |secret| < 20 then Err(WeakSecret)
    else if t < 0 then Err(InvalidTime)
    else Ok(Binary(mac(secret, t / STEP)) as nat % MODULUS)
  }

  // ------------------------------------------------------------ printed form

  predicate IsDigit(c: char) {
    '0' <= c <= '9'
  }

  predicate WellFormed(code: string) {
    |code| == 6 && forall i :: 0 <= i < |code| ==> IsDigit(code[i])
  }

  function Digit(n: nat): char
    requires n < 10
  {
    '0' + n as char
  }

  /** Decimal digits without padding. */
  function Decimal(n: nat): (s: string)
    ensures s != [] && forall i :: 0 <= i < |s| ==> IsDigit(s[i])
  {
    if n < 10 then [Digit(n)] else Decimal(n / 10) + [Digit(n % 10)]
  }

  function PadLeft(s: string, width: nat): (r: string)
    ensures |r| == if |s| < width then width else |s|
    decreases width - |s|
  {
    if |s| < width then PadLeft(['0'] + s, width) else s
  }

  function Print(code: nat): string {
    PadLeft(Decimal(code), 6)
  }

  function Parse(s: string): nat
    requires forall i :: 0 <= i < |s| ==> IsDigit(s[i])
  {
    if s == [] then 0
    else
      assert IsDigit(s[|s| - 1]);
      10 * Parse(s[..|s| - 1]) + (s[|s| - 1] as int - '0' as int)
  }

  lemma {:induction false} DecimalLength(n: nat, width: nat)
    requires width > 0 && n < Pow10(width)
    ensures |Decimal(n)| <= width
  {
    if n >= 10 { DecimalLength(n / 10, width - 1); }
  }

  function Pow10(n: nat): nat {
    if n == 0 then 1 else 10 * Pow10(n - 1)
  }

  lemma {:induction false} ParseDecimal(n: nat)
    ensures Parse(Decimal(n)) == n
  {
    if n >= 10 {
      ParseDecimal(n / 10);
      assert (Decimal(n / 10) + [Digit(n % 10)])[..|Decimal(n)| - 1] == Decimal(n / 10);
    }
  }

  lemma {:induction false} LeadingZero(s: string)
    requires forall i :: 0 <= i < |s| ==> IsDigit(s[i])
    ensures Parse(['0'] + s) == Parse(s)
  {
    if s != [] {
      LeadingZero(s[..|s| - 1]);
      assert (['0'] + s)[..|s|] == ['0'] + s[..|s| - 1];
    }
  }

  lemma {:induction false} PadKeepsValue(s: string, width: nat)
    requires forall i :: 0 <= i < |s| ==> IsDigit(s[i])
    ensures forall i :: 0 <= i < |PadLeft(s, width)| ==> IsDigit(PadLeft(s, width)[i])
    ensures Parse(PadLeft(s, width)) == Parse(s)
    decreases width - |s|
  {
    if |s| < width {
      LeadingZero(s);
      PadKeepsValue(['0'] + s, width);
    }
  }

  /** A code prints as exactly six digits that read back as the code. */
  lemma PrintedForm(code: nat)
    requires code < MODULUS
    ensures WellFormed(Print(code)) && Parse(Print(code)) == code
  {
    assert Pow10(6) == MODULUS;
    DecimalLength(code, 6);
    ParseDecimal(code);
    PadKeepsValue(Decimal(code), 6);
  }

  // ------------------------------------------------------------ verification

  const OFFSETS := [-STEP, 0, STEP]

  /** The clock reading moved by one of the three offsets, saturating. */
  function Candidate(u: I64, k: nat): I64
    requires k < 3
  {
    Saturate(u + OFFSETS[k])
  }

  /** `t` is in the time step of `u` or in one next to it. */
  predicate Near(t: I64, u: I64) {
    -1 <= t / STEP - u / STEP <= 1
  }

  predicate PrintedAt(mac: Mac, secret: Bytes, code: string, t: I64) {
    var n := CodeAt(mac, secret, t);
    n.Ok? && Print(n.value) == code
  }

  ghost predicate Accepts(mac: Mac, secret: Bytes, code: string, u: I64) {
    exists t: I64 :: Near(t, u) && PrintedAt(mac, secret, code, t)
  }

  /** All times of one step print one code. */
  lemma SameStep(mac: Mac, secret: Bytes, code: string, t: I64, u: I64)
    requires t >= 0 && u >= 0 && t / STEP == u / STEP
    ensures PrintedAt(mac, secret, code, t) == PrintedAt(mac, secret, code, u)
  {}

  /** A time near `u` is in the step of a candidate time, saturation included. */
  lemma CandidateFor(t: I64, u: I64) returns (k: nat)
    requires t >= 0 && Near(t, u)
    ensures k < 3 && Candidate(u, k) >= 0 && Candidate(u, k) / STEP == t / STEP
  {
    k := t / STEP - u / STEP + 1;
    assert (u + OFFSETS[k]) / STEP == t / STEP;
  }

  lemma CandidatesNear(u: I64, k: nat)
    requires k < 3
    ensures Near(Candidate(u, k), u)
  {}

  /** None of the first `n` candidate times prints the code. */
  predicate Refused(mac: Mac, secret: Bytes, code: string, u: I64, n: nat)
    requires n <= 3
  {
    forall k :: 0 <= k < n ==> !PrintedAt(mac, secret, code, Candidate(u, k))
  }

  lemma AllRefused(mac: Mac, secret: Bytes, code: string, u: I64)
    requires Refused(mac, secret, code, u, 3)
    ensures !Accepts(mac, secret, code, u)
  {
    forall t: I64 | Near(t, u) ensures !PrintedAt(mac, secret, code, t) {
      if t >= 0 {
        var k := CandidateFor(t, u);
        SameStep(mac, secret, code, t, Candidate(u, k));
      }
    }
  }

  /**
   A well-formed code is accepted exactly when it is the code printed at some time in the current,
   the previous or the next step (section 5.2 of RFC 6238).
   */
  method VerifyCode(mac: Mac, secret: Bytes, code: string, u: I64) returns (r: Result<bool, Error>)
    ensures |code| != 6 || (exists i :: 0 <= i < |code| && !('0' <= code[i] <= '9')) ==> r == Ok(false)
    ensures |code| == 6 && (forall i :: 0 <= i < |code| ==> '0' <= code[i] <= '9') && |secret| < 20 ==>
      r == if u < -STEP then Ok(false) else Err(WeakSecret)
    ensures WellFormed(code) && |secret| >= 20 ==>
      r.Ok? && (r.value <==> Accepts(mac, secret, code, u))
  {
    if !WellFormed(code) {
      return Ok(false);
    }
    for k := 0 to 3
      invariant Refused(mac, secret, code, u, k)
      invariant |secret| < 20 ==> k == 0 || Candidate(u, k - 1) < 0
    {
      var candidate := Candidate(u, k);
      if candidate >= 0 {
        var expected := CodeAt(mac, secret, candidate);
        if expected.Err? {
          return Err(expected.error);
        }
        if Print(expected.value) == code {
          CandidatesNear(u, k);
          assert PrintedAt(mac, secret, code, candidate);
          return Ok(true);
        }
      }
    }
    AllRefused(mac, secret, code, u);
    r := Ok(false);
  }

  /** A code printed at `t` is accepted whenever the clock is within one step, so for any skew up to 30 seconds. */
  lemma PrintedCodeIsAccepted(mac: Mac, secret: Bytes, t: I64, u: I64)
    requires |secret| >= 20 && t >= 0
    ensures var code := Print(CodeAt(mac, secret, t).value);
            && WellFormed(code)
            && (Near(t, u) ==> Accepts(mac, secret, code, u))
            && (-STEP <= t - u <= STEP ==> Accepts(mac, secret, code, u))
  {
    var code := CodeAt(mac, secret, t).value;
    PrintedForm(code);
    assert PrintedAt(mac, secret, Print(code), t);
  }

  /** Unless another step around `u` happens to print the same code, that window is exact. */
  lemma DistantCodeIsRefused(mac: Mac, secret: Bytes, t: I64, u: I64)
    requires |secret| >= 20 && t >= 0
    requires forall s: I64 :: s >= 0 && Near(s, u) && CodeAt(mac, secret, s) == CodeAt(mac, secret, t) ==>
      s / STEP == t / STEP
    ensures Accepts(mac, secret, Print(CodeAt(mac, secret, t).value), u) <==> Near(t, u)
  {
    var code := CodeAt(mac, secret, t).value;
    PrintedForm(code);
    assert PrintedAt(mac, secret, Print(code), t);
    forall s: I64 | PrintedAt(mac, secret, Print(code), s) && Near(s, u) ensures Near(t, u) {
      PrintedForm(CodeAt(mac, secret, s).value);
    }
  }

  // --------------------------------------------------------------- in counters

  /** The code of a step: what truncating the digest of its counter leaves. */
  function StepCode(mac: Mac, secret: Bytes, n: nat): nat {
    Binary(mac(secret, n)) as nat % 1_000_000
  }

  /** At every second of the `n`-th half minute the code is the truncated digest of counter `n`. */
  lemma CodeOfStep(mac: Mac, secret: Bytes, n: nat, t: I64)
    requires |secret| >= 20 && 30 * n <= t < 30 * n + 30
    ensures CodeAt(mac, secret, t) == Ok(StepCode(mac, secret, n))
  {
    assert t / 30 == n;
  }

  /** A short secret is reported before a time before the epoch is. */
  lemma CodeErrors(mac: Mac, secret: Bytes, t: I64)
    ensures |secret| < 20 ==> CodeAt(mac, secret, t) == Err(WeakSecret)
    ensures |secret| >= 20 && t < 0 ==> CodeAt(mac, secret, t) == Err(InvalidTime)
  {}

  /**
   The window in counters: a code is accepted at `u` exactly when it prints the truncated digest of a
   counter within one of the counter of `u`, from 0 up to the last that the clock can reach.
   */
  lemma AcceptsIff(mac: Mac, secret: Bytes, code: string, u: I64)
    requires |secret| >= 20
    ensures Accepts(mac, secret, code, u) <==>
      exists n: nat :: -1 <= n - u / 30 <= 1 && 30 * n <= I64_MAX && Print(StepCode(mac, secret, n)) == code
  {
    forall t: I64 | Near(t, u) && PrintedAt(mac, secret, code, t)
      ensures exists n: nat :: -1 <= n - u / 30 <= 1 && 30 * n <= I64_MAX && Print(StepCode(mac, secret, n)) == code
    {
      var n: nat := t / 30;
      CodeOfStep(mac, secret, n, t);
      assert -1 <= n - u / 30 <= 1 && Print(StepCode(mac, secret, n)) == code;
    }
    forall n: nat | -1 <= n - u / 30 <= 1 && 30 * n <= I64_MAX && Print(StepCode(mac, secret, n)) == code
      ensures Accepts(mac, secret, code, u)
    {
      var t: I64 := 30 * n;
      CodeOfStep(mac, secret, n, t);
      assert Near(t, u) && PrintedAt(mac, secret, code, t);
    }
  }
}
