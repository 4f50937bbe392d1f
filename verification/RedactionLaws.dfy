/** Which keys the two redactors select, in terms of their letters. */
module RedactionLaws {
  import opened Wrappers
  import opened Text
  import opened Redaction

  /** The needle stands in the text at `i`. */
  predicate StandsAt(text: string, needle: string, i: nat) {
    i + |needle| <= |text| && text[i..i + |needle|] == needle
  }

  lemma {:induction false} ContainsIff(text: string, needle: string)
    ensures Contains(text, needle) <==> exists i :: StandsAt(text, needle, i)
  {
    if |needle| <= |text| {
      assert StandsAt(text, needle, 0) <==> text[..|needle|] == needle;
      if text != [] {
        ContainsIff(text[1..], needle);
        forall i: nat | StandsAt(text[1..], needle, i) ensures StandsAt(text, needle, i + 1) {
          assert text[1..][i..i + |needle|] == text[i + 1..i + 1 + |needle|];
        }
        forall i: nat | i > 0 && StandsAt(text, needle, i) ensures StandsAt(text[1..], needle, i - 1) {
          assert text[1..][i - 1..i - 1 + |needle|] == text[i..i + |needle|];
        }
      }
    }
  }

  /** The audit sanitiser selects the keys in which a needle stands anywhere, in any case. */
  lemma AuditSensitiveIff(key: string)
    ensures AuditSensitive(key) <==> exists n, i :: n in AUDIT_NEEDLES && StandsAt(Lower(key), n, i)
  {
    forall n | n in AUDIT_NEEDLES ensures Contains(Lower(key), n) <==> exists i :: StandsAt(Lower(key), n, i) {
      ContainsIff(Lower(key), n);
    }
    assert "SNM-SENTINEL" != REDACTED;
  }

  /** So a key is selected as soon as one of its parts is, whatever surrounds it. */
  lemma AuditSensitiveAnywhere(before: string, key: string, after: string)
    requires AuditSensitive(key)
    ensures AuditSensitive(before + key + after)
  {
    AuditSensitiveIff(key);
    AuditSensitiveIff(before + key + after);
    var n, i :| n in AUDIT_NEEDLES && StandsAt(Lower(key), n, i);
    assert Lower(before + key + after) == Lower(before) + Lower(key) + Lower(after);
    StandsInLonger(Lower(before), Lower(key), Lower(after), n, i);
  }

  lemma StandsInLonger(before: string, text: string, after: string, n: string, i: nat)
    requires StandsAt(text, n, i)
    ensures StandsAt(before + text + after, n, |before| + i)
  {
    var longer := before + text + after;
    assert longer[|before|..|before| + |text|] == text;
    assert longer[|before| + i..|before| + i + |n|] == longer[|before|..|before| + |text|][i..i + |n|];
  }

  lemma AuditNeedles()
    ensures |AUDIT_NEEDLES| == 8
    ensures "password" in AUDIT_NEEDLES && "secret" in AUDIT_NEEDLES && "token" in AUDIT_NEEDLES
    ensures "community" in AUDIT_NEEDLES && "private_key" in AUDIT_NEEDLES && "refresh_token" in AUDIT_NEEDLES
    ensures "authorization" in AUDIT_NEEDLES && "cookie" in AUDIT_NEEDLES
  {
    assert AUDIT_NEEDLES[0] == "password" && AUDIT_NEEDLES[1] == "secret" && AUDIT_NEEDLES[2] == "token";
    assert AUDIT_NEEDLES[3] == "community" && AUDIT_NEEDLES[4] == "private_key";
    assert AUDIT_NEEDLES[5] == "refresh_token" && AUDIT_NEEDLES[6] == "authorization" && AUDIT_NEEDLES[7] == "cookie";
  }

  // ------------------------------------------------------------------ telemetry

  predicate Alphanumeric(c: char) {
    '0' <= c <= '9' || 'a' <= c <= 'z' || 'A' <= c <= 'Z'
  }

  /** Canonical forms go piece by piece: letters and digits stay, in lower case, and all else is dropped. */
  lemma {:induction false} CanonicalConcat(a: string, b: string)
    ensures AlphanumericLower(a + b) == AlphanumericLower(a) + AlphanumericLower(b)
  {
    if a == [] {
      assert a + b == b;
    } else {
      assert (a + b)[1..] == a[1..] + b;
      CanonicalConcat(a[1..], b);
      CanonicalStep(a);
      CanonicalStep(a + b);
      Associate(AlphanumericLower([a[0]]), AlphanumericLower(a[1..]), AlphanumericLower(b));
    }
  }

  lemma CanonicalStep(s: string)
    requires s != []
    ensures AlphanumericLower(s) == AlphanumericLower([s[0]]) + AlphanumericLower(s[1..])
  {
    assert [s[0]][1..] == [];
  }

  lemma Associate(x: string, y: string, z: string)
    ensures x + (y + z) == (x + y) + z
  {}

  lemma CanonicalChar(c: char)
    ensures AlphanumericLower([c]) ==
      if '0' <= c <= '9' || 'a' <= c <= 'z' then [c]
      else if 'A' <= c <= 'Z' then [(c as int + 32) as char] else []
  {
    assert [c][1..] == [];
  }

  lemma {:induction false} TrimStartDropsNothing(s: string)
    ensures AlphanumericLower(TrimStart(s)) == AlphanumericLower(s)
  {
    if s != [] && IsSpace(s[0]) { TrimStartDropsNothing(s[1..]); }
  }

  lemma {:induction false} TrimEndDropsNothing(s: string)
    ensures AlphanumericLower(TrimEnd(s)) == AlphanumericLower(s)
  {
    if s != [] && IsSpace(s[|s| - 1]) {
      TrimEndDropsNothing(s[..|s| - 1]);
      assert s == s[..|s| - 1] + [s[|s| - 1]];
      CanonicalConcat(s[..|s| - 1], [s[|s| - 1]]);
      CanonicalChar(s[|s| - 1]);
    }
  }

  /** The telemetry redactor selects the keys whose letters and digits end in a needle, in any naming style. */
  lemma SensitiveKeyIff(key: string)
    ensures IsSensitiveKey(key) <==> exists n, p :: n in TELEMETRY_NEEDLES && AlphanumericLower(key) == p + n
  {
    TrimStartDropsNothing(key);
    TrimEndDropsNothing(TrimStart(key));
    var canonical := AlphanumericLower(key);
    assert AlphanumericLower(Trim(key)) == canonical;
    forall n | n in TELEMETRY_NEEDLES && (canonical == n || EndsWith(canonical, n))
      ensures exists p :: canonical == p + n
    {
      if canonical == n { assert canonical == [] + n; } else { assert canonical == canonical[..|canonical| - |n|] + n; }
    }
    forall n, p | n in TELEMETRY_NEEDLES && canonical == p + n ensures EndsWith(canonical, n) {
      assert canonical[|canonical| - |n|..] == n;
    }
  }

  lemma EndsInNeedle(key: string, n: string, p: string)
    requires n in TELEMETRY_NEEDLES && AlphanumericLower(key) == p + n
    ensures IsSensitiveKey(key)
  {
    SensitiveKeyIff(key);
  }

  /** So naming style does not matter: only the letters and digits of a key do, and only its end. */
  lemma SensitiveKeyStyle(key: string, other: string, before: string)
    requires IsSensitiveKey(key) && AlphanumericLower(other) == AlphanumericLower(before) + AlphanumericLower(key)
    ensures IsSensitiveKey(other)
  {
    SensitiveKeyIff(key);
    var n, p :| n in TELEMETRY_NEEDLES && AlphanumericLower(key) == p + n;
    assert AlphanumericLower(before) + (p + n) == (AlphanumericLower(before) + p) + n;
    EndsInNeedle(other, n, AlphanumericLower(before) + p);
  }

  lemma TelemetryNeedles()
    ensures |TELEMETRY_NEEDLES| == 13
    ensures "password" in TELEMETRY_NEEDLES && "passwd" in TELEMETRY_NEEDLES && "secret" in TELEMETRY_NEEDLES
    ensures "token" in TELEMETRY_NEEDLES && "authorization" in TELEMETRY_NEEDLES && "cookie" in TELEMETRY_NEEDLES
    ensures "csrf" in TELEMETRY_NEEDLES && "community" in TELEMETRY_NEEDLES && "privatekey" in TELEMETRY_NEEDLES
    ensures "clientsecret" in TELEMETRY_NEEDLES && "refreshtoken" in TELEMETRY_NEEDLES
    ensures "accesstoken" in TELEMETRY_NEEDLES && "apikey" in TELEMETRY_NEEDLES
  {
    assert TELEMETRY_NEEDLES[0] == "password" && TELEMETRY_NEEDLES[1] == "passwd" && TELEMETRY_NEEDLES[2] == "secret";
    assert TELEMETRY_NEEDLES[3] == "token" && TELEMETRY_NEEDLES[4] == "authorization";
    assert TELEMETRY_NEEDLES[5] == "cookie" && TELEMETRY_NEEDLES[6] == "csrf" && TELEMETRY_NEEDLES[7] == "community";
    assert TELEMETRY_NEEDLES[8] == "privatekey" && TELEMETRY_NEEDLES[9] == "clientsecret";
    assert TELEMETRY_NEEDLES[10] == "refreshtoken" && TELEMETRY_NEEDLES[11] == "accesstoken";
    assert TELEMETRY_NEEDLES[12] == "apikey";
  }

  /** Two naming styles of one key: both are selected. */
  lemma TelemetryExamples()
    ensures IsSensitiveKey("apiKey") && IsSensitiveKey("API-key")
  {
    TelemetryNeedles();
    CamelExample();
    DashedExample();
    EndsInNeedle("apiKey", "apikey", []);
    EndsInNeedle("API-key", "apikey", []);
  }

  lemma CamelExample()
    ensures AlphanumericLower("apiKey") == [] + "apikey"
  {
    assert AlphanumericLower("apiKey") == "apikey";
  }

  lemma DashedExample()
    ensures AlphanumericLower("API-key") == [] + "apikey"
  {
    assert AlphanumericLower("API-key") == "apikey";
  }
}
