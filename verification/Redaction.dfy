/** Redaction of secrets in JSON trees: the audit sanitiser and the telemetry redactor. */
module Redaction {
  import opened Wrappers
  import opened Text

  /** Object fields are kept in a map: keys are unique and their order carries no meaning. */
  datatype Json =
    | Null
    | Bool(b: bool)
    | Num(digits: string)
    | Str(s: string)
    | Arr(items: seq<Json>)
    | Obj(fields: map<string, Json>)

  const REDACTED := "[REDACTED]"

  const AUDIT_NEEDLES := [
    "password", "secret", "token", "community", "private_key", "refresh_token", "authorization", "cookie"
  ]

  const TELEMETRY_NEEDLES := [
    "password", "passwd", "secret", "token", "authorization", "cookie", "csrf", "community",
    "privatekey", "clientsecret", "refreshtoken", "accesstoken", "apikey"
  ]

  predicate Contains(text: string, needle: string) {
    |needle| <= |text| && (text[..|needle|] == needle || Contains(text[1..], needle))
  }

  predicate EndsWith(text: string, needle: string) {
    |needle| <= |text| && text[|text| - |needle|..] == needle
  }

  function RedactValue(key: string, value: string): string {
    if exists n :: n in AUDIT_NEEDLES && Contains(Lower(key), n) then REDACTED else value
  }

  predicate AuditSensitive(key: string) {
    RedactValue(key, "SNM-SENTINEL") == REDACTED
  }

  function SanitizeJson(value: Json): Json {
    match value
    case Obj(fields) => Obj(map k | k in fields :: if AuditSensitive(k) then Str(REDACTED) else SanitizeJson(fields[k]))
    case Arr(items) => Arr(seq(|items|, i requires 0 <= i < |items| => SanitizeJson(items[i])))
    case _ => value
  }

  function AlphanumericLower(s: string): string {
    if s == [] then []
    else
      var c := LowerChar(s[0]);
      (if 'a' <= c <= 'z' || '0' <= c <= '9' then [c] else []) + AlphanumericLower(s[1..])
  }

  predicate IsSensitiveKey(key: string) {
    var canonical := AlphanumericLower(Trim(key));
    exists n :: n in TELEMETRY_NEEDLES && (canonical == n || EndsWith(canonical, n))
  }

  /** Replaces the value under every key that `p` selects, at any depth. */
  function RedactKeys(p: string -> bool, value: Json): Json
    decreases value
  {
    match value
    case Obj(fields) => Obj(map k | k in fields :: if p(k) then Str(REDACTED) else RedactKeys(p, fields[k]))
    case Arr(items) => Arr(seq(|items|, i requires 0 <= i < |items| => RedactKeys(p, items[i])))
    case _ => value
  }

  /** The telemetry redactor. */
  method RedactJson(value: Json) returns (r: Json)
    ensures r == RedactKeys(IsSensitiveKey, value)
    decreases value, 1
  {
    match value {
      case Obj(_) => r := RedactObject(value);
      case Arr(_) => r := RedactArray(value);
      case _ => r := value;
    }
  }

  /** Copies an object entry by entry into a fresh map. */
  method RedactObject(value: Json) returns (r: Json)
    requires value.Obj?
    ensures r == RedactKeys(IsSensitiveKey, value)
    decreases value, 0
  {
    ghost var spec := RedactKeys(IsSensitiveKey, value).fields;
    var redacted: map<string, Json> := map[];
    var todo := value.fields.Keys;
    while todo != {}
      invariant todo <= value.fields.Keys && redacted.Keys == value.fields.Keys - todo
      invariant forall k :: k in redacted ==> redacted[k] == spec[k]
    {
      var key :| key in todo;
      if IsSensitiveKey(key) {
        redacted := redacted[key := Str(REDACTED)];
      } else {
        var inner := RedactJson(value.fields[key]);
        redacted := redacted[key := inner];
      }
      todo := todo - {key};
    }
    assert redacted == spec;
    r := Obj(redacted);
  }

  method RedactArray(value: Json) returns (r: Json)
    requires value.Arr?
    ensures r == RedactKeys(IsSensitiveKey, value)
    decreases value, 0
  {
    var copied: seq<Json> := [];
    for i := 0 to |value.items|
      invariant |copied| == i
      invariant forall j :: 0 <= j < i ==> copied[j] == RedactKeys(IsSensitiveKey, value.items[j])
    {
      var inner := RedactJson(value.items[i]);
      copied := copied + [inner];
    }
    r := Arr(copied);
  }

  lemma {:induction false} SanitizeIsRedaction(value: Json)
    ensures SanitizeJson(value) == RedactKeys(AuditSensitive, value)
    decreases value
  {
    match value
    case Obj(fields) =>
      forall k | k in fields ensures SanitizeJson(fields[k]) == RedactKeys(AuditSensitive, fields[k]) {
        SanitizeIsRedaction(fields[k]);
      }
    case Arr(items) =>
      forall i | 0 <= i < |items| ensures SanitizeJson(items[i]) == RedactKeys(AuditSensitive, items[i]) {
        SanitizeIsRedaction(items[i]);
      }
    case _ =>
  }

  function Either(p: string -> bool, q: string -> bool): string -> bool {
    key => p(key) || q(key)
  }

  /** Two passes, in either order, are one pass with the union of the keys. */
  lemma {:induction false} TwoPasses(p: string -> bool, q: string -> bool, value: Json)
    ensures RedactKeys(p, RedactKeys(q, value)) == RedactKeys(Either(p, q), value)
    decreases value
  {
    match value
    case Obj(fields) =>
      forall k | k in fields
        ensures RedactKeys(p, RedactKeys(q, fields[k])) == RedactKeys(Either(p, q), fields[k])
      {
        TwoPasses(p, q, fields[k]);
      }
    case Arr(items) =>
      forall i | 0 <= i < |items|
        ensures RedactKeys(p, RedactKeys(q, items[i])) == RedactKeys(Either(p, q), items[i])
      {
        TwoPasses(p, q, items[i]);
      }
    case _ =>
  }

  /** Only the set of keys matters. */
  lemma {:induction false} SameKeys(p: string -> bool, q: string -> bool, value: Json)
    requires forall k :: p(k) <==> q(k)
    ensures RedactKeys(p, value) == RedactKeys(q, value)
    decreases value
  {
    match value
    case Obj(fields) =>
      forall k | k in fields ensures RedactKeys(p, fields[k]) == RedactKeys(q, fields[k]) {
        SameKeys(p, q, fields[k]);
      }
    case Arr(items) =>
      forall i | 0 <= i < |items| ensures RedactKeys(p, items[i]) == RedactKeys(q, items[i]) {
        SameKeys(p, q, items[i]);
      }
    case _ =>
  }

  /** Sanitising and redacting are idempotent and commute; both orders are one combined pass. */
  lemma RedactionAlgebra(value: Json)
    ensures SanitizeJson(SanitizeJson(value)) == SanitizeJson(value)
    ensures RedactKeys(IsSensitiveKey, RedactKeys(IsSensitiveKey, value)) == RedactKeys(IsSensitiveKey, value)
    ensures RedactKeys(IsSensitiveKey, SanitizeJson(value)) == SanitizeJson(RedactKeys(IsSensitiveKey, value))
    ensures SanitizeJson(RedactKeys(IsSensitiveKey, value)) == RedactKeys(Either(AuditSensitive, IsSensitiveKey), value)
  {
    SanitizeIsRedaction(value);
    SanitizeIsRedaction(SanitizeJson(value));
    SanitizeIsRedaction(RedactKeys(IsSensitiveKey, value));
    TwoPasses(AuditSensitive, AuditSensitive, value);
    SameKeys(Either(AuditSensitive, AuditSensitive), AuditSensitive, value);
    TwoPasses(IsSensitiveKey, IsSensitiveKey, value);
    SameKeys(Either(IsSensitiveKey, IsSensitiveKey), IsSensitiveKey, value);
    TwoPasses(IsSensitiveKey, AuditSensitive, value);
    TwoPasses(AuditSensitive, IsSensitiveKey, value);
    SameKeys(Either(IsSensitiveKey, AuditSensitive), Either(AuditSensitive, IsSensitiveKey), value);
  }

  // ---------------------------------------------------------- what a reader sees

  datatype PathStep = Key(key: string) | Index(index: nat)

  function At(value: Json, path: seq<PathStep>): Option<Json>
    decreases |path|
  {
    if path == [] then Some(value)
    else
      match (path[0], value)
      case (Key(k), Obj(fields)) => if k in fields then At(fields[k], path[1..]) else None
      case (Index(i), Arr(items)) => if i < |items| then At(items[i], path[1..]) else None
      case _ => None
  }

  /** The part of a path up to and including its first selected key. */
  function ToFirst(p: string -> bool, path: seq<PathStep>): seq<PathStep> {
    if path == [] then []
    else if path[0].Key? && p(path[0].key) then [path[0]]
    else [path[0]] + ToFirst(p, path[1..])
  }

  predicate Clear(p: string -> bool, path: seq<PathStep>) {
    forall i :: 0 <= i < |path| ==> path[i].Key? ==> !p(path[i].key)
  }

  /**
   Every path, both ways: one through no selected key leads to the redaction of what it led to,
   and one through a selected key stops at the marker under the first such key.
   */
  lemma {:induction false} RedactedPaths(p: string -> bool, value: Json, path: seq<PathStep>)
    ensures Clear(p, path) && At(value, path).Some? ==>
      At(RedactKeys(p, value), path) == Some(RedactKeys(p, At(value, path).value))
    ensures Clear(p, path) && At(value, path).None? ==> At(RedactKeys(p, value), path) == None
    ensures !Clear(p, path) && At(value, ToFirst(p, path)).Some? ==>
              && At(RedactKeys(p, value), ToFirst(p, path)) == Some(Str(REDACTED))
              && (ToFirst(p, path) != path ==> At(RedactKeys(p, value), path) == None)
    ensures !Clear(p, path) && At(value, ToFirst(p, path)).None? ==> At(RedactKeys(p, value), path) == None
    decreases |path|
  {
    if path != [] {
      assert Clear(p, path) <==> !(path[0].Key? && p(path[0].key)) && Clear(p, path[1..]);
      match (path[0], value)
      case (Key(k), Obj(fields)) =>
        if k in fields {
          if p(k) {
            assert ToFirst(p, path)[1..] == [];
            assert At(value, ToFirst(p, path)) == At(fields[k], []);
            assert At(RedactKeys(p, value), path) == At(Str(REDACTED), path[1..]);
          } else {
            RedactedPaths(p, fields[k], path[1..]);
            assert ToFirst(p, path)[1..] == ToFirst(p, path[1..]);
          }
        }
      case (Index(i), Arr(items)) =>
        if i < |items| {
          RedactedPaths(p, items[i], path[1..]);
          assert ToFirst(p, path)[1..] == ToFirst(p, path[1..]);
        }
      case _ =>
    }
  }
}
