/** Device lifecycle and identifier rules. */
module InventoryDomain {
  import opened Wrappers
  import opened Text

  datatype Lifecycle = Discovered | PendingReview | Managed | Unmanaged | Maintenance | Retired | Archived

  datatype DeviceType = Switch | Router | Firewall | Server | Printer | AccessPoint | Unknown

  datatype Kind = Serial | Mac | Hostname | SnmpEngineId | ProviderNativeId | AssetTag

  predicate AllowsNormalMutation(l: Lifecycle) {
    l == Managed || l == Maintenance
  }

  predicate CanTransition(from: Lifecycle, to: Lifecycle) {
    || from == to
    || match from
       case Discovered => to == PendingReview || to == Unmanaged || to == Archived
       case PendingReview => to == Managed || to == Unmanaged || to == Archived
       case Managed => to == Maintenance || to == Unmanaged || to == Retired
       case Unmanaged => to == PendingReview || to == Managed || to == Retired || to == Archived
       case Maintenance => to == Managed || to == Retired
       case Retired => to == PendingReview || to == Archived
       case Archived => false
  }

  predicate Strong(kind: Kind) {
    kind == Serial || kind == Mac || kind == SnmpEngineId || kind == ProviderNativeId
  }

  predicate HexDigit(c: char) {
    '0' <= c <= '9' || 'a' <= c <= 'f' || 'A' <= c <= 'F'
  }

  function HexDigits(s: string): string {
    if s == [] then [] else (if HexDigit(s[0]) then [s[0]] else []) + HexDigits(s[1..])
  }

  function TrimDots(s: string): string {
    if s != [] && s[|s| - 1] == '.' then TrimDots(s[..|s| - 1]) else s
  }

  /** The part of a trimmed value that identifies, before lower-casing. */
  function Essence(kind: Kind, value: string): string {
    match kind
    case Mac => HexDigits(value)
    case SnmpEngineId => HexDigits(value)
    case Hostname => TrimDots(value)
    case _ => value
  }

  function Normalize(kind: Kind, value: string): Option<string> {
    var normalized := Lower(Essence(kind, Trim(value)));
    if Blank(value) || normalized == [] then None else Some(normalized)
  }

  /** Provider-native identifiers are unique per provider, all others globally. */
  function Namespace(kind: Kind, source: string): Option<string> {
    if kind != ProviderNativeId then Some("global")
    else if Blank(source) then None
    else Some(Lower(Trim(source)))
  }

  /** The stored value is the trimmed one; it normalizes as the reported one did. */
  lemma NormalizeStored(kind: Kind, value: string)
    ensures Normalize(kind, Trim(value)) == Normalize(kind, value)
  {
    TrimIdempotent(value);
  }

  lemma NamespaceStored(kind: Kind, source: string)
    ensures Namespace(kind, Trim(source)) == Namespace(kind, source)
  {
    TrimIdempotent(source);
  }

  lemma {:induction false} HexDigitsResult(s: string)
    ensures forall c :: c in HexDigits(s) ==> HexDigit(c)
  {
    if s != [] { HexDigitsResult(s[1..]); }
  }

  lemma {:induction false} HexDigitsFixed(s: string)
    requires forall c :: c in s ==> HexDigit(c)
    ensures HexDigits(s) == s
  {
    if s != [] {
      HexDigitsFixed(s[1..]);
      assert s == [s[0]] + s[1..];
    }
  }

  /** Hex digits are picked piece by piece, in order. */
  lemma {:induction false} HexDigitsConcat(a: string, b: string)
    ensures HexDigits(a + b) == HexDigits(a) + HexDigits(b)
  {
    if a == [] {
      assert a + b == b;
    } else {
      assert (a + b)[1..] == a[1..] + b;
      HexDigitsConcat(a[1..], b);
      HexDigitsStep(a);
      HexDigitsStep(a + b);
      var x, y, z := HexDigits([a[0]]), HexDigits(a[1..]), HexDigits(b);
      assert x + (y + z) == (x + y) + z;
    }
  }

  lemma HexDigitsStep(s: string)
    requires s != []
    ensures HexDigits(s) == HexDigits([s[0]]) + HexDigits(s[1..])
  {
    assert [s[0]][1..] == [];
  }

  lemma HexDigitsChar(c: char)
    ensures HexDigits([c]) == if '0' <= c <= '9' || 'a' <= c <= 'f' || 'A' <= c <= 'F' then [c] else []
  {
    assert [c][1..] == [];
  }

  /** Trailing dots go, all of them, and no other character. */
  lemma TrimDotsOnce(s: string)
    ensures TrimDots(s + ".") == TrimDots(s)
    ensures s == [] || s[|s| - 1] != '.' ==> TrimDots(s) == s
  {
    assert (s + ".")[..|s|] == s;
  }

  /** The normal form by kind, in lower case: hex digits only, no trailing dots, or the trimmed value. */
  lemma NormalForm(kind: Kind, value: string)
    ensures Normalize(kind, value) ==
      var essence := match kind
                     case Mac => HexDigits(Trim(value))
                     case SnmpEngineId => HexDigits(Trim(value))
                     case Hostname => TrimDots(Trim(value))
                     case Serial => Trim(value)
                     case ProviderNativeId => Trim(value)
                     case AssetTag => Trim(value);
      if essence == [] then None else Some(Lower(essence))
  {
    assert HexDigits([]) == [] && TrimDots([]) == [];
  }

  /** Two notations of one hardware address have one normal form. */
  lemma ColonNotation()
    ensures Normalize(Mac, "AA:0b") == Some("aa0b")
  {
    assert Trim("AA:0b") == "AA:0b" && HexDigits("AA:0b") == "AA0b" && Lower("AA0b") == "aa0b";
  }

  lemma DashNotation()
    ensures Normalize(Mac, "aa-0B") == Some("aa0b")
  {
    assert Trim("aa-0B") == "aa-0B" && HexDigits("aa-0B") == "aa0B" && Lower("aa0B") == "aa0b";
  }

  /** The root dot of a host name and its case do not matter. */
  lemma RootDot()
    ensures Normalize(Hostname, "SW.") == Some("sw")
  {
    assert Trim("SW.") == "SW." && TrimDots("SW.") == "SW" && Lower("SW") == "sw";
  }

  /** The identifiers that a device alone may have, and those that only help to find it. */
  lemma StrongKinds(kind: Kind)
    ensures Strong(kind) <==> kind !in {Hostname, AssetTag}
  {}

  /** Only provider-native identifiers live in their provider's namespace. */
  lemma NamespaceOf(kind: Kind, source: string)
    ensures kind == ProviderNativeId && !Blank(source) ==> Namespace(kind, source) == Some(Lower(Trim(source)))
    ensures kind == ProviderNativeId && Blank(source) ==> Namespace(kind, source) == None
    ensures kind != ProviderNativeId ==> Namespace(kind, source) == Some("global")
  {}

  lemma LowerHex(s: string)
    requires forall c :: c in s ==> HexDigit(c)
    ensures forall c :: c in Lower(s) ==> HexDigit(c) && !IsSpace(c)
  {
    forall i | 0 <= i < |s| ensures HexDigit(Lower(s)[i]) {
      assert s[i] in s;
    }
  }

  lemma {:induction false} TrimDotsResult(s: string)
    ensures TrimDots(s) <= s
    ensures TrimDots(s) == [] || TrimDots(s)[|TrimDots(s)| - 1] != '.'
  {
    if s != [] && s[|s| - 1] == '.' { TrimDotsResult(s[..|s| - 1]); }
  }

  /**
   Normalizing is idempotent except on host names with white space before their trailing dots,
   where a second pass would trim further.
   */
  lemma NormalizeIdempotentIff(kind: Kind, value: string)
    requires Normalize(kind, value).Some?
    ensures Normalize(kind, Normalize(kind, value).value) == Normalize(kind, value)
       <==> (kind == Hostname ==> Trimmed(TrimDots(Trim(value))))
  {
    var v := Trim(value);
    var e := Essence(kind, v);
    var n := Lower(e);
    TrimResult(value);
    LowerKeepsTrimmed(e);
    LowerKeepsTrimmed(v);
    TrimFixesTrimmed(n);
    match kind
    case Hostname =>
      TrimDotsResult(v);
      assert n[|n| - 1] != '.';
      assert TrimDots(n) == n;
      if !Trimmed(n) {
        TrimResult(n);
        TrimDotsResult(Trim(n));
        assert Normalize(Hostname, n) == Some(n) ==> Lower(TrimDots(Trim(n))) == n;
        TrimShortens(n);
      }
    case _ =>
      if kind == Mac || kind == SnmpEngineId {
        HexDigitsResult(v);
        LowerHex(e);
        HexDigitsFixed(n);
      }
  }

  /** Such a host name: a second pass trims what the first uncovered. */
  lemma NormalizeTwiceDiffers()
    ensures Normalize(Hostname, "h .") == Some("h ") && Normalize(Hostname, "h ") == Some("h")
  {
    assert Trim("h .") == "h ." && TrimDots("h .") == TrimDots("h ") == "h ";
    assert Trim("h ") == "h" && TrimDots("h") == "h";
    assert Lower("h ") == "h " && Lower("h") == "h";
  }

  lemma TrimShortens(s: string)
    requires !Trimmed(s)
    ensures |Trim(s)| < |s|
  {
    TrimFixesTrimmed(s);
    TrimNoLonger(s);
    TrimEndResult(TrimStart(s));
    assert |Trim(s)| == |s| ==> Trim(s) == s;
  }

  lemma {:induction false} TrimNoLonger(s: string)
    ensures |TrimStart(s)| <= |s| && (|TrimStart(s)| == |s| ==> TrimStart(s) == s)
    ensures |Trim(s)| <= |TrimStart(s)|
  {
    TrimEndResult(TrimStart(s));
    if s != [] && IsSpace(s[0]) { TrimNoLonger(s[1..]); }
  }

  // ------------------------------------------------------------ lifecycle paths

  /** Consecutive states differ and follow the transition table. */
  predicate Path(states: seq<Lifecycle>) {
    forall i :: 0 < i < |states| ==> states[i - 1] != states[i] && CanTransition(states[i - 1], states[i])
  }

  /** A path that leaves `Retired` for `Managed` is reviewed on the way. */
  lemma {:induction false} ReactivationIsReviewed(states: seq<Lifecycle>, i: nat, j: nat)
    requires Path(states) && i < j < |states| && states[i] == Retired && states[j] == Managed
    ensures exists k :: i < k < j && states[k] == PendingReview
  {
    assert states[i + 1 - 1] != states[i + 1] && CanTransition(states[i + 1 - 1], states[i + 1]);
    if states[i + 1] == Archived {
      ArchivedIsFinal(states, i + 1);
    }
  }

  /** A discovered device becomes managed only after review or after a decision to leave it unmanaged. */
  lemma ManagementIsDecided(states: seq<Lifecycle>, i: nat, j: nat)
    requires Path(states) && i < j < |states| && states[i] == Discovered && states[j] == Managed
    ensures exists k :: i < k < j && (states[k] == PendingReview || states[k] == Unmanaged)
  {
    assert states[i + 1 - 1] != states[i + 1] && CanTransition(states[i + 1 - 1], states[i + 1]);
    if states[i + 1] == Archived {
      ArchivedIsFinal(states, i + 1);
    }
  }

  lemma ArchivedIsFinal(states: seq<Lifecycle>, i: nat)
    requires Path(states) && i < |states| && states[i] == Archived
    ensures i == |states| - 1
  {
    assert i + 1 < |states| ==> states[i + 1 - 1] != states[i + 1] && CanTransition(states[i + 1 - 1], states[i + 1]);
  }
}
