/** Strings as the stores use them: trimming, ASCII lower-casing and UTF-8 length. */
module Text {
  import opened Wrappers

  /** The characters with the Unicode White_Space property. */
  predicate IsSpace(c: char) {
    || '\U{9}' <= c <= '\U{D}'
    || c == ' '
    || c == '\U{85}'
    || c == '\U{A0}'
    || c == '\U{1680}'
    || '\U{2000}' <= c <= '\U{200A}'
    || c == '\U{2028}' || c == '\U{2029}' || c == '\U{202F}' || c == '\U{205F}'
    || c == '\U{3000}'
  }

  function TrimStart(s: string): string {
    if s != [] && IsSpace(s[0]) then TrimStart(s[1..]) else s
  }

  function TrimEnd(s: string): string {
    if s != [] && IsSpace(s[|s| - 1]) then TrimEnd(s[..|s| - 1]) else s
  }

  function Trim(s: string): string {
    TrimEnd(TrimStart(s))
  }

  predicate Blank(s: string) {
    Trim(s) == []
  }

  /** No white space at either end. */
  predicate Trimmed(s: string) {
    s == [] || (!IsSpace(s[0]) && !IsSpace(s[|s| - 1]))
  }

  lemma {:induction false} TrimStartResult(s: string)
    ensures TrimStart(s) == [] || !IsSpace(TrimStart(s)[0])
  {
    if s != [] && IsSpace(s[0]) { TrimStartResult(s[1..]); }
  }

  lemma {:induction false} TrimEndResult(s: string)
    ensures TrimEnd(s) <= s
    ensures TrimEnd(s) == [] || !IsSpace(TrimEnd(s)[|TrimEnd(s)| - 1])
  {
    if s != [] && IsSpace(s[|s| - 1]) { TrimEndResult(s[..|s| - 1]); }
  }

  lemma TrimResult(s: string)
    ensures Trimmed(Trim(s))
  {
    TrimStartResult(s);
    TrimEndResult(TrimStart(s));
  }

  /** Trimming changes nothing exactly on strings without outer white space. */
  lemma TrimFixesTrimmed(s: string)
    ensures Trim(s) == s <==> Trimmed(s)
  {
    TrimResult(s);
  }

  lemma TrimIdempotent(s: string)
    ensures Trim(Trim(s)) == Trim(s)
  {
    TrimResult(s);
    TrimFixesTrimmed(Trim(s));
  }

  /** What trimming leaves is a piece of the string, with nothing but white space around it. */
  lemma TrimIsInner(s: string) returns (i: nat, j: nat)
    ensures i <= j <= |s| && Trim(s) == s[i..j]
    ensures forall k :: 0 <= k < |s| && (k < i || k >= j) ==> IsSpace(s[k])
  {
    i := TrimStartIsSuffix(s);
    var n := TrimEndIsPrefix(s[i..]);
    j := i + n;
    forall k | 0 <= k < |s| && (k < i || k >= j) ensures IsSpace(s[k]) {
      if k >= j { assert s[k] == s[i..][k - i]; }
    }
  }

  lemma {:induction false} TrimStartIsSuffix(s: string) returns (i: nat)
    ensures i <= |s| && TrimStart(s) == s[i..] && forall k :: 0 <= k < i ==> IsSpace(s[k])
  {
    if s != [] && IsSpace(s[0]) {
      var more := TrimStartIsSuffix(s[1..]);
      i := more + 1;
      forall k | 0 <= k < i ensures IsSpace(s[k]) {
        if k > 0 { assert s[k] == s[1..][k - 1]; }
      }
    } else {
      i := 0;
    }
  }

  lemma {:induction false} TrimEndIsPrefix(s: string) returns (j: nat)
    ensures j <= |s| && TrimEnd(s) == s[..j] && forall k :: j <= k < |s| ==> IsSpace(s[k])
  {
    if s != [] && IsSpace(s[|s| - 1]) {
      j := TrimEndIsPrefix(s[..|s| - 1]);
      assert s[..|s| - 1][..j] == s[..j];
    } else {
      j := |s|;
    }
  }

  function LowerChar(c: char): char {
    if 'A' <= c <= 'Z' then (c as int + 32) as char else c
  }

  /** ASCII lower-casing, character by character. */
  function Lower(s: string): string {
    seq(|s|, i requires 0 <= i < |s| => LowerChar(s[i]))
  }

  lemma LowerKeepsTrimmed(s: string)
    ensures Lower(Lower(s)) == Lower(s)
    ensures Trimmed(Lower(s)) <==> Trimmed(s)
  {}

  /** Exactly the letters A to Z change, each to its small letter. */
  lemma LowerChanges(s: string, i: nat)
    requires i < |s|
    ensures |Lower(s)| == |s|
    ensures s[i] in "ABCDEFGHIJKLMNOPQRSTUVWXYZ" ==> Lower(s)[i] as int == s[i] as int + 32
    ensures s[i] !in "ABCDEFGHIJKLMNOPQRSTUVWXYZ" ==> Lower(s)[i] == s[i]
  {
    var letters := "ABCDEFGHIJKLMNOPQRSTUVWXYZ";
    if 'A' <= s[i] <= 'Z' { assert letters[s[i] as int - 65] == s[i]; }
  }

  /** Length of the UTF-8 encoding, which is what the length limits count. */
  function ByteLen(s: string): nat {
    if s == [] then 0
    else
      var c := s[0] as int;
      (if c < 0x80 then 1 else if c < 0x800 then 2 else if c < 0x1_0000 then 3 else 4) + ByteLen(s[1..])
  }

  /** ASCII text is as long in bytes as in characters. */
  lemma {:induction false} AsciiByteLen(s: string)
    requires forall k :: 0 <= k < |s| ==> s[k] < '\U{80}'
    ensures ByteLen(s) == |s|
  {
    if s != [] { AsciiByteLen(s[1..]); }
  }

  /** A text of `n` letters. */
  function Letters(n: nat): string {
    seq(n, i => 'a')
  }

  lemma LettersAreText(n: nat)
    ensures ByteLen(Letters(n)) == n && (Blank(Letters(n)) <==> n == 0)
  {
    AsciiByteLen(Letters(n));
    TrimFixesTrimmed(Letters(n));
  }

  /** An optional text value as a column stores it: trimmed, and absent when nothing is left. */
  function Clean(value: Option<string>): Option<string> {
    if value.Some? && !Blank(value.value) then Some(Trim(value.value)) else None
  }

  lemma CleanIdempotent(value: Option<string>)
    ensures Clean(Clean(value)) == Clean(value)
  {
    if value.Some? { TrimIdempotent(value.value); }
  }
}
