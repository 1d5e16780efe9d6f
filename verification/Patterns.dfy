/** The regular expressions that validators and column checks share. */
module Patterns {
  import Manifests
  import Text

  predicate IsLetter(c: char) { 'a' <= c <= 'z' }

  predicate IsCapital(c: char) { 'A' <= c <= 'Z' }

  predicate IsDigit(c: char) { '0' <= c <= '9' }

  predicate Digits(s: string) { s != "" && forall i :: 0 <= i < |s| ==> IsDigit(s[i]) }

  /** ^[a-z][a-z0-9_]{1,63}$ */
  predicate IsCode(s: string)
  {
    2 <= |s| <= 64 && IsLetter(s[0]) && forall i :: 0 < i < |s| ==> IsLetter(s[i]) || IsDigit(s[i]) || s[i] == '_'
  }

  /** ^[a-z][a-z0-9_-]{1,63}$ */
  predicate IsName(s: string)
  {
    2 <= |s| <= 64 && IsLetter(s[0]) && forall i :: 0 < i < |s| ==> IsLetter(s[i]) || IsDigit(s[i]) || s[i] == '_' || s[i] == '-'
  }

  /** ^[A-Z0-9]{4}$ */
  predicate IsMic(s: string) { |s| == 4 && forall i :: 0 <= i < 4 ==> IsCapital(s[i]) || IsDigit(s[i]) }

  /** ^[A-Z]{3}$ */
  predicate IsCurrency(s: string) { |s| == 3 && forall i :: 0 <= i < 3 ==> IsCapital(s[i]) }

  /** ^[0-9]+\.[0-9]+\.[0-9]+$ */
  predicate IsVersion(s: string)
  {
    exists i, j :: 0 <= i < j < |s| && s[i] == '.' && s[j] == '.' && Digits(s[..i]) && Digits(s[i + 1..j]) && Digits(s[j + 1..])
  }

  /** ^(0|[1-9][0-9]*)(\.[0-9]+)?$ */
  predicate IsPlainDecimal(s: string)
  {
    exists n :: 0 < n <= |s| && Digits(s[..n]) && (s[0] == '0' ==> n == 1) && (n == |s| || (s[n] == '.' && Digits(s[n + 1..])))
  }

  /** A plain decimal that is not zero. */
  predicate IsPositiveDecimal(s: string) { IsPlainDecimal(s) && exists i :: 0 <= i < |s| && '1' <= s[i] <= '9' }

  /** ^[A-Za-z0-9._+-]+/[A-Za-z0-9._+-]+$ */
  predicate IsAreaZone(s: string)
  {
    exists n :: 0 < n < |s| - 1 && s[n] == '/' && (forall i :: 0 <= i < |s| && i != n ==> IsZoneChar(s[i]))
  }

  predicate IsZoneChar(c: char) { IsLetter(c) || IsCapital(c) || IsDigit(c) || c in "._+-" }

  /** ^[A-Z0-9.-]{1,16}$ */
  predicate IsTicker(s: string)
  {
    1 <= |s| <= 16 && forall i :: 0 <= i < |s| ==> IsCapital(s[i]) || IsDigit(s[i]) || s[i] == '.' || s[i] == '-'
  }

  // ---------- UUIDs ----------

  predicate IsAnyHex(c: char) { IsDigit(c) || 'a' <= c <= 'f' || 'A' <= c <= 'F' }

  predicate IsHyphenated(s: string)
  {
    |s| == 36 && forall i :: 0 <= i < 36 ==> if i in {8, 13, 18, 23} then s[i] == '-' else IsAnyHex(s[i])
  }

  function Folded(s: string): string
  {
    seq(|s|, i requires 0 <= i < |s| => if IsCapital(s[i]) then (s[i] as int + 32) as char else s[i])
  }

  /** uuid.Parse: hyphenated, with the urn prefix, inside any pair of characters, or digits alone. */
  predicate ParsesAsUuid(s: string)
  {
    || IsHyphenated(s)
    || (|s| == 45 && Folded(s[..9]) == "urn:uuid:" && IsHyphenated(s[9..]))
    || (|s| == 38 && IsHyphenated(s[1..37]))
    || (|s| == 32 && forall i :: 0 <= i < 32 ==> IsAnyHex(s[i]))
  }

  // ---------- dates ----------

  function Number(s: string): nat
    requires Digits(s)
  {
    if |s| == 1 then s[0] as nat - 48 else 10 * Number(s[..|s| - 1]) + (s[|s| - 1] as nat - 48)
  }

  function DaysIn(year: nat, month: nat): nat
  {
    if month in {4, 6, 9, 11} then 30
    else if month != 2 then 31
    else if year % 4 == 0 && (year % 100 != 0 || year % 400 == 0) then 29 else 28
  }

  /** YYYY-MM-DD naming a day that exists. */
  predicate IsDate(s: string)
  {
    && |s| == 10 && s[4] == '-' && s[7] == '-' && Digits(s[..4]) && Digits(s[5..7]) && Digits(s[8..])
    && 1 <= Number(s[5..7]) <= 12 && 1 <= Number(s[8..]) <= DaysIn(Number(s[..4]), Number(s[5..7]))
  }

  // ---------- relative paths ----------

  /** One of the pieces between separators. */
  predicate IsComponent(path: string, i: nat, j: nat)
  {
    i <= j <= |path| && (i == 0 || path[i - 1] == '/') && (j == |path| || path[j] == '/') && '/' !in path[i..j]
  }

  /** What the registration asks of a path: relative, without backslash or NUL, and no component empty, "." or "..". */
  predicate IsSafePath(path: string)
  {
    && path != "" && path[0] != '/' && '\\' !in path && '\0' !in path
    && forall i, j :: 0 <= i <= j <= |path| && IsComponent(path, i, j) ==> path[i..j] !in ["", ".", ".."]
  }

  function Slashed(path: string): string
  {
    seq(|path|, i requires 0 <= i < |path| => if path[i] == '\\' then '/' else path[i])
  }

  /** The laxer form that backtests ask for: a backslash may separate components. */
  predicate IsSafeEitherPath(path: string)
  {
    && path != "" && path[0] != '/' && path[0] != '\\' && '\0' !in path
    && forall i, j :: 0 <= i <= j <= |path| && IsComponent(Slashed(path), i, j) ==> path[i..j] !in ["", ".", ".."]
  }

  /** Two dots in a row, anywhere. */
  predicate HasTwoDots(path: string) { exists i :: 0 < i < |path| && path[i - 1] == '.' && path[i] == '.' }

  /** What the column check asks: not blank, not absolute, and position('..' in path) = 0. */
  predicate IsColumnPath(path: string)
  {
    (exists i :: 0 <= i < |path| && path[i] != ' ') && path[0] != '/' && path[0] != '\\' && !HasTwoDots(path)
  }

  /** A path without separators is safe unless it is one of the two dotted names. */
  lemma PlainNameSafe(path: string)
    requires path != "" && path != "." && path != ".." && '/' !in path && '\\' !in path && '\0' !in path
    ensures IsSafePath(path)
  {
    forall i, j | 0 <= i <= j <= |path| && IsComponent(path, i, j) ensures path[i..j] == path {
      assert i == 0 && j == |path|;
    }
  }

  lemma VersionOne()
    ensures IsVersion("1.0.0")
  {
    assert "1.0.0"[1] == '.' && "1.0.0"[3] == '.' && "1.0.0"[..1] == "1" && "1.0.0"[2..3] == "0" && "1.0.0"[4..] == "0";
  }

  lemma HashTrimmed(s: string)
    requires Manifests.IsLowerHex(s, 64)
    ensures Text.TrimSpace(s) == s
  {
    assert Manifests.IsHex(s[0]) && Manifests.IsHex(s[63]);
    Text.TrimmedAlready(s);
  }

  lemma UuidTrimmed(s: string)
    requires Manifests.IsUuid(s)
    ensures Text.TrimSpace(s) == s
  {
    assert Manifests.IsHex(s[0]) && Manifests.IsHex(s[35]);
    Text.TrimmedAlready(s);
  }

  lemma UuidParses(s: string)
    requires Manifests.IsUuid(s)
    ensures ParsesAsUuid(s)
  {
    forall i | 0 <= i < 36 && i !in {8, 13, 18, 23} ensures IsAnyHex(s[i]) {
      assert Manifests.IsHex(s[i]);
    }
  }
}
