/**
 Every text that CanonicalDecimal lets through: besides plain decimals the number
 reader takes base prefixes, digit separators and binary exponents.
 */
module Lexemes {
  import opened Wrappers
  import opened Decimals

  // ---------- the number reader ----------

  /** The reader's state inside a mantissa: the last kind of character, the digits so far, a misplaced separator. */
  datatype Scan = Scan(dot: bool, prev: char, count: nat, nonzero: bool, bad: bool)

  function DigitOf(c: char): nat
  {
    if '0' <= c <= '9' then c as nat - 48
    else if 'a' <= c <= 'z' then c as nat - 87
    else if 'A' <= c <= 'Z' then c as nat - 55
    else 99
  }

  /** One character of a mantissa, None when it belongs to what follows. */
  function Step(s: Scan, c: char, base: nat): Option<Scan>
  {
    if c == '.' && !s.dot then Some(s.(dot := true, prev := '.', bad := s.bad || s.prev == '_'))
    else if c == '_' then Some(s.(prev := '_', bad := s.bad || s.prev != '0'))
    else if DigitOf(c) < base then Some(s.(prev := '0', count := s.count + 1, nonzero := s.nonzero || DigitOf(c) > 0))
    else None
  }

  function ScanAll(s: Scan, text: string, base: nat): (Scan, string)
    decreases |text|
  {
    if text == "" then (s, "")
    else
      var next := Step(s, text[0], base);
      if next.None? then (s, text) else ScanAll(next.value, text[1..], base)
  }

  function ExponentDigits(prev: char, any: bool, text: string): bool
    decreases |text|
  {
    if text == "" then any && prev != '_'
    else if IsDigit(text[0]) then ExponentDigits('0', true, text[1..])
    else text[0] == '_' && prev == '0' && ExponentDigits('_', any, text[1..])
  }

  /** Nothing, or a binary exponent to the end. */
  predicate ExponentOk(text: string)
  {
    text == "" ||
    (text[0] in "pP" && ExponentDigits('.', false, if |text| > 1 && text[1] == '-' then text[2..] else text[1..]))
  }

  function BaseOf(c: char): nat { if c in "bB" then 2 else if c in "oO" then 8 else 16 }

  predicate Prefixed(body: string) { |body| >= 2 && body[0] == '0' && body[1] in "bBoOxX" }

  function Mantissa(body: string): (Scan, string)
  {
    if Prefixed(body) then ScanAll(Scan(false, '0', 0, false, false), body[2..], BaseOf(body[1]))
    else ScanAll(Scan(false, '.', 0, false, false), body, 10)
  }

  /** big.Rat.SetString, without the texts that are refused beforehand. */
  predicate RatAccepts(v: string)
  {
    var (s, rest) := Mantissa(Unsigned(v));
    s.count > 0 && !s.bad && s.prev != '_' && ExponentOk(rest)
  }

  predicate RatNegative(v: string) { Negative(v) && Mantissa(Unsigned(v)).0.nonzero }

  /** The whole function, on every text. */
  function CanonicalText(v: string, nonNegative: bool): Result<string, DecimalError>
  {
    if v == "" || (exists i :: 0 <= i < |v| && v[i] in "eE+/ ") then Err(InvalidDecimal)
    else if !RatAccepts(v) || (nonNegative && RatNegative(v)) then Err(InvalidDecimal)
    else Ok(Canonicalize(v))
  }

  // ---------- plain decimals ----------

  /** No part of a plain decimal. */
  predicate Odd(c: char) { !IsDigit(c) && c != '.' && c != '-' }

  predicate HasOdd(v: string) { exists i :: 0 <= i < |v| && Odd(v[i]) }

  /** Digits, and from now on at most one more dot. */
  predicate PlainRest(text: string, dot: bool)
  {
    && (forall i :: 0 <= i < |text| ==> IsDigit(text[i]) || text[i] == '.')
    && (forall i, j :: 0 <= i < j < |text| && text[i] == '.' ==> text[j] != '.')
    && (dot ==> '.' !in text)
  }

  predicate AnyDigit(text: string) { exists i :: 0 <= i < |text| && IsDigit(text[i]) }

  predicate AnyNonzero(text: string) { exists i :: 0 <= i < |text| && '1' <= text[i] <= '9' }

  /** The reader takes plain text to its end and sees its digits. */
  lemma {:induction false} PlainScans(s: Scan, text: string)
    requires PlainRest(text, s.dot) && s.prev != '_'
    ensures var (t, rest) := ScanAll(s, text, 10);
            && rest == "" && t.prev != '_' && t.bad == s.bad
            && (t.count > 0 <==> s.count > 0 || AnyDigit(text)) && (t.nonzero <==> s.nonzero || AnyNonzero(text))
    decreases |text|
  {
    if text != "" {
      var next := Step(s, text[0], 10).value;
      assert text == [text[0]] + text[1..];
      assert forall i :: 0 <= i < |text| - 1 ==> text[1..][i] == text[i + 1];
      assert PlainRest(text[1..], next.dot);
      PlainScans(next, text[1..]);
      assert AnyDigit(text) <==> IsDigit(text[0]) || AnyDigit(text[1..]) by {
        if AnyDigit(text[1..]) {
          var i :| 0 <= i < |text| - 1 && IsDigit(text[1..][i]);
          assert IsDigit(text[i + 1]);
        }
      }
      assert AnyNonzero(text) <==> '1' <= text[0] <= '9' || AnyNonzero(text[1..]) by {
        if AnyNonzero(text[1..]) {
          var i :| 0 <= i < |text| - 1 && '1' <= text[1..][i] <= '9';
          assert '1' <= text[i + 1] <= '9';
        }
      }
    }
  }

  /** Text without odd characters that the reader takes to the end is plain. */
  lemma {:induction false} ScannedIsPlain(s: Scan, text: string)
    requires !HasOdd(text) && ScanAll(s, text, 10).1 == ""
    ensures PlainRest(text, s.dot)
    ensures ScanAll(s, text, 10).0.count > s.count ==> AnyDigit(text)
    ensures ScanAll(s, text, 10).0.count >= s.count
    decreases |text|
  {
    if text != "" {
      assert !Odd(text[0]);
      var next := Step(s, text[0], 10).value;
      assert forall i :: 0 <= i < |text| - 1 ==> text[1..][i] == text[i + 1];
      ScannedIsPlain(next, text[1..]);
      assert forall i :: 0 < i < |text| ==> text[i] == text[1..][i - 1];
      if IsDigit(text[0]) {
        assert AnyDigit(text);
      } else if AnyDigit(text[1..]) {
        var i :| 0 <= i < |text| - 1 && IsDigit(text[1..][i]);
        assert IsDigit(text[i + 1]);
      }
    }
  }

  lemma {:induction false} RestIsSuffix(s: Scan, text: string, base: nat)
    ensures var rest := ScanAll(s, text, base).1; |rest| <= |text| && text[|text| - |rest|..] == rest
    decreases |text|
  {
    if text != "" && Step(s, text[0], base).Some? {
      RestIsSuffix(Step(s, text[0], base).value, text[1..], base);
      var rest := ScanAll(s, text, base).1;
      assert text[1..][|text| - 1 - |rest|..] == text[|text| - |rest|..];
    }
  }

  /** A valid lexeme is a sign and plain text with a digit in it. */
  lemma LexemeIsPlain(v: string)
    ensures ValidLexeme(v) <==> PlainRest(Unsigned(v), false) && AnyDigit(Unsigned(v))
  {
    var body := Unsigned(v);
    var n := DotAt(body);
    var whole, fraction := Whole(body), Fraction(body);
    assert forall i :: 0 <= i < n ==> body[i] == whole[i];
    assert forall i :: n < i < |body| ==> body[i] == fraction[i - n - 1];
    assert n < |body| ==> |fraction| == |body| - n - 1;
    if ValidLexeme(v) {
      assert forall i :: 0 <= i < |body| ==> IsDigit(body[i]) || i == n;
      if whole != "" {
        assert IsDigit(body[0]);
      } else {
        assert IsDigit(fraction[0]) && fraction[0] == body[n + 1];
      }
    }
    if PlainRest(body, false) && AnyDigit(body) {
      assert forall i :: 0 <= i < |whole| ==> whole[i] == body[i] && whole[i] != '.';
      assert forall i :: 0 <= i < |fraction| ==> fraction[i] == body[n + 1 + i] && fraction[i] != '.';
      var k :| 0 <= k < |body| && IsDigit(body[k]);
      assert k < n ==> whole != "";
    }
  }

  lemma {:induction false} PositiveDigits(s: string)
    requires AllDigits(s)
    ensures DigitsValue(s) > 0 <==> AnyNonzero(s)
    decreases |s|
  {
    if s != "" {
      var front := s[..|s| - 1];
      PositiveDigits(front);
      assert AnyNonzero(s) <==> AnyNonzero(front) || '1' <= s[|s| - 1] <= '9' by {
        assert forall i :: 0 <= i < |front| ==> front[i] == s[i];
      }
    }
  }

  lemma NonzeroJoined(a: string, b: string)
    ensures AnyNonzero(a + b) <==> AnyNonzero(a) || AnyNonzero(b)
  {
    if AnyNonzero(a) {
      var i :| 0 <= i < |a| && '1' <= a[i] <= '9';
      assert (a + b)[i] == a[i];
    }
    if AnyNonzero(b) {
      var i :| 0 <= i < |b| && '1' <= b[i] <= '9';
      assert (a + b)[|a| + i] == b[i];
    }
  }

  lemma NonzeroParts(body: string)
    ensures AnyNonzero(Whole(body) + Fraction(body)) <==> AnyNonzero(body)
  {
    BodySplit(body);
    assert !AnyNonzero("") && !AnyNonzero(".");
    hide AnyNonzero, Whole, Fraction;
    NonzeroJoined(Whole(body), Fraction(body));
    NonzeroJoined(".", Fraction(body));
    NonzeroJoined(Whole(body), if '.' in body then "." + Fraction(body) else "");
  }

  lemma NegativeIffNonzero(v: string)
    requires ValidLexeme(v)
    ensures Numerator(Parse(v)) < 0 <==> Negative(v) && AnyNonzero(Unsigned(v))
  {
    hide AnyNonzero, Unsigned, Whole, Fraction, DigitsValue, AllDigits;
    NonzeroParts(Unsigned(v));
    DigitsJoined(v);
    PositiveDigits(Whole(Unsigned(v)) + Fraction(Unsigned(v)));
  }

  lemma DigitsJoined(v: string)
    requires ValidLexeme(v)
    ensures AllDigits(Whole(Unsigned(v)) + Fraction(Unsigned(v)))
  {
  }

  lemma NotPrefixed(body: string)
    requires PlainRest(body, false)
    ensures !Prefixed(body)
  {
  }

  lemma NothingRefusedBeforehand(v: string)
    requires PlainRest(Unsigned(v), false)
    ensures !exists i :: 0 <= i < |v| && v[i] in "eE+/ "
  {
    forall i | 0 <= i < |v| ensures v[i] !in "eE+/ " {
      if Negative(v) && i > 0 {
        assert v[i] == Unsigned(v)[i - 1];
      }
    }
  }

  /** On plain decimals the whole function is the one the rest of the model uses. */
  lemma PlainAgrees(v: string, nonNegative: bool)
    requires ValidLexeme(v)
    ensures CanonicalText(v, nonNegative) == CanonicalDecimal(v, nonNegative)
  {
    LexemeIsPlain(v);
    NotPrefixed(Unsigned(v));
    NothingRefusedBeforehand(v);
    PlainScans(Scan(false, '.', 0, false, false), Unsigned(v));
    NegativeIffNonzero(v);
    hide ScanAll, ValidLexeme, Canonicalize, PlainRest, Numerator;
  }

  // ---------- everything else ----------

  lemma OddIsNotPlain(v: string)
    requires HasOdd(v)
    ensures !ValidLexeme(v)
  {
    LexemeIsPlain(v);
    var i :| 0 <= i < |v| && Odd(v[i]);
    if Negative(v) {
      assert v[i] == Unsigned(v)[i - 1];
    }
  }

  lemma AcceptedIsPlainUnlessOdd(v: string)
    requires RatAccepts(v) && !HasOdd(Unsigned(v))
    ensures ValidLexeme(v)
  {
    var body := Unsigned(v);
    var start := Scan(false, '.', 0, false, false);
    PrefixIsOdd(body);
    ExponentIsOdd(start, body);
    ScannedIsPlain(start, body);
    LexemeIsPlain(v);
  }

  lemma PrefixIsOdd(body: string)
    ensures Prefixed(body) ==> HasOdd(body)
  {
    if Prefixed(body) {
      assert Odd(body[1]);
    }
  }

  lemma ExponentIsOdd(start: Scan, body: string)
    ensures ScanAll(start, body, 10).1 != "" && ExponentOk(ScanAll(start, body, 10).1) ==> HasOdd(body)
  {
    RestIsSuffix(start, body, 10);
    var rest := ScanAll(start, body, 10).1;
    if rest != "" && ExponentOk(rest) {
      assert body[|body| - |rest|] == rest[0] && Odd(rest[0]);
    }
  }

  /** Trimming zeros and dots keeps every odd character. */
  lemma TrimFractionKeepsOdd(v: string)
    requires HasOdd(v)
    ensures HasOdd(TrimFraction(v))
    ensures TrimFraction(v) <= v
  {
    TrimRightOf(v, '0');
    TrimRightOf(TrimRight(v, '0'), '.');
    var i :| 0 <= i < |v| && Odd(v[i]);
    assert TrimFraction(v)[i] == v[i];
  }

  lemma UnsignedKeepsOdd(v: string)
    requires HasOdd(v)
    ensures HasOdd(Unsigned(v))
  {
    var i :| 0 <= i < |v| && Odd(v[i]);
    if Negative(v) {
      assert Unsigned(v)[i - 1] == v[i];
    } else {
      assert Unsigned(v)[i] == v[i];
    }
  }

  lemma TrimLeftKeepsOdd(s: string)
    requires HasOdd(s)
    ensures HasOdd(TrimLeft(s, '0'))
  {
    TrimLeftOf(s, '0');
    var t := TrimLeft(s, '0');
    var i :| 0 <= i < |s| && Odd(s[i]);
    assert s[|s| - |t|..] == t;
    assert t[i - (|s| - |t|)] == s[i];
  }

  lemma JoinedOdd(a: string, b: string)
    requires HasOdd(a) || HasOdd(b)
    ensures HasOdd(a + b)
  {
    if HasOdd(a) {
      var i :| 0 <= i < |a| && Odd(a[i]);
      assert (a + b)[i] == a[i];
    } else {
      var i :| 0 <= i < |b| && Odd(b[i]);
      assert (a + b)[|a| + i] == b[i];
    }
  }

  lemma SplitOdd(body: string)
    requires HasOdd(body)
    ensures HasOdd(Whole(body)) || HasOdd(Fraction(body))
  {
    var n := DotAt(body);
    var i :| 0 <= i < |body| && Odd(body[i]);
    if i < n {
      assert Whole(body)[i] == body[i];
    } else {
      assert i != n;
      assert Fraction(body)[i - n - 1] == body[i];
    }
  }

  lemma CanonicalKeepsOdd(v: string)
    requires HasOdd(v)
    ensures HasOdd(Canonicalize(v))
  {
    hide TrimFraction, Unsigned, Whole, Fraction, TrimLeft, HasOdd;
    var v1 := TrimFraction(v);
    TrimFractionKeepsOdd(v);
    UnsignedKeepsOdd(v1);
    var v2 := Unsigned(v1);
    SplitOdd(v2);
    var trimmed := TrimLeft(Whole(v2), '0');
    var integer := if trimmed == "" then "0" else trimmed;
    if HasOdd(Whole(v2)) {
      TrimLeftKeepsOdd(Whole(v2));
      NoneIsOdd();
    } else {
      NoneIsOdd();
      JoinedOdd(integer + ".", Fraction(v2));
    }
    var result := if Fraction(v2) != "" then integer + "." + Fraction(v2) else integer;
    if HasOdd(integer) && Fraction(v2) != "" {
      JoinedOdd(integer, ".");
      JoinedOdd(integer + ".", Fraction(v2));
    }
    assert HasOdd(result);
    JoinedOdd("-", result);
  }

  lemma NoneIsOdd()
    ensures !HasOdd("") && !HasOdd("0")
  {
  }

  /**
   Whatever text is accepted, what comes out is a decimal exactly when what came in was
   a plain decimal; then it has the same value and is what the rest of the model says.
   */
  lemma CanonicalIsDecimalIff(v: string, nonNegative: bool)
    requires CanonicalText(v, nonNegative).Ok?
    ensures ValidLexeme(CanonicalText(v, nonNegative).value) <==> ValidLexeme(v)
    ensures ValidLexeme(v) ==>
              CanonicalText(v, nonNegative) == CanonicalDecimal(v, nonNegative) && SameValue(v, CanonicalText(v, nonNegative).value)
  {
    hide ValidLexeme, Canonicalize, RatAccepts, RatNegative, HasOdd, SameValue;
    if ValidLexeme(v) {
      PlainAgrees(v, nonNegative);
      CanonicalPreservesValue(v, nonNegative);
    } else {
      if !HasOdd(Unsigned(v)) {
        AcceptedIsPlainUnlessOdd(v);
      } else {
        SignedOdd(v);
        CanonicalKeepsOdd(v);
        OddIsNotPlain(Canonicalize(v));
      }
    }
  }

  lemma SignedOdd(v: string)
    requires HasOdd(Unsigned(v))
    ensures HasOdd(v)
  {
    var i :| 0 <= i < |Unsigned(v)| && Odd(Unsigned(v)[i]);
    if Negative(v) {
      assert v[i + 1] == Unsigned(v)[i];
    }
  }

  /** Sixteen in hexadecimal loses its prefix, a thousand keeps its separator: neither is a decimal. */
  lemma OtherFormsSlipThrough()
    ensures CanonicalText("0x10", true) == Ok("x10") && !ValidLexeme("x10")
    ensures CanonicalText("1_000", true) == Ok("1_000") && !ValidLexeme("1_000")
  {
    Hexadecimal();
    Separated();
    assert Odd("x10"[0]) && Odd("1_000"[1]);
    OddIsNotPlain("x10");
    OddIsNotPlain("1_000");
  }

  lemma Hexadecimal()
    ensures CanonicalText("0x10", true) == Ok("x10")
  {
    assert "0x10"[2..] == "10" && "10"[1..] == "0" && "0"[1..] == "";
    assert RatAccepts("0x10");
    assert DotAt("0x10") == 4 by {
      assert "0x10"[1..] == "x10" && "x10"[1..] == "10";
    }
    assert "0x10"[..4] == "0x10" && "0x10"[1..] == "x10";
    assert TrimLeft("0x10", '0') == TrimLeft("x10", '0') == "x10";
  }

  lemma Separated()
    ensures CanonicalText("1_000", true) == Ok("1_000")
  {
    assert "1_000"[1..] == "_000" && "_000"[1..] == "000" && "000"[1..] == "00" && "00"[1..] == "0" && "0"[1..] == "";
    assert RatAccepts("1_000");
    assert DotAt("1_000") == 5;
    assert "1_000"[..5] == "1_000";
    assert TrimLeft("1_000", '0') == "1_000";
  }
}
