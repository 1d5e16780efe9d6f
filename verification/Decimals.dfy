/**
 Canonical decimals. A provider lexeme is an optional minus sign, digits and at
 most one dot; its value is the rational numerator / 10^scale.
 */
module Decimals {
  import opened Wrappers

  predicate IsDigit(c: char) { '0' <= c <= '9' }

  predicate AllDigits(s: string) { forall i :: 0 <= i < |s| ==> IsDigit(s[i]) }

  // ---------- lexemes and their values ----------

  /** The position of the first dot, or the length when there is none. */
  function DotAt(s: string): (n: nat)
    ensures n <= |s| && '.' !in s[..n]
    ensures n < |s| ==> s[n] == '.'
    ensures n == |s| <==> '.' !in s
  {
    if s == "" then 0 else if s[0] == '.' then 0 else 1 + DotAt(s[1..])
  }

  datatype Decimal = Decimal(negative: bool, whole: string, fraction: string)
  {
    predicate Valid() { AllDigits(whole) && AllDigits(fraction) && whole + fraction != "" }
  }

  predicate Negative(v: string) { v != "" && v[0] == '-' }

  function Unsigned(v: string): string { if Negative(v) then v[1..] else v }

  function Whole(body: string): string { body[..DotAt(body)] }

  function Fraction(body: string): string { if DotAt(body) < |body| then body[DotAt(body) + 1..] else "" }

  function Parse(v: string): Decimal
  {
    Decimal(Negative(v), Whole(Unsigned(v)), Fraction(Unsigned(v)))
  }

  predicate ValidLexeme(v: string) { Parse(v).Valid() }

  function Pow10(n: nat): (p: nat)
    ensures p > 0
  {
    if n == 0 then 1 else 10 * Pow10(n - 1)
  }

  function DigitsValue(s: string): nat
    requires AllDigits(s)
  {
    if s == "" then 0 else 10 * DigitsValue(s[..|s| - 1]) + (s[|s| - 1] as int - '0' as int)
  }

  function Magnitude(d: Decimal): nat
    requires d.Valid()
  {
    DigitsValue(d.whole + d.fraction)
  }

  function Numerator(d: Decimal): int
    requires d.Valid()
  {
    var m: int := Magnitude(d);
    if d.negative then -m else m
  }

  function Scale(d: Decimal): nat { |d.fraction| }

  /** big.Rat.Cmp of two lexemes, by cross multiplication. */
  function CompareDecimal(a: string, b: string): int
    requires ValidLexeme(a) && ValidLexeme(b)
  {
    var x, y := Parse(a), Parse(b);
    Numerator(x) * Pow10(Scale(y)) - Numerator(y) * Pow10(Scale(x))
  }

  predicate Equal(x: Decimal, y: Decimal)
    requires x.Valid() && y.Valid()
  {
    Numerator(x) * Pow10(Scale(y)) == Numerator(y) * Pow10(Scale(x))
  }

  predicate SameValue(a: string, b: string)
    requires ValidLexeme(a) && ValidLexeme(b)
  {
    CompareDecimal(a, b) == 0
  }

  // ---------- CanonicalDecimal, step by step ----------

  function TrimRight(s: string, c: char): string
  {
    if s != "" && s[|s| - 1] == c then TrimRight(s[..|s| - 1], c) else s
  }

  function TrimLeft(s: string, c: char): string
  {
    if s != "" && s[0] == c then TrimLeft(s[1..], c) else s
  }

  function TrimFraction(v: string): string
  {
    if '.' in v then TrimRight(TrimRight(v, '0'), '.') else v
  }

  /** The text steps of the function, after the value has been accepted. */
  function Canonicalize(v: string): string
  {
    var v1 := TrimFraction(v);
    var v2 := Unsigned(v1);
    var trimmed := TrimLeft(Whole(v2), '0');
    var integer := if trimmed == "" then "0" else trimmed;
    var result := if Fraction(v2) != "" then integer + "." + Fraction(v2) else integer;
    if Negative(v1) && result != "0" then "-" + result else result
  }

  datatype DecimalError = InvalidDecimal

  function CanonicalDecimal(v: string, nonNegative: bool): Result<string, DecimalError>
  {
    if !ValidLexeme(v) then Err(InvalidDecimal)
    else if nonNegative && Numerator(Parse(v)) < 0 then Err(InvalidDecimal)
    else Ok(Canonicalize(v))
  }

  // ---------- the same steps on parsed decimals ----------

  function Normal(d: Decimal): Decimal
  {
    var whole := if TrimLeft(d.whole, '0') == "" then "0" else TrimLeft(d.whole, '0');
    var fraction := TrimRight(d.fraction, '0');
    Decimal(d.negative && (whole != "0" || fraction != ""), whole, fraction)
  }

  function Render(d: Decimal): string
  {
    var body := if d.fraction != "" then d.whole + "." + d.fraction else d.whole;
    if d.negative then "-" + body else body
  }

  /** No leading zero beyond a lone one, no trailing zero, no negative zero. */
  predicate IsNormal(d: Decimal)
  {
    && d.Valid() && d.whole != "" && (d.whole[0] == '0' ==> d.whole == "0")
    && (d.fraction != "" ==> d.fraction[|d.fraction| - 1] != '0')
    && (d.negative ==> d.whole != "0" || d.fraction != "")
  }

  lemma {:induction false} TrimRightOf(s: string, c: char)
    ensures var t := TrimRight(s, c);
            && t <= s && (t != "" ==> t[|t| - 1] != c)
            && forall i :: |t| <= i < |s| ==> s[i] == c
  {
    if s != "" && s[|s| - 1] == c {
      TrimRightOf(s[..|s| - 1], c);
    }
  }

  lemma {:induction false} TrimRightIs(s: string, t: string, c: char)
    requires t <= s && (t != "" ==> t[|t| - 1] != c)
    requires forall i :: |t| <= i < |s| ==> s[i] == c
    ensures TrimRight(s, c) == t
    decreases |s|
  {
    if |t| < |s| {
      TrimRightIs(s[..|s| - 1], t, c);
    } else {
      assert s == t;
    }
  }

  lemma {:induction false} TrimLeftOf(s: string, c: char)
    ensures var t := TrimLeft(s, c);
            && |t| <= |s| && s[|s| - |t|..] == t && (t != "" ==> t[0] != c)
            && forall i :: 0 <= i < |s| - |t| ==> s[i] == c
  {
    if s != "" && s[0] == c {
      TrimLeftOf(s[1..], c);
      var t := TrimLeft(s, c);
      assert s[|s| - |t|..] == s[1..][|s| - 1 - |t|..];
      assert forall i :: 0 < i < |s| - |t| ==> s[i] == s[1..][i - 1];
    }
  }

  // ---------- spelling and parsing ----------

  function Body(whole: string, dotted: bool, fraction: string): string
  {
    whole + if dotted then "." + fraction else ""
  }

  function Signed(negative: bool, body: string): string
  {
    (if negative then "-" else "") + body
  }

  lemma {:induction false} DotAfterDigits(digits: string, rest: string)
    requires AllDigits(digits) && (rest == "" || rest[0] == '.')
    ensures DotAt(digits + rest) == |digits|
    decreases |digits|
  {
    if digits != "" {
      assert (digits + rest)[1..] == digits[1..] + rest;
      DotAfterDigits(digits[1..], rest);
    } else {
      assert digits + rest == rest;
    }
  }

  lemma BodyParts(whole: string, dotted: bool, fraction: string)
    requires AllDigits(whole)
    ensures var body := Body(whole, dotted, fraction);
            Whole(body) == whole && Fraction(body) == if dotted then fraction else ""
  {
    var rest := if dotted then "." + fraction else "";
    DotAfterDigits(whole, rest);
    assert (whole + rest)[..|whole|] == whole;
    if dotted {
      assert (whole + rest)[|whole| + 1..] == fraction;
    }
  }

  lemma BodySplit(body: string)
    ensures body == Body(Whole(body), '.' in body, Fraction(body))
    ensures '.' !in body ==> Fraction(body) == ""
  {
    var dot := DotAt(body);
    if dot < |body| {
      assert body == body[..dot] + ("." + body[dot + 1..]);
    } else {
      assert body[..dot] == body;
    }
  }

  lemma SignedParts(negative: bool, body: string)
    requires !Negative(body)
    ensures Negative(Signed(negative, body)) == negative && Unsigned(Signed(negative, body)) == body
  {
    if negative {
      assert Signed(negative, body)[1..] == body;
    } else {
      assert Signed(negative, body) == body;
    }
  }

  lemma SignedSplit(v: string)
    ensures v == Signed(Negative(v), Unsigned(v)) && ('.' in v <==> '.' in Unsigned(v))
  {
    if Negative(v) {
      assert v == "-" + v[1..];
    } else {
      assert v == "" + v;
    }
  }

  lemma BodyUnsigned(whole: string, dotted: bool, fraction: string)
    requires AllDigits(whole)
    ensures !Negative(Body(whole, dotted, fraction))
  {
    var body := Body(whole, dotted, fraction);
    if whole != "" {
      assert body[0] == whole[0];
    } else if dotted {
      assert body[0] == '.';
    }
  }

  function Spell(d: Decimal, dotted: bool): string
  {
    Signed(d.negative, Body(d.whole, dotted, d.fraction))
  }

  lemma SpellParse(d: Decimal, dotted: bool)
    requires AllDigits(d.whole) && (!dotted ==> d.fraction == "")
    ensures Parse(Spell(d, dotted)) == d
  {
    hide Body, Signed, Negative, Unsigned, Whole, Fraction;
    BodyUnsigned(d.whole, dotted, d.fraction);
    SignedParts(d.negative, Body(d.whole, dotted, d.fraction));
    BodyParts(d.whole, dotted, d.fraction);
  }

  lemma ParseSpell(v: string)
    ensures v == Spell(Parse(v), '.' in v) && ('.' !in v ==> Parse(v).fraction == "")
  {
    hide Body, Signed, Negative, Unsigned, Whole, Fraction;
    SignedSplit(v);
    BodySplit(Unsigned(v));
  }

  /** A text keeps everything up to its last other character. */
  lemma TrimsTo(front: string, zeros: string, c: char)
    requires front != "" ==> front[|front| - 1] != c
    requires forall i :: 0 <= i < |zeros| ==> zeros[i] == c
    ensures TrimRight(front + zeros, c) == front
  {
    var v := front + zeros;
    forall i | |front| <= i < |v| ensures v[i] == c {
      assert v[i] == zeros[i - |front|];
    }
    hide TrimRight;
    TrimRightIs(v, front, c);
  }

  lemma ZerosDropped(head: string, fraction: string)
    ensures TrimRight(head + ("." + fraction), '0') == head + ("." + TrimRight(fraction, '0'))
  {
    var f := TrimRight(fraction, '0');
    TrimRightOf(fraction, '0');
    hide TrimRight;
    var front := head + ("." + f);
    assert front[|front| - 1] == ("." + f)[|f|];
    assert head + ("." + fraction) == front + fraction[|f|..];
    TrimsTo(front, fraction[|f|..], '0');
  }

  lemma DotDropped(head: string)
    requires head == "" || head[|head| - 1] != '.'
    ensures TrimRight(head + ("." + ""), '.') == head
  {
    hide TrimRight;
    TrimsTo(head, ".", '.');
    assert "." + "" == ".";
  }

  lemma NothingDropped(text: string)
    requires text != "" && text[|text| - 1] != '.'
    ensures TrimRight(text, '.') == text
  {
    hide TrimRight;
    TrimsTo(text, "", '.');
    assert text + "" == text;
  }

  /** The two trims drop the fraction's zeros, and the dot with them when nothing is left. */
  lemma TrimSpelled(head: string, fraction: string)
    requires head == "" || head[|head| - 1] != '.'
    requires AllDigits(fraction)
    ensures var f := TrimRight(fraction, '0');
            TrimRight(TrimRight(head + ("." + fraction), '0'), '.') == head + if f != "" then "." + f else ""
  {
    var f := TrimRight(fraction, '0');
    ZerosDropped(head, fraction);
    TrimRightOf(fraction, '0');
    hide TrimRight;
    if f == "" {
      DotDropped(head);
      assert head + "" == head;
    } else {
      var text := head + ("." + f);
      assert text[|text| - 1] == f[|f| - 1] == fraction[|f| - 1];
      NothingDropped(text);
    }
  }

  lemma TrimFractionSpells(v: string)
    requires ValidLexeme(v)
    ensures var d := Parse(v);
            var f := TrimRight(d.fraction, '0');
            TrimFraction(v) == Spell(d.(fraction := f), f != "")
  {
    var d := Parse(v);
    ParseSpell(v);
    var f, head := TrimRight(d.fraction, '0'), Signed(d.negative, d.whole);
    hide Parse, TrimRight;
    SpellHead(d, '.' in v);
    SpellHead(d.(fraction := f), f != "");
    if '.' in v {
      HeadEnds(d.negative, d.whole);
      TrimSpelled(head, d.fraction);
    } else {
      assert TrimRight("", '0') == "" by {
        TrimRightIs("", "", '0');
      }
    }
  }

  lemma SpellHead(d: Decimal, dotted: bool)
    ensures Spell(d, dotted) == Signed(d.negative, d.whole) + if dotted then "." + d.fraction else ""
  {
  }

  lemma HeadEnds(negative: bool, whole: string)
    requires AllDigits(whole)
    ensures var head := Signed(negative, whole); head == "" || head[|head| - 1] != '.'
  {
    var head := Signed(negative, whole);
    if whole != "" {
      assert head[|head| - 1] == whole[|whole| - 1];
    }
  }

  /** The text steps spell the normal form of the parsed lexeme. */
  lemma CanonicalizeRenders(v: string)
    requires ValidLexeme(v)
    ensures Canonicalize(v) == Render(Normal(Parse(v)))
  {
    var d := Parse(v);
    var f := TrimRight(d.fraction, '0');
    TrimFractionSpells(v);
    SpellParse(d.(fraction := f), f != "");
    assert Parse(TrimFraction(v)) == d.(fraction := f);
    hide Parse, TrimFraction, Spell, TrimRight, TrimLeft, Negative, Unsigned, Whole, Fraction;
    assert Negative(TrimFraction(v)) == d.negative && Whole(Unsigned(TrimFraction(v))) == d.whole && Fraction(Unsigned(TrimFraction(v))) == f by {
      ParseParts(TrimFraction(v));
    }
    RenderCases(d.negative, TrimLeft(d.whole, '0'), f);
  }

  lemma ParseParts(v: string)
    ensures Parse(v) == Decimal(Negative(v), Whole(Unsigned(v)), Fraction(Unsigned(v)))
  {
  }

  lemma RenderCases(negative: bool, trimmed: string, f: string)
    ensures var integer := if trimmed == "" then "0" else trimmed;
            var result := if f != "" then integer + "." + f else integer;
            (if negative && result != "0" then "-" + result else result) ==
            Render(Decimal(negative && (integer != "0" || f != ""), integer, f))
  {
    var integer := if trimmed == "" then "0" else trimmed;
    var result := if f != "" then integer + "." + f else integer;
    assert result == "0" <==> integer == "0" && f == "" by {
      if f != "" {
        assert result != "0" by {
          assert |result| >= 3;
        }
      }
    }
  }

  lemma NormalShape(d: Decimal)
    requires d.Valid()
    ensures IsNormal(Normal(d))
  {
    TrimLeftOf(d.whole, '0');
    TrimRightOf(d.fraction, '0');
    var w := TrimLeft(d.whole, '0');
    assert forall i :: 0 <= i < |w| ==> w[i] == d.whole[|d.whole| - |w| + i];
  }

  // ---------- arithmetic on digit strings ----------

  lemma TimesTen(x: int, p: int)
    ensures x * (10 * p) == 10 * (x * p)
  {
  }

  lemma {:induction false} ValueAppend(s: string, t: string)
    requires AllDigits(s) && AllDigits(t)
    ensures AllDigits(s + t) && DigitsValue(s + t) == DigitsValue(s) * Pow10(|t|) + DigitsValue(t)
    decreases |t|
  {
    if t == "" {
      assert s + t == s;
    } else {
      var front := t[..|t| - 1];
      ValueAppend(s, front);
      assert (s + t)[..|s + t| - 1] == s + front;
      TimesTen(DigitsValue(s), Pow10(|front|));
    }
  }

  lemma {:induction false} ZerosValue(s: string)
    requires forall i :: 0 <= i < |s| ==> s[i] == '0'
    ensures AllDigits(s) && DigitsValue(s) == 0
  {
    if s != "" {
      ZerosValue(s[..|s| - 1]);
    }
  }

  lemma {:induction false} ValueBound(s: string)
    requires AllDigits(s)
    ensures DigitsValue(s) < Pow10(|s|)
    ensures s != "" && s[0] != '0' ==> DigitsValue(s) >= Pow10(|s| - 1)
  {
    if s != "" {
      ValueBound(s[..|s| - 1]);
      if |s| == 1 {
        assert DigitsValue(s[..0]) == 0;
      }
    }
  }

  lemma {:induction false} PowAdd(a: nat, b: nat)
    ensures Pow10(a + b) == Pow10(a) * Pow10(b)
    decreases b
  {
    if b > 0 {
      PowAdd(a, b - 1);
    }
  }

  lemma PowMonotone(a: nat, b: nat)
    requires a <= b
    ensures Pow10(a) <= Pow10(b)
  {
    PowAdd(a, b - a);
    Product(Pow10(a), Pow10(b - a));
  }

  /** Digit strings of one length are determined by their value. */
  lemma {:induction false} SameLengthInjective(s: string, t: string)
    requires AllDigits(s) && AllDigits(t) && |s| == |t| && DigitsValue(s) == DigitsValue(t)
    ensures s == t
    decreases |s|
  {
    if s != "" {
      SameLengthInjective(s[..|s| - 1], t[..|t| - 1]);
      assert s == s[..|s| - 1] + [s[|s| - 1]] && t == t[..|t| - 1] + [t[|t| - 1]];
    }
  }

  /** Without leading zeros the value also determines the length. */
  lemma NoLeadingZeros(s: string, t: string)
    requires AllDigits(s) && AllDigits(t) && s != "" && t != ""
    requires (s[0] == '0' ==> s == "0") && (t[0] == '0' ==> t == "0")
    requires DigitsValue(s) == DigitsValue(t)
    ensures s == t
  {
    LengthByValue(s, t);
    LengthByValue(t, s);
    SameLengthInjective(s, t);
  }

  lemma LengthByValue(s: string, t: string)
    requires AllDigits(s) && AllDigits(t) && s != "" && t != "" && (t[0] == '0' ==> t == "0")
    ensures |s| < |t| ==> DigitsValue(s) < DigitsValue(t)
  {
    ValueBound(s);
    ValueBound(t);
    if |s| < |t| {
      PowMonotone(|s|, |t| - 1);
    }
  }

  // ---------- integer arithmetic ----------

  lemma Product(x: nat, y: nat)
    requires y > 0
    ensures x <= x * y && (x > 0 ==> x * y > 0)
  {
  }

  lemma Negate(x: int, y: int)
    ensures (-x) * y == -(x * y)
  {
  }

  lemma Rearrange(m: int, p: int, q: int)
    ensures (m * p) * q == m * (q * p)
  {
    assert q * p == p * q;
  }

  lemma NoZeroFactor(d: int, q: int)
    requires q > 0
    ensures d * q == 0 ==> d == 0
  {
    if d > 0 {
      Product(d, q);
    } else if d < 0 {
      Product(-d, q);
      Negate(d, q);
    }
  }

  lemma CancelFactor(x: int, y: int, q: int)
    requires q > 0 && x * q == y * q
    ensures x == y
  {
    assert (x - y) * q == x * q - y * q;
    NoZeroFactor(x - y, q);
  }

  lemma RationalTransitive(a: int, p: int, b: int, q: int, c: int, r: int)
    requires q > 0 && a * q == b * p && b * r == c * q
    ensures a * r == c * p
  {
    calc {
      (a * r) * q;
      == { Rearrange(a, r, q); Rearrange(a, q, r); }
      (a * q) * r;
      (b * p) * r;
      == { Rearrange(b, p, r); Rearrange(b, r, p); }
      (b * r) * p;
      (c * q) * p;
      == { Rearrange(c, q, p); Rearrange(c, p, q); }
      (c * p) * q;
    }
    CancelFactor(a * r, c * p, q);
  }

  lemma DivisionUnique(a: nat, r: nat, b: nat, s: nat, p: nat)
    requires r < p && s < p && a * p + r == b * p + s
    ensures a == b && r == s
  {
    QuotientBound(a, r, b, s, p);
    QuotientBound(b, s, a, r, p);
  }

  lemma QuotientBound(a: nat, r: nat, b: nat, s: nat, p: nat)
    requires r < p
    ensures a < b ==> a * p + r < b * p + s
  {
    if a < b {
      Product(p, b - a);
      assert b * p == a * p + (b - a) * p;
    }
  }

  // ---------- the value is preserved ----------

  lemma TimesZero(n: int)
    ensures 0 * n == 0
  {
  }

  lemma LeadingZeros(zeros: string, digits: string)
    requires AllDigits(digits) && forall i :: 0 <= i < |zeros| ==> zeros[i] == '0'
    ensures AllDigits(zeros + digits) && DigitsValue(zeros + digits) == DigitsValue(digits)
  {
    ZerosValue(zeros);
    ValueAppend(zeros, digits);
    TimesZero(Pow10(|digits|));
    hide DigitsValue, Pow10;
  }

  lemma TrailingZeros(digits: string, tail: string)
    requires AllDigits(digits) && forall i :: 0 <= i < |tail| ==> tail[i] == '0'
    ensures AllDigits(digits + tail) && DigitsValue(digits + tail) == DigitsValue(digits) * Pow10(|tail|)
  {
    ZerosValue(tail);
    hide DigitsValue, Pow10;
    ValueAppend(digits, tail);
  }

  /** Dropping leading zeros of the whole part and trailing zeros of the fraction scales the digits' value. */
  lemma TrimmedValue(zeros: string, whole: string, fraction: string, tail: string)
    requires AllDigits(whole) && AllDigits(fraction)
    requires (forall i :: 0 <= i < |zeros| ==> zeros[i] == '0') && (forall i :: 0 <= i < |tail| ==> tail[i] == '0')
    ensures AllDigits((zeros + whole) + (fraction + tail)) && AllDigits(whole + fraction)
    ensures DigitsValue((zeros + whole) + (fraction + tail)) == DigitsValue(whole + fraction) * Pow10(|tail|)
  {
    hide DigitsValue, Pow10, AllDigits;
    LeadingZeros(zeros, whole);
    TrailingZeros(fraction, tail);
    assert AllDigits(zeros + whole) && AllDigits(fraction + tail);
    ValueAppend(whole, fraction);
    TrailingZeros(whole + fraction, tail);
    LeadingZeros(zeros, whole + fraction + tail);
    assert (zeros + whole) + (fraction + tail) == zeros + (whole + fraction + tail);
  }

  /** The digits a trim leaves, and what it drops. */
  lemma TrimmedParts(d: Decimal) returns (zeros: string, w: string, f: string, tail: string)
    requires d.Valid()
    ensures w == TrimLeft(d.whole, '0') && f == TrimRight(d.fraction, '0') && AllDigits(w) && AllDigits(f)
    ensures d.whole == zeros + w && d.fraction == f + tail
    ensures (forall i :: 0 <= i < |zeros| ==> zeros[i] == '0') && (forall i :: 0 <= i < |tail| ==> tail[i] == '0')
  {
    TrimLeftOf(d.whole, '0');
    TrimRightOf(d.fraction, '0');
    w, f := TrimLeft(d.whole, '0'), TrimRight(d.fraction, '0');
    hide TrimLeft, TrimRight;
    zeros, tail := d.whole[..|d.whole| - |w|], d.fraction[|f|..];
    assert forall i :: 0 <= i < |w| ==> w[i] == d.whole[|d.whole| - |w| + i];
  }

  lemma NormalMagnitude(d: Decimal)
    requires d.Valid()
    ensures var n := Normal(d);
            && n.Valid() && |n.fraction| <= |d.fraction|
            && Magnitude(d) == Magnitude(n) * Pow10(|d.fraction| - |n.fraction|)
  {
    NormalShape(d);
    hide DigitsValue, Pow10, TrimLeft, TrimRight, AllDigits;
    var zeros, w, f, tail := TrimmedParts(d);
    TrimmedValue(zeros, w, f, tail);
    LoneZero(f);
    assert Magnitude(d) == DigitsValue(w + f) * Pow10(|tail|);
  }

  lemma LoneZero(f: string)
    requires AllDigits(f)
    ensures DigitsValue("0" + f) == DigitsValue("" + f)
  {
    ZerosValue("0");
    ValueAppend("0", f);
    assert "" + f == f;
  }

  lemma ZeroMagnitude(d: Decimal)
    requires IsNormal(d)
    ensures Magnitude(d) == 0 <==> d.whole == "0" && d.fraction == ""
  {
    ValueAppend(d.whole, d.fraction);
    ValueBound(d.whole);
    if d.fraction != "" {
      var f := d.fraction;
      assert DigitsValue(f) == 10 * DigitsValue(f[..|f| - 1]) + (f[|f| - 1] as int - '0' as int);
      assert DigitsValue(f) > 0;
    } else if d.whole != "0" {
      Product(DigitsValue(d.whole), Pow10(0));
    } else {
      ZerosValue("0");
    }
  }

  lemma NormalEqual(d: Decimal)
    requires d.Valid()
    ensures Normal(d).Valid() && Equal(d, Normal(d))
    ensures Numerator(Normal(d)) < 0 <==> Numerator(d) < 0
  {
    NormalMagnitude(d);
    NormalShape(d);
    var n := Normal(d);
    hide Normal, IsNormal, Magnitude, Pow10;
    ZeroMagnitude(n);
    var k := |d.fraction| - |n.fraction|;
    PowAdd(|n.fraction|, k);
    Rearrange(Magnitude(n), Pow10(k), Pow10(|n.fraction|));
    Product(Magnitude(n), Pow10(k));
    Negate(Magnitude(d), Pow10(|n.fraction|));
    Negate(Magnitude(n), Pow10(|d.fraction|));
    NormalSign(d);
  }

  lemma NormalSign(d: Decimal)
    requires d.Valid()
    ensures var n := Normal(d); n.negative == (d.negative && !(n.whole == "0" && n.fraction == ""))
  {
  }

  // ---------- main results ----------

  lemma RenderSpells(d: Decimal)
    ensures Render(d) == Spell(d, d.fraction != "")
  {
  }

  lemma NormalFixed(d: Decimal)
    requires IsNormal(d)
    ensures Normal(d) == d
  {
    TrimRightIs(d.fraction, d.fraction, '0');
    if d.whole == "0" {
      assert TrimLeft("0", '0') == TrimLeft("0"[1..], '0') == "";
    }
  }

  lemma RenderNormal(d: Decimal)
    requires IsNormal(d)
    ensures ValidLexeme(Render(d)) && Parse(Render(d)) == d && Normal(d) == d
  {
    NormalFixed(d);
    hide Render, Spell, Parse, Normal;
    RenderSpells(d);
    SpellParse(d, d.fraction != "");
  }

  /** A canonical decimal is a valid lexeme of the same value; a negative value is refused when asked. */
  lemma CanonicalPreservesValue(v: string, nonNegative: bool)
    requires ValidLexeme(v)
    ensures var r := CanonicalDecimal(v, nonNegative);
            && (r.Err? <==> nonNegative && Numerator(Parse(v)) < 0)
            && (r.Ok? ==> ValidLexeme(r.value) && SameValue(v, r.value))
            && (r.Ok? && nonNegative ==> Numerator(Parse(r.value)) >= 0)
  {
    hide Canonicalize, Normal, Render, Parse, Numerator;
    CanonicalizeRenders(v);
    NormalShape(Parse(v));
    RenderNormal(Normal(Parse(v)));
    NormalEqual(Parse(v));
  }

  /** Canonical decimals are fixed points. */
  lemma CanonicalIdempotent(v: string, nonNegative: bool)
    requires CanonicalDecimal(v, nonNegative).Ok?
    ensures var c := CanonicalDecimal(v, nonNegative).value; CanonicalDecimal(c, nonNegative) == Ok(c)
  {
    CanonicalPreservesValue(v, nonNegative);
    hide Canonicalize, Normal, Render, Parse, Numerator;
    CanonicalizeRenders(v);
    NormalShape(Parse(v));
    RenderNormal(Normal(Parse(v)));
    CanonicalizeRenders(Canonicalize(v));
  }

  lemma EqualTransitive(x: Decimal, y: Decimal, z: Decimal)
    requires x.Valid() && y.Valid() && z.Valid() && Equal(x, y) && Equal(y, z)
    ensures Equal(x, z) && Equal(y, x)
  {
    hide Numerator, Pow10;
    RationalTransitive(Numerator(x), Pow10(Scale(x)), Numerator(y), Pow10(Scale(y)), Numerator(z), Pow10(Scale(z)));
  }

  /** A normal decimal with a longer fraction than another cannot equal it: its last digit is not zero. */
  lemma NormalScales(x: Decimal, y: Decimal)
    requires IsNormal(x) && IsNormal(y) && Equal(x, y)
    ensures Scale(x) <= Scale(y)
  {
    if Scale(x) > Scale(y) {
      LastDigitCounts(x);
      var k := Scale(x) - Scale(y);
      hide IsNormal, Magnitude, Pow10;
      PowAdd(Scale(y), k);
      Rearrange(Numerator(y), Pow10(k), Pow10(Scale(y)));
      CancelFactor(Numerator(x), Numerator(y) * Pow10(k), Pow10(Scale(y)));
      TenDivides(Numerator(y), k);
    }
  }

  lemma LastDigitCounts(x: Decimal)
    requires IsNormal(x) && x.fraction != ""
    ensures Numerator(x) % 10 != 0
  {
    var s := x.whole + x.fraction;
    assert s[|s| - 1] == x.fraction[|x.fraction| - 1];
  }

  lemma TenTimes(m: int)
    ensures (10 * m) % 10 == 0
  {
  }

  lemma TenDivides(n: int, k: nat)
    requires k > 0
    ensures (n * Pow10(k)) % 10 == 0
  {
    Rearrange(n, 10, Pow10(k - 1));
    var m := n * Pow10(k - 1);
    assert n * Pow10(k) == 10 * m by {
      assert Pow10(k) == 10 * Pow10(k - 1);
      assert n * (10 * Pow10(k - 1)) == 10 * (n * Pow10(k - 1));
    }
    hide Pow10;
    TenTimes(m);
  }

  lemma NormalUnique(x: Decimal, y: Decimal)
    requires IsNormal(x) && IsNormal(y) && Equal(x, y)
    ensures x == y
  {
    EqualTransitive(x, y, y);
    NormalScales(x, y);
    NormalScales(y, x);
    CancelFactor(Numerator(x), Numerator(y), Pow10(Scale(x)));
    ZeroMagnitude(x);
    ZeroMagnitude(y);
    assert Magnitude(x) == Magnitude(y) && x.negative == y.negative;
    hide Pow10, DigitsValue;
    ValueAppend(x.whole, x.fraction);
    ValueAppend(y.whole, y.fraction);
    ValueBound(x.fraction);
    ValueBound(y.fraction);
    DivisionUnique(DigitsValue(x.whole), DigitsValue(x.fraction), DigitsValue(y.whole), DigitsValue(y.fraction), Pow10(Scale(x)));
    NoLeadingZeros(x.whole, y.whole);
    SameLengthInjective(x.fraction, y.fraction);
  }

  /** Two lexemes have one canonical form exactly when they have one value. */
  lemma CanonicalUnique(a: string, b: string)
    requires ValidLexeme(a) && ValidLexeme(b)
    ensures CanonicalDecimal(a, false) == CanonicalDecimal(b, false) <==> SameValue(a, b)
  {
    hide Canonicalize, Normal, Render, Parse, Equal;
    var x, y := Parse(a), Parse(b);
    CanonicalizeRenders(a);
    CanonicalizeRenders(b);
    NormalShape(x);
    NormalShape(y);
    RenderNormal(Normal(x));
    RenderNormal(Normal(y));
    assert SameValue(a, b) <==> Equal(x, y) by {
      SameValueIsEqual(a, b);
    }
    SameNormal(x, y);
  }

  lemma SameValueIsEqual(a: string, b: string)
    requires ValidLexeme(a) && ValidLexeme(b)
    ensures SameValue(a, b) <==> Equal(Parse(a), Parse(b))
  {
  }

  lemma SameNormal(x: Decimal, y: Decimal)
    requires x.Valid() && y.Valid()
    ensures Normal(x) == Normal(y) <==> Equal(x, y)
  {
    NormalShape(x);
    NormalShape(y);
    NormalEqual(x);
    NormalEqual(y);
    hide Normal, IsNormal, Equal;
    EqualSelf(x);
    EqualSelf(y);
    EqualTransitive(x, Normal(x), Normal(x)) by {
      EqualSelf(Normal(x));
    }
    EqualTransitive(y, Normal(y), Normal(y)) by {
      EqualSelf(Normal(y));
    }
    if Equal(x, y) {
      EqualTransitive(Normal(x), x, y);
      EqualTransitive(Normal(x), y, Normal(y));
      NormalUnique(Normal(x), Normal(y));
    }
    if Normal(x) == Normal(y) {
      EqualTransitive(x, Normal(x), y);
    }
  }

  lemma EqualSelf(x: Decimal)
    requires x.Valid()
    ensures Equal(x, x)
  {
  }
}
