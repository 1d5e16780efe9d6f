/** String order, field joining and integer printing, as the row keys and sorts use them. */
module Text {
  /** The order of Go's `<` on strings. */
  predicate Less(a: string, b: string)
    decreases |a|
  {
    if b == "" then false
    else if a == "" then true
    else if a[0] != b[0] then a[0] < b[0]
    else Less(a[1..], b[1..])
  }

  lemma {:induction false} LessTrichotomy(a: string, b: string)
    ensures Less(a, b) || Less(b, a) || a == b
    ensures !(Less(a, b) && Less(b, a))
    decreases |a|
  {
    if a != "" && b != "" && a[0] == b[0] {
      LessTrichotomy(a[1..], b[1..]);
      assert a == [a[0]] + a[1..] && b == [b[0]] + b[1..];
    }
  }

  lemma {:induction false} LessTransitive(a: string, b: string, c: string)
    requires Less(a, b) && Less(b, c)
    ensures Less(a, c)
    decreases |a|
  {
    if a != "" && b[0] == a[0] && c[0] == b[0] {
      LessTransitive(a[1..], b[1..], c[1..]);
    }
  }

  // ---------- blank text ----------

  /** unicode.IsSpace. */
  predicate IsSpace(c: char)
  {
    || '\t' <= c <= '\r' || c == ' ' || c == '\U{85}' || c == '\U{a0}' || c == '\U{1680}'
    || '\U{2000}' <= c <= '\U{200a}' || c == '\U{2028}' || c == '\U{2029}' || c == '\U{202f}' || c == '\U{205f}' || c == '\U{3000}'
  }

  /** strings.TrimSpace. */
  function TrimSpace(s: string): string
    decreases |s|
  {
    if s == "" then ""
    else if IsSpace(s[0]) then TrimSpace(s[1..])
    else if IsSpace(s[|s| - 1]) then TrimSpace(s[..|s| - 1])
    else s
  }

  lemma {:induction false} TrimSpaceTrims(s: string)
    ensures TrimSpace(s) != "" ==> !IsSpace(TrimSpace(s)[0]) && !IsSpace(TrimSpace(s)[|TrimSpace(s)| - 1])
    ensures TrimSpace(TrimSpace(s)) == TrimSpace(s)
    decreases |s|
  {
    if s != "" {
      if IsSpace(s[0]) {
        TrimSpaceTrims(s[1..]);
      } else if IsSpace(s[|s| - 1]) {
        TrimSpaceTrims(s[..|s| - 1]);
      }
    }
  }

  lemma TrimmedAlready(s: string)
    requires s != "" && !IsSpace(s[0]) && !IsSpace(s[|s| - 1])
    ensures TrimSpace(s) == s
  {
  }

  /** Text is blank exactly when every character is a space. */
  lemma {:induction false} BlankIff(s: string)
    ensures TrimSpace(s) == "" <==> forall i :: 0 <= i < |s| ==> IsSpace(s[i])
    decreases |s|
  {
    if s != "" {
      if IsSpace(s[0]) {
        BlankIff(s[1..]);
        assert forall i :: 0 < i < |s| ==> s[i] == s[1..][i - 1];
      } else if IsSpace(s[|s| - 1]) {
        BlankIff(s[..|s| - 1]);
      }
    }
  }

  // ---------- length in bytes ----------

  /** The bytes of a character in UTF-8. */
  function ByteLength(c: char): (n: nat)
    ensures 1 <= n <= 4
  {
    if c < '\U{80}' then 1 else if c < '\U{800}' then 2 else if c < '\U{10000}' then 3 else 4
  }

  /** Go's len of a string. */
  function Utf8Length(s: string): nat
  {
    if s == "" then 0 else Utf8Length(s[..|s| - 1]) + ByteLength(s[|s| - 1])
  }

  lemma {:induction false} EveryByteLength(s: string, n: nat)
    requires forall i :: 0 <= i < |s| ==> ByteLength(s[i]) == n
    ensures Utf8Length(s) == |s| * n
    decreases |s|
  {
    if s != "" {
      EveryByteLength(s[..|s| - 1], n);
    }
  }

  // ---------- joined keys ----------

  const UNIT_SEPARATOR: char := '\U{1f}'

  predicate Plain(field: string) { UNIT_SEPARATOR !in field }

  /** strings.Join(fields, "\x1f"). */
  function Join(fields: seq<string>): string
  {
    if |fields| == 0 then ""
    else if |fields| == 1 then fields[0]
    else fields[0] + [UNIT_SEPARATOR] + Join(fields[1..])
  }

  /** A first field is read back from a joined text when it holds no separator. */
  lemma {:induction false} SplitHead(a: string, x: string, b: string, y: string)
    requires Plain(a) && Plain(b)
    requires a + [UNIT_SEPARATOR] + x == b + [UNIT_SEPARATOR] + y
    ensures a == b && x == y
  {
    var s, t := a + [UNIT_SEPARATOR] + x, b + [UNIT_SEPARATOR] + y;
    assert s[|a|] == UNIT_SEPARATOR && t[|b|] == UNIT_SEPARATOR;
    assert forall i :: 0 <= i < |b| ==> t[i] == b[i];
    assert forall i :: 0 <= i < |a| ==> s[i] == a[i];
    assert a == s[..|a|] && b == t[..|b|];
    assert x == s[|a| + 1..] && y == t[|b| + 1..];
  }

  /** Joining separator-free fields loses nothing. */
  lemma {:induction false} JoinInjective(a: seq<string>, b: seq<string>)
    requires |a| == |b|
    requires forall i :: 0 <= i < |a| ==> Plain(a[i]) && Plain(b[i])
    requires Join(a) == Join(b)
    ensures a == b
    decreases |a|
  {
    if |a| == 1 {
      assert a == [a[0]] && b == [b[0]];
    } else if |a| > 1 {
      SplitHead(a[0], Join(a[1..]), b[0], Join(b[1..]));
      JoinInjective(a[1..], b[1..]);
      assert a == [a[0]] + a[1..] && b == [b[0]] + b[1..];
    }
  }

  /** No character of the field sorts at or below the separator. */
  predicate AboveSeparator(field: string) { forall i :: 0 <= i < |field| ==> field[i] > UNIT_SEPARATOR }

  lemma {:induction false} LessCommonHead(head: string, x: string, y: string)
    ensures Less(head + x, head + y) <==> Less(x, y)
    decreases |head|
  {
    if head == "" {
      assert head + x == x && head + y == y;
    } else {
      assert (head + x)[1..] == head[1..] + x && (head + y)[1..] == head[1..] + y;
      LessCommonHead(head[1..], x, y);
    }
  }

  /** Joined texts compare by their first fields, and then by the rest. */
  lemma {:induction false} LessJoined(a: string, x: string, b: string, y: string)
    requires AboveSeparator(a) && AboveSeparator(b)
    ensures Less(a + [UNIT_SEPARATOR] + x, b + [UNIT_SEPARATOR] + y) <==> Less(a, b) || (a == b && Less(x, y))
    decreases |a|
  {
    var s, t := a + [UNIT_SEPARATOR] + x, b + [UNIT_SEPARATOR] + y;
    if a == "" || b == "" {
      assert s[0] == (if a == "" then UNIT_SEPARATOR else a[0]) && t[0] == (if b == "" then UNIT_SEPARATOR else b[0]);
      assert a == "" ==> s[1..] == x;
      assert b == "" ==> t[1..] == y;
    } else {
      assert s[0] == a[0] && t[0] == b[0];
      assert s[1..] == a[1..] + [UNIT_SEPARATOR] + x && t[1..] == b[1..] + [UNIT_SEPARATOR] + y;
      LessJoined(a[1..], x, b[1..], y);
      assert a == [a[0]] + a[1..] && b == [b[0]] + b[1..];
    }
  }

  // ---------- fmt.Sprint of an integer ----------

  function Digit(d: nat): char
    requires d < 10
  {
    (48 + d) as char
  }

  function SprintNat(n: nat): string
  {
    if n < 10 then [Digit(n)] else SprintNat(n / 10) + [Digit(n % 10)]
  }

  function Sprint(n: int): string
  {
    if n < 0 then "-" + SprintNat(-n) else SprintNat(n)
  }

  predicate IsDigits(s: string) { forall i :: 0 <= i < |s| ==> '0' <= s[i] <= '9' }

  lemma LastDigit(n: nat)
    ensures SprintNat(n) == (if n < 10 then "" else SprintNat(n / 10)) + [Digit(n % 10)]
  {
  }

  lemma {:induction false} SprintNatInjective(a: nat, b: nat)
    requires SprintNat(a) == SprintNat(b)
    ensures a == b
  {
    SprintNatDigits(a / 10);
    SprintNatDigits(b / 10);
    LastDigit(a);
    LastDigit(b);
    var x, y := if a < 10 then "" else SprintNat(a / 10), if b < 10 then "" else SprintNat(b / 10);
    assert (x + [Digit(a % 10)])[..|x|] == x && (y + [Digit(b % 10)])[..|y|] == y;
    assert (x + [Digit(a % 10)])[|x|] == (y + [Digit(b % 10)])[|x|];
    if a >= 10 && b >= 10 {
      SprintNatInjective(a / 10, b / 10);
    }
  }

  lemma {:induction false} SprintNatDigits(a: nat)
    ensures IsDigits(SprintNat(a)) && |SprintNat(a)| > 0
  {
    if a >= 10 {
      SprintNatDigits(a / 10);
    }
  }

  lemma SprintAbove(n: int)
    ensures AboveSeparator(Sprint(n))
  {
    SprintNatDigits(if n < 0 then -n else n);
  }

  lemma SprintPlain(n: int)
    ensures Plain(Sprint(n))
  {
    SprintNatDigits(if n < 0 then -n else n);
  }

  lemma SprintInjective(a: int, b: int)
    requires Sprint(a) == Sprint(b)
    ensures a == b
  {
    SprintNatDigits(if a < 0 then -a else a);
    SprintNatDigits(if b < 0 then -b else b);
    assert a < 0 ==> Sprint(a)[0] == '-' && Sprint(a)[1..] == SprintNat(-a);
    assert b < 0 ==> Sprint(b)[0] == '-' && Sprint(b)[1..] == SprintNat(-b);
    SprintNatInjective(if a < 0 then -a else a, if b < 0 then -b else b);
  }

  // ---------- order of printed numbers ----------

  lemma {:induction false} LongerNumber(a: nat, b: nat)
    requires a <= b
    ensures |SprintNat(a)| <= |SprintNat(b)|
    decreases b
  {
    if a >= 10 {
      LongerNumber(a / 10, b / 10);
    }
  }

  lemma {:induction false} LessSameLength(x: string, c: char, y: string, d: char)
    requires |x| == |y|
    ensures Less(x + [c], y + [d]) <==> Less(x, y) || (x == y && c < d)
    decreases |x|
  {
    var s, t := x + [c], y + [d];
    if x == "" {
      assert s[1..] == "" && t[1..] == "";
    } else {
      assert s[0] == x[0] && t[0] == y[0] && s[1..] == x[1..] + [c] && t[1..] == y[1..] + [d];
      LessSameLength(x[1..], c, y[1..], d);
      assert x == [x[0]] + x[1..] && y == [y[0]] + y[1..];
    }
  }

  /** Numbers of one length are in the order of their texts. */
  lemma {:induction false} NumbersInOrder(a: nat, b: nat)
    requires |SprintNat(a)| == |SprintNat(b)|
    ensures Less(SprintNat(a), SprintNat(b)) <==> a < b
    decreases a
  {
    if a < 10 {
      SprintNatDigits(if b < 10 then 0 else b / 10);
      assert b < 10;
      LessSameLength("", Digit(a), "", Digit(b));
      assert "" + [Digit(a)] == [Digit(a)] && "" + [Digit(b)] == [Digit(b)];
    } else {
      SprintNatDigits(a / 10);
      assert b >= 10;
      NumbersInOrder(a / 10, b / 10);
      LessSameLength(SprintNat(a / 10), Digit(a % 10), SprintNat(b / 10), Digit(b % 10));
      if SprintNat(a / 10) == SprintNat(b / 10) {
        SprintNatInjective(a / 10, b / 10);
      }
    }
  }
}
