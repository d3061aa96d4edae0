/** Numbers in decimal: naturals, and integers as they are written and as they may be read. */
module Decimals {
  import opened Results
  import opened Text

  predicate IsDigit(c: char) {
    '0' <= c <= '9'
  }

  predicate IsDigits(s: string) {
    s != [] && forall i :: 0 <= i < |s| ==> IsDigit(s[i])
  }

  function DigitChar(d: nat): char
    requires d < 10
  {
    (48 + d) as char
  }

  function DigitValue(c: char): nat
    requires IsDigit(c)
  {
    c as int - 48
  }

  function Print(n: nat): string {
    if n < 10 then [DigitChar(n)] else Print(n / 10) + [DigitChar(n % 10)]
  }

  /** The number that a string of digits stands for; leading zeros are allowed. */
  function Parse(s: string): nat
    requires forall i :: 0 <= i < |s| ==> IsDigit(s[i])
  {
    if s == [] then 0 else Parse(s[..|s| - 1]) * 10 + DigitValue(s[|s| - 1])
  }

  lemma {:induction false} ParsePrint(n: nat)
    ensures IsDigits(Print(n)) && Parse(Print(n)) == n
  {
    if n >= 10 {
      ParsePrint(n / 10);
      assert Print(n)[..|Print(n)| - 1] == Print(n / 10);
    } else {
      assert Print(n)[..0] == [];
    }
  }

  function Power(width: nat): (p: nat)
    ensures p > 0
  {
    if width == 0 then 1 else 10 * Power(width - 1)
  }

  lemma DigitIs(c: char)
    requires IsDigit(c)
    ensures Parse([c]) < 10 && "0123456789"[Parse([c])] == c
  {
    assert [c][..0] == [] && Parse([]) == 0;
  }

  lemma ParseLast(front: string, c: char)
    requires PlainDigits(front) && IsDigit(c)
    ensures PlainDigits(front + [c]) && Parse(front + [c]) == Parse(front) * 10 + DigitValue(c)
  {
    assert (front + [c])[..|front|] == front;
  }

  predicate PlainDigits(s: string) {
    forall i :: 0 <= i < |s| ==> IsDigit(s[i])
  }

  /** Places count by tens from the right. */
  lemma {:induction false} ParseConcat(a: string, b: string)
    requires PlainDigits(a) && PlainDigits(b)
    ensures PlainDigits(a + b) && Parse(a + b) == Parse(a) * Power(|b|) + Parse(b)
    decreases |b|
  {
    if b == [] {
      assert a + b == a;
    } else {
      var front, last := b[..|b| - 1], b[|b| - 1];
      ParseConcat(a, front);
      assert (a + b)[..|a + b| - 1] == a + front && (a + b)[|a + b| - 1] == last;
      assert Power(|b|) == 10 * Power(|front|);
      assert Parse(a + b) == Parse(a + front) * 10 + DigitValue(last);
      assert Parse(b) == Parse(front) * 10 + DigitValue(last);
      hide Parse, Power;
      ShiftPlaces(Parse(a), Power(|front|), Parse(front));
    }
  }

  lemma ShiftPlaces(x: nat, p: nat, y: nat)
    ensures (x * p + y) * 10 == x * (10 * p) + y * 10
  {
  }

  // ----- integers -----

  function PrintInt(n: int): string {
    if n < 0 then "-" + Print(-n) else Print(n)
  }

  /** Digits with single underscores between them. */
  predicate IsGrouped(s: string) {
    && s != [] && IsDigit(s[0]) && IsDigit(s[|s| - 1])
    && (forall i :: 0 <= i < |s| ==> IsDigit(s[i]) || s[i] == '_')
    && (forall i :: 0 < i < |s| && s[i] == '_' ==> s[i - 1] != '_')
  }

  function Ungrouped(s: string): string {
    if s == [] then [] else (if s[0] == '_' then [] else [s[0]]) + Ungrouped(s[1..])
  }

  lemma {:induction false} UngroupedDigits(s: string)
    requires forall i :: 0 <= i < |s| ==> IsDigit(s[i]) || s[i] == '_'
    ensures forall i :: 0 <= i < |Ungrouped(s)| ==> IsDigit(Ungrouped(s)[i])
  {
    if s != [] {
      UngroupedDigits(s[1..]);
    }
  }

  function Unsigned(s: string): Option<nat> {
    if IsGrouped(s) then
      UngroupedDigits(s);
      Some(Parse(Ungrouped(s)))
    else None
  }

  /** What int() makes of a text: spaces around it, one sign and grouped digits are allowed. */
  function ParseInt(s: string): Option<int> {
    var t := Strip(s);
    var signed := t != [] && (t[0] == '-' || t[0] == '+');
    match Unsigned(if signed then t[1..] else t)
    case None => None
    case Some(n) =>
      var v: int := n;
      Some(if signed && t[0] == '-' then -v else v)
  }

  lemma {:induction false} UngroupedPlain(s: string)
    requires forall i :: 0 <= i < |s| ==> IsDigit(s[i])
    ensures Ungrouped(s) == s
  {
    if s != [] {
      UngroupedPlain(s[1..]);
    }
  }

  lemma StripPlain(s: string)
    requires s != [] && !IsSpace(s[0]) && !IsSpace(s[|s| - 1])
    ensures Strip(s) == s
  {
  }

  /** Reading an integer undoes writing it. */
  lemma ParsePrintInt(n: int)
    ensures ParseInt(PrintInt(n)) == Some(n)
  {
    var digits := Print(if n < 0 then -n else n);
    ParsePrint(if n < 0 then -n else n);
    UngroupedPlain(digits);
    assert IsGrouped(digits) && Unsigned(digits) == Some(if n < 0 then -n else n);
    StripPlain(PrintInt(n));
    hide Strip, Unsigned, Print;
    if n < 0 {
      assert PrintInt(n)[0] == '-' && PrintInt(n)[1..] == digits;
    }
  }

  lemma StripPadded(lead: string, s: string, trail: string)
    requires AllSpace(lead) && AllSpace(trail)
    requires s != [] && !IsSpace(s[0]) && !IsSpace(s[|s| - 1])
    ensures Strip(lead + s + trail) == s
  {
    assert lead + s + trail == lead + (s + trail);
    StripLeftPad(lead, s + trail);
    StripRightPad(s, trail);
  }

  lemma SignedDigits(sign: string, digits: string)
    requires IsDigits(digits) && sign in {"", "+", "-"}
    ensures var s := sign + digits; s != [] && !IsSpace(s[0]) && !IsSpace(s[|s| - 1])
  {
    var s := sign + digits;
    assert s[|s| - 1] == digits[|digits| - 1];
    assert s[0] == if sign == "" then digits[0] else sign[0];
  }

  lemma PlainUnsigned(digits: string)
    requires IsDigits(digits)
    ensures Unsigned(digits) == Some(Parse(digits))
  {
    UngroupedPlain(digits);
    hide Ungrouped;
    assert IsGrouped(digits);
  }

  lemma ParseSigned(text: string, sign: string, digits: string)
    requires Strip(text) == sign + digits && IsDigits(digits) && sign in {"", "+", "-"}
    ensures var n: int := Parse(digits);
            ParseInt(text) == Some(if sign == "-" then -n else n)
  {
    PlainUnsigned(digits);
    assert digits[0] != '+' && digits[0] != '-';
    hide Strip, Unsigned, Parse, IsDigits;
    if sign != "" {
      assert (sign + digits)[0] == sign[0] && (sign + digits)[1..] == digits;
    } else {
      assert sign + digits == digits;
    }
  }

  /** What else int() reads: digits, with a sign or without, between any whitespace. */
  lemma ParsePadded(lead: string, sign: string, digits: string, trail: string)
    requires AllSpace(lead) && AllSpace(trail) && IsDigits(digits) && sign in {"", "+", "-"}
    ensures var n: int := Parse(digits);
            ParseInt(lead + (sign + digits) + trail) == Some(if sign == "-" then -n else n)
  {
    SignedDigits(sign, digits);
    hide Strip, ParseInt, IsDigits, AllSpace, IsSpace;
    StripPadded(lead, sign + digits, trail);
    ParseSigned(lead + (sign + digits) + trail, sign, digits);
  }

  lemma {:induction false} UngroupedConcat(a: string, b: string)
    ensures Ungrouped(a + b) == Ungrouped(a) + Ungrouped(b)
  {
    if a == [] {
      assert a + b == b;
    } else {
      assert (a + b)[1..] == a[1..] + b;
      UngroupedConcat(a[1..], b);
    }
  }

  /** An underscore between digits does not count. */
  lemma ParseGrouped(a: string, b: string)
    requires IsDigits(a) && IsDigits(b)
    ensures ParseInt(a + "_" + b) == Some(Parse(a + b))
  {
    var s := a + "_" + b;
    UngroupedConcat(a + "_", b);
    UngroupedConcat(a, "_");
    UngroupedPlain(a);
    UngroupedPlain(b);
    assert "_"[1..] == [] && Ungrouped("_") == [] && a + [] == a;
    assert s[0] == a[0] && s[|s| - 1] == b[|b| - 1];
    StripPlain(s);
    hide Strip, Ungrouped;
    assert IsGrouped(s);
  }

  /** Nothing is read without a digit at the end, or with anything in it but digits, underscores, a sign in
      front and whitespace around. */
  lemma ParseRefuses(s: string, i: nat)
    requires i < |Strip(s)|
    requires var c := Strip(s)[i];
             !IsDigit(c) && (c != '_' || i == |Strip(s)| - 1) && !(i == 0 && (c == '+' || c == '-') && |Strip(s)| > 1)
    ensures ParseInt(s) == None
  {
    var t := Strip(s);
    var signed := t[0] == '-' || t[0] == '+';
    var rest := if signed then t[1..] else t;
    hide Strip;
    if signed && i > 0 {
      assert rest[i - 1] == t[i];
    }
  }

  lemma ParseNothing(s: string)
    requires AllSpace(s)
    ensures ParseInt(s) == None
  {
    StripLeftPadOnly(s);
  }

  lemma {:induction false} StripLeftPadOnly(s: string)
    requires AllSpace(s)
    ensures Strip(s) == []
  {
    if s != [] {
      StripLeftPadOnly(s[1..]);
    }
  }
}
