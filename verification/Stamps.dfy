/** Backup stamps: fixed-width text whose order as text is the order of the clock. */
module Stamps {
  import opened Decimals

  /** The order of strings. */
  predicate TextLess(a: string, b: string) {
    b != [] && (a == [] || a[0] < b[0] || (a[0] == b[0] && TextLess(a[1..], b[1..])))
  }

  lemma {:induction false} TextLessIsOrder(a: string, b: string, c: string)
    ensures !TextLess(a, a)
    ensures TextLess(a, b) && TextLess(b, c) ==> TextLess(a, c)
    ensures a == b || TextLess(a, b) || TextLess(b, a)
    decreases |a| + |b| + |c|
  {
    if a != [] {
      TextLessIsOrder(a[1..], if b == [] then [] else b[1..], if c == [] then [] else c[1..]);
      if b != [] && a[0] == b[0] && a[1..] == b[1..] {
        assert a == [a[0]] + a[1..] && b == [b[0]] + b[1..];
      }
    }
  }

  lemma {:induction false} TextLessAppend(a: string, x: string, b: string, y: string)
    requires |a| == |b|
    ensures TextLess(a + x, b + y) <==> TextLess(a, b) || (a == b && TextLess(x, y))
    decreases |a|
  {
    if a == [] {
      assert a + x == x && b + y == y;
    } else {
      assert (a + x)[1..] == a[1..] + x && (b + y)[1..] == b[1..] + y;
      TextLessAppend(a[1..], x, b[1..], y);
      assert a == [a[0]] + a[1..] && b == [b[0]] + b[1..];
      TextLessIsOrder(a, a, a);
    }
  }

  /** The last `width` digits of a number, with zeros in front. */
  function Pad(n: nat, width: nat): (s: string)
    ensures |s| == width && forall i :: 0 <= i < width ==> IsDigit(s[i])
  {
    if width == 0 then [] else Pad(n / 10, width - 1) + [DigitChar(n % 10)]
  }

  function Pair(n: nat, width: nat, rest: string): (s: string)
    ensures |s| == width + |rest|
    ensures (forall i :: 0 <= i < |rest| ==> IsDigit(rest[i])) ==> forall i :: 0 <= i < |s| ==> IsDigit(s[i])
  {
    Pad(n, width) + rest
  }

  function Triple(a: nat, width: nat, b: nat, c: nat): (s: string)
    ensures |s| == width + 4 && forall i :: 0 <= i < |s| ==> IsDigit(s[i])
  {
    Pair(a, width, Pair(b, 2, Pad(c, 2)))
  }

  /** Padded numbers compare as text the way they compare as numbers, and are told apart. */
  lemma {:induction false} PadOrder(a: nat, b: nat, width: nat)
    requires a < Power(width) && b < Power(width)
    ensures TextLess(Pad(a, width), Pad(b, width)) <==> a < b
    ensures Pad(a, width) == Pad(b, width) <==> a == b
  {
    if width > 0 {
      var p, q := Pad(a / 10, width - 1), Pad(b / 10, width - 1);
      var x, y := [DigitChar(a % 10)], [DigitChar(b % 10)];
      PadOrder(a / 10, b / 10, width - 1);
      TextLessAppend(p, x, q, y);
      assert TextLess(x, y) <==> a % 10 < b % 10;
      assert p + x == q + y <==> p == q && x == y by {
        assert (p + x)[..width - 1] == p && (q + y)[..width - 1] == q;
        assert (p + x)[width - 1..] == x && (q + y)[width - 1..] == y;
      }
    }
  }

  datatype Clock = Clock(year: nat, month: nat, day: nat, hour: nat, minute: nat, second: nat) {
    /** The fields fit their places. */
    predicate Fits() {
      year < 10000 && month < 100 && day < 100 && hour < 100 && minute < 100 && second < 100
    }

    predicate Before(o: Clock) {
      if year != o.year then year < o.year
      else if month != o.month then month < o.month
      else if day != o.day then day < o.day
      else if hour != o.hour then hour < o.hour
      else if minute != o.minute then minute < o.minute
      else second < o.second
    }

    function Date(): string {
      Triple(year, 4, month, day)
    }

    function Time(): string {
      Triple(hour, 2, minute, second)
    }

    /** YYYYMMDD_HHMMSS. */
    function Stamp(): string {
      Date() + ("_" + Time())
    }
  }

  lemma PairOrder(a: nat, x: string, b: nat, y: string, width: nat)
    requires a < Power(width) && b < Power(width) && |x| == |y|
    ensures TextLess(Pair(a, width, x), Pair(b, width, y)) <==> a < b || (a == b && TextLess(x, y))
    ensures Pair(a, width, x) == Pair(b, width, y) <==> a == b && x == y
  {
    PadOrder(a, b, width);
    TextLessAppend(Pad(a, width), x, Pad(b, width), y);
    assert Pair(a, width, x)[..width] == Pad(a, width) && Pair(b, width, y)[..width] == Pad(b, width);
    assert Pair(a, width, x)[width..] == x && Pair(b, width, y)[width..] == y;
  }

  lemma Powers()
    ensures Power(2) == 100 && Power(4) == 10000
  {
    assert Power(1) == 10 && Power(3) == 1000;
  }

  lemma TripleOrder(a: nat, b: nat, c: nat, d: nat, e: nat, f: nat, width: nat)
    requires a < Power(width) && d < Power(width) && b < 100 && c < 100 && e < 100 && f < 100
    ensures TextLess(Triple(a, width, b, c), Triple(d, width, e, f))
        <==> a < d || (a == d && (b < e || (b == e && c < f)))
    ensures Triple(a, width, b, c) == Triple(d, width, e, f) <==> a == d && b == e && c == f
  {
    hide Pair, Pad, Power, TextLess;
    Powers();
    PadOrder(c, f, 2);
    PairOrder(b, Pad(c, 2), e, Pad(f, 2), 2);
    PairOrder(a, Pair(b, 2, Pad(c, 2)), d, Pair(e, 2, Pad(f, 2)), width);
  }

  /** Stamps compare as text exactly as their clocks do, and different clocks have different stamps. */
  lemma StampOrder(a: Clock, b: Clock)
    requires a.Fits() && b.Fits()
    ensures TextLess(a.Stamp(), b.Stamp()) <==> a.Before(b)
    ensures a.Stamp() == b.Stamp() <==> a == b
  {
    Powers();
    TripleOrder(a.year, a.month, a.day, b.year, b.month, b.day, 4);
    TripleOrder(a.hour, a.minute, a.second, b.hour, b.minute, b.second, 2);
    TextLessAppend("_", a.Time(), "_", b.Time());
    TextLessAppend(a.Date(), "_" + a.Time(), b.Date(), "_" + b.Time());
    TextLessIsOrder("_", "_", "_");
    assert a.Stamp() == b.Stamp() <==> a.Date() == b.Date() && a.Time() == b.Time() by {
      assert a.Stamp()[..8] == a.Date() && b.Stamp()[..8] == b.Date();
      assert a.Stamp()[9..] == a.Time() && b.Stamp()[9..] == b.Time();
    }
  }

  lemma PadLast(n: nat, width: nat)
    requires width > 0 && n < Power(width)
    ensures n / 10 < Power(width - 1) && Pad(n, width) == Pad(n / 10, width - 1) + [DigitChar(n % 10)]
    ensures IsDigit(DigitChar(n % 10)) && DigitValue(DigitChar(n % 10)) == n % 10
  {
  }

  lemma {:induction false} ParsePad(n: nat, width: nat)
    requires n < Power(width)
    ensures Parse(Pad(n, width)) == n
  {
    if width > 0 {
      PadLast(n, width);
      var front, last := Pad(n / 10, width - 1), DigitChar(n % 10);
      assert PlainDigits(front);
      hide *;
      ParsePad(n / 10, width - 1);
      ParseLast(front, last);
    }
  }

  lemma FieldsAt(a: Clock)
    ensures var t := a.Stamp();
            && t[..4] == Pad(a.year, 4) && t[4..6] == Pad(a.month, 2) && t[6..8] == Pad(a.day, 2)
            && t[9..11] == Pad(a.hour, 2) && t[11..13] == Pad(a.minute, 2) && t[13..] == Pad(a.second, 2)
  {
    hide Pad;
  }

  /** Year, month, day, an underscore, hour, minute and second, each read back from its own place. */
  lemma StampReads(a: Clock)
    requires a.Fits()
    ensures var t := a.Stamp();
            && IsStamp(t)
            && Parse(t[..4]) == a.year && Parse(t[4..6]) == a.month && Parse(t[6..8]) == a.day
            && Parse(t[9..11]) == a.hour && Parse(t[11..13]) == a.minute && Parse(t[13..]) == a.second
  {
    ClockHasStamp(a);
    FieldsAt(a);
    Powers();
    ParsePad(a.year, 4);
    ParsePad(a.month, 2);
    ParsePad(a.day, 2);
    ParsePad(a.hour, 2);
    ParsePad(a.minute, 2);
    ParsePad(a.second, 2);
    hide Pad, Parse, Power;
  }

  predicate IsStamp(t: string) {
    |t| == 15 && t[8] == '_' && forall i :: 0 <= i < 15 && i != 8 ==> IsDigit(t[i])
  }

  lemma ClockHasStamp(a: Clock)
    ensures IsStamp(a.Stamp())
  {
    var t := a.Stamp();
    assert t[..8] == a.Date() && t[9..] == a.Time();
    forall i | 0 <= i < 15 && i != 8
      ensures IsDigit(t[i])
    {
      assert i < 8 ==> t[i] == a.Date()[i];
      assert i > 8 ==> t[i] == a.Time()[i - 9];
    }
  }
}
