/** The "m:ss" clock every player shows for a duration or a playback
    position, with JavaScript's number semantics written out: `Math.floor`,
    the truncating `%`, `toString` on an integer and `padStart(2, '0')`. */
module Clock {
  import opened Optional
  import Text

  /** A JavaScript number as the players receive it from a media element:
      either NaN (no metadata yet) or a finite value. */
  datatype Seconds = NaN | Num(value: real)

  /** Rounding toward zero. */
  function Trunc(x: real): (r: int)
    ensures x >= 0.0 ==> r == x.Floor
    ensures x < 0.0 ==> r == -((-x).Floor)
  {
    if x >= 0.0 then x.Floor else -((-x).Floor)
  }

  /** JavaScript's `x % 60` on numbers: the remainder takes the sign of `x`. */
  function Rem60(x: real): (r: real)
    ensures x >= 0.0 ==> 0.0 <= r < 60.0
    ensures x < 0.0 ==> -60.0 < r <= 0.0
  {
    x - 60.0 * Trunc(x / 60.0) as real
  }

  function DigitChar(d: nat): (c: char)
    requires d < 10
    ensures Text.IsDigit(c) && c as int - '0' as int == d
  {
    ('0' as int + d) as char
  }

  /** The decimal digits of `n`, without leading zeros: `n.toString()`. */
  function Decimal(n: nat): (r: string)
    ensures r != [] && AllDigits(r)
    ensures n < 10 <==> |r| == 1
    decreases n
  {
    if n < 10 then [DigitChar(n)] else Decimal(n / 10) + [DigitChar(n % 10)]
  }

  /** `i.toString()` for an integer, negative ones with a leading minus. */
  function IntToString(i: int): string {
    if i < 0 then "-" + Decimal(-i) else Decimal(i)
  }

  /** `padStart(2, '0')`. */
  function PadStart2(s: string): string {
    if |s| >= 2 then s else if |s| == 1 then "0" + s else "00"
  }

  /** `formatTime` of the ultra-modern, folder and ocean players: a falsy
      value (NaN or zero) shows as 0:00; otherwise whole minutes, a colon and
      the whole seconds of the minute padded to two digits. */
  function FormatTime(t: Seconds): (r: string)
    ensures t.NaN? || t == Num(0.0) ==> r == "0:00"
    ensures t.Num? && t.value != 0.0 ==> r == Render(t.value)
  {
    match t
    case NaN => "0:00"
    case Num(v) => if v == 0.0 then "0:00" else Render(v)
  }

  /** `formatTime` of the linjunjie player: only NaN is caught. */
  function FormatTimeNaNOnly(t: Seconds): (r: string)
    ensures t.NaN? ==> r == "0:00"
    ensures t == Num(0.0) ==> r == "0:00"
  {
    match t
    case NaN => "0:00"
    case Num(v) =>
      assert v == 0.0 ==> Rem60(v) == 0.0 && Render(v) == "0" + ":" + "00";
      Render(v)
  }

  function Render(v: real): string {
    IntToString((v / 60.0).Floor) + ":" + PadStart2(IntToString(Rem60(v).Floor))
  }

  /** Every character of `s` is a decimal digit. */
  predicate AllDigits(s: string) {
    forall k :: 0 <= k < |s| ==> Text.IsDigit(s[k])
  }

  function DigitValue(c: char): int {
    c as int - '0' as int
  }

  /** The value of a string of decimal digits. */
  function DigitsValue(s: string): nat
    requires AllDigits(s)
  {
    if s == [] then 0 else
      assert Text.IsDigit(s[|s| - 1]);
      10 * DigitsValue(s[..|s| - 1]) + DigitValue(s[|s| - 1])
  }

  /** Reads "m:ss" back into a number of seconds: minutes in decimal, a colon,
      then two digits making less than 60. */
  function ParseClock(r: string): Option<nat> {
    if |r| < 4 then None
    else
      var i := |r| - 3;
      if r[i] == ':' && AllDigits(r[..i]) && Text.IsDigit(r[i + 1]) && Text.IsDigit(r[i + 2]) && r[i + 1] <= '5'
      then Some(60 * DigitsValue(r[..i]) + 10 * DigitValue(r[i + 1]) + DigitValue(r[i + 2]))
      else None
  }

  lemma {:induction false} DecimalReadsBack(n: nat)
    ensures DigitsValue(Decimal(n)) == n
    decreases n
  {
    if n >= 10 {
      DecimalReadsBack(n / 10);
      var d := Decimal(n);
      assert d[..|d| - 1] == Decimal(n / 10);
    }
  }

  /** For a non-negative time the clock shows exactly its whole seconds:
      reading the text back gives the value rounded down. */
  lemma FormatTimeReadsBack(v: real)
    requires v >= 0.0
    ensures ParseClock(FormatTime(Num(v))) == Some(v.Floor as nat)
  {
    var m, s := SplitClock(v);
    var shown := Decimal(m) + ":" + PadStart2(Decimal(s));
    ClockOfParts(m, s);
    assert A: ParseClock(shown) == Some(60 * m + s);
    assert B: FormatTime(Num(v)) == shown;
    assert C: ParseClock(FormatTime(Num(v))) == ParseClock(shown);
  }

  /** The clock of a non-negative time shows its whole minutes and the whole
      seconds of the last minute. */
  lemma SplitClock(v: real) returns (m: nat, s: nat)
    requires v >= 0.0
    ensures s < 60 && v.Floor == 60 * m + s
    ensures FormatTime(Num(v)) == Decimal(m) + ":" + PadStart2(Decimal(s))
  {
    MinutesAndSeconds(v);
    RenderNonNegative(v);
    m := (v / 60.0).Floor;
    s := Rem60(v).Floor;
  }

  /** The text shown for m minutes and s seconds reads back as 60 * m + s. */
  lemma ClockOfParts(m: nat, s: nat)
    requires s < 60
    ensures ParseClock(Decimal(m) + ":" + PadStart2(Decimal(s))) == Some(60 * m + s)
  {
    SecondsField(s);
    DecimalReadsBack(m);
    ParseJoined(Decimal(m), PadStart2(Decimal(s)), m, s);
  }

  /** A non-negative time is rendered from its whole minutes and the whole
      seconds of the minute, both without sign. */
  lemma RenderNonNegative(v: real)
    requires v >= 0.0
    ensures (v / 60.0).Floor >= 0 && Rem60(v).Floor >= 0
    ensures FormatTime(Num(v)) == Decimal((v / 60.0).Floor) + ":" + PadStart2(Decimal(Rem60(v).Floor))
  {
    var m := (v / 60.0).Floor;
    var s := Rem60(v).Floor;
    assert IntToString(m) == Decimal(m) && IntToString(s) == Decimal(s);
    if v == 0.0 {
      assert m == 0 && s == 0;
      assert Decimal(0) == "0";
    }
  }

  /** A clock text assembled from minute digits and a seconds field parses
      back to their combined value. */
  lemma ParseJoined(mins: string, secs: string, m: nat, s: nat)
    requires mins != [] && AllDigits(mins) && DigitsValue(mins) == m
    requires |secs| == 2 && Text.IsDigit(secs[0]) && Text.IsDigit(secs[1]) && secs[0] <= '5'
    requires 10 * DigitValue(secs[0]) + DigitValue(secs[1]) == s
    ensures ParseClock(mins + ":" + secs) == Some(60 * m + s)
  {
    var r := mins + ":" + secs;
    assert r[..|mins|] == mins;
    assert r[|mins|] == ':' && r[|mins| + 1] == secs[0] && r[|mins| + 2] == secs[1];
  }

  /** The minutes and seconds shown split the whole seconds of `v`. */
  lemma MinutesAndSeconds(v: real)
    requires v >= 0.0
    ensures var m := (v / 60.0).Floor; var s := Rem60(v).Floor;
      m >= 0 && 0 <= s < 60 && v.Floor == 60 * m + s
  {
    var m := (v / 60.0).Floor;
    assert m as real <= v / 60.0 < m as real + 1.0;
    assert Rem60(v) == v - 60.0 * m as real;
  }

  /** The padded seconds of a minute are two digits, the first at most 5,
      that spell `s`. */
  lemma SecondsField(s: nat)
    requires s < 60
    ensures |PadStart2(Decimal(s))| == 2
    ensures var f := PadStart2(Decimal(s));
      Text.IsDigit(f[0]) && Text.IsDigit(f[1]) && f[0] <= '5' && 10 * DigitValue(f[0]) + DigitValue(f[1]) == s
  {
    if s >= 10 {
      assert Decimal(s) == Decimal(s / 10) + [DigitChar(s % 10)];
      assert Decimal(s / 10) == [DigitChar(s / 10)];
    }
  }

  /** Dropping the zero check changes nothing: zero renders as 0:00 anyway. */
  lemma NaNOnlyAgrees(t: Seconds)
    ensures FormatTimeNaNOnly(t) == FormatTime(t)
  {
    if t.Num? && t.value == 0.0 {
      assert Rem60(0.0) == 0.0;
      assert Render(0.0) == "0" + ":" + "00";
    }
  }

  /** A negative time renders with JavaScript's signs: -30 seconds shows as
      "-1:-30", since the floor of -0.5 is -1 and -30 % 60 is -30. */
  lemma NegativeRendering()
    ensures FormatTime(Num(-30.0)) == "-1:-30"
  {
    assert (-30.0 / 60.0).Floor == -1;
    assert Rem60(-30.0) == -30.0;
    assert IntToString(-1) == "-1" by {
      assert Decimal(1) == "1";
    }
    assert IntToString(-30) == "-30" by {
      assert Decimal(30) == "30" by {
        assert Decimal(3) == "3";
      }
    }
  }
}
