/**
 * `shade(hex, percent)` of src/App.jsx, the hover colour of the action
 * buttons: read the three channels of a `#rrggbb` colour (the six-digit
 * hexadecimal notation of CSS Color Module Level 4, section 5.2), scale each
 * by `(100 + percent) / 100`, truncate, cap at 255, and write the colour back
 * as `#` and three two-digit lowercase pairs.
 *
 * The buttons pass only six-digit colours, so the model takes such a colour
 * as given; `percent` is a whole number (the buttons pass -10).
 */
module HexShade {

  predicate IsHexDigit(c: char) {
    ('0' <= c <= '9') || ('a' <= c <= 'f') || ('A' <= c <= 'F')
  }

  /** A `#rrggbb` colour, digits in either case. */
  predicate IsHexColor(s: string) {
    |s| == 7 && s[0] == '#' && forall i :: 1 <= i < 7 ==> IsHexDigit(s[i])
  }

  /** The value of one hexadecimal digit. */
  function DigitValue(c: char): (d: int)
    requires IsHexDigit(c)
    ensures 0 <= d < 16
  {
    if '0' <= c <= '9' then c as int - '0' as int
    else if 'a' <= c <= 'f' then c as int - 'a' as int + 10
    else c as int - 'A' as int + 10
  }

  /** The lowercase digit for a value below 16, as `toString(16)` writes it. */
  function Digit(d: int): (c: char)
    requires 0 <= d < 16
    ensures IsHexDigit(c) && DigitValue(c) == d
  {
    if d < 10 then ('0' as int + d) as char else ('a' as int + d - 10) as char
  }

  /** `toLowerCase` on the characters a colour holds. */
  function LowerChar(c: char): char {
    if 'A' <= c <= 'Z' then (c as int - 'A' as int + 'a' as int) as char else c
  }

  function Lower(s: string): (r: string)
    ensures |r| == |s|
    ensures forall i :: 0 <= i < |s| ==> r[i] == LowerChar(s[i])
  {
    if s == [] then [] else [LowerChar(s[0])] + Lower(s[1..])
  }

  /** Writing a digit back gives the same digit in lowercase. */
  lemma DigitOfValue(c: char)
    requires IsHexDigit(c)
    ensures Digit(DigitValue(c)) == LowerChar(c)
  {
  }

  /** `parseInt(hex.substring(i, i + 2), 16)`. */
  function Channel(hex: string, i: int): (v: int)
    requires 0 <= i && i + 1 < |hex| && IsHexDigit(hex[i]) && IsHexDigit(hex[i + 1])
    ensures 0 <= v <= 255
  {
    16 * DigitValue(hex[i]) + DigitValue(hex[i + 1])
  }

  /** `parseInt(x)` of a number: the fraction is dropped, toward zero. */
  function TruncDiv(n: int, d: int): int
    requires d > 0
  {
    if n >= 0 then n / d else -((-n) / d)
  }

  /** `parseInt((c * (100 + percent)) / 100)` and then `c < 255 ? c : 255`. */
  function Scale(c: int, percent: int): int {
    var s := TruncDiv(c * (100 + percent), 100);
    if s < 255 then s else 255
  }

  /** `n.toString(16)`: lowercase digits, with a minus sign for a negative number. */
  function ToHex(n: int): string {
    if n < 0 then "-" + Digits(-n) else Digits(n)
  }

  function Digits(n: nat): string
    decreases n
  {
    if n < 16 then [Digit(n)] else Digits(n / 16) + [Digit(n % 16)]
  }

  /** `s.padStart(2, '0')`. */
  function PadStart2(s: string): (r: string)
    ensures |r| == if |s| >= 2 then |s| else 2
  {
    if |s| >= 2 then s else seq(2 - |s|, _ => '0') + s
  }

  /** `shade(hex, percent)`. */
  function Shade(hex: string, percent: int): string
    requires IsHexColor(hex)
  {
    "#" + PadStart2(ToHex(Scale(Channel(hex, 1), percent)))
        + PadStart2(ToHex(Scale(Channel(hex, 3), percent)))
        + PadStart2(ToHex(Scale(Channel(hex, 5), percent)))
  }

  /** A channel value is written as exactly two lowercase digits, high digit first. */
  lemma Pair(v: int)
    requires 0 <= v <= 255
    ensures PadStart2(ToHex(v)) == [Digit(v / 16), Digit(v % 16)]
  {
    if v < 16 {
      assert ToHex(v) == [Digit(v)];
    } else {
      assert Digits(v / 16) == [Digit(v / 16)];
    }
  }

  /** Scaling by at least -100 percent gives a channel value in range. */
  lemma ScaleRange(c: int, percent: int)
    requires 0 <= c <= 255 && percent >= -100
    ensures 0 <= Scale(c, percent) <= 255
  {
    assert c * (100 + percent) >= 0;
  }

  /** The channels of the result, read back. */
  function Channels(hex: string): (int, int, int)
    requires IsHexColor(hex)
  {
    (Channel(hex, 1), Channel(hex, 3), Channel(hex, 5))
  }

  /**
   * For percent at least -100 the result is again a `#rrggbb` colour, in
   * lowercase, whose channels read back as the scaled and capped input
   * channels.
   */
  lemma ShadeShape(hex: string, percent: int)
    requires IsHexColor(hex) && percent >= -100
    ensures var out := Shade(hex, percent);
      && IsHexColor(out)
      && Lower(out) == out
      && Channels(out) == (Scale(Channel(hex, 1), percent), Scale(Channel(hex, 3), percent), Scale(Channel(hex, 5), percent))
  {
    var r, g, b := Scale(Channel(hex, 1), percent), Scale(Channel(hex, 3), percent), Scale(Channel(hex, 5), percent);
    ScaledPair(hex, percent, 1);
    ScaledPair(hex, percent, 3);
    ScaledPair(hex, percent, 5);
    var out := Shade(hex, percent);
    assert out == ['#', Digit(r / 16), Digit(r % 16), Digit(g / 16), Digit(g % 16), Digit(b / 16), Digit(b % 16)];
    DigitIsLower(r / 16);
    DigitIsLower(r % 16);
    DigitIsLower(g / 16);
    DigitIsLower(g % 16);
    DigitIsLower(b / 16);
    DigitIsLower(b % 16);
    assert Lower(out) == out;
  }

  /** A scaled channel is in range, is written as its two digits, and reads back as itself. */
  lemma ScaledPair(hex: string, percent: int, i: int)
    requires IsHexColor(hex) && percent >= -100 && (i == 1 || i == 3 || i == 5)
    ensures var v := Scale(Channel(hex, i), percent);
      && 0 <= v <= 255
      && PadStart2(ToHex(v)) == [Digit(v / 16), Digit(v % 16)]
      && 16 * DigitValue(Digit(v / 16)) + DigitValue(Digit(v % 16)) == v
  {
    ScaleRange(Channel(hex, i), percent);
    Pair(Scale(Channel(hex, i), percent));
  }

  /** The digits `toString(16)` writes are already lowercase. */
  lemma DigitIsLower(d: int)
    requires 0 <= d < 16
    ensures LowerChar(Digit(d)) == Digit(d)
  {
  }

  /** `shade(c, 0)` is `c` in lowercase. */
  lemma ShadeZero(hex: string)
    requires IsHexColor(hex)
    ensures Shade(hex, 0) == Lower(hex)
  {
    var p1 := PadStart2(ToHex(Scale(Channel(hex, 1), 0)));
    var p3 := PadStart2(ToHex(Scale(Channel(hex, 3), 0)));
    var p5 := PadStart2(ToHex(Scale(Channel(hex, 5), 0)));
    assert Shade(hex, 0) == "#" + p1 + p3 + p5;
    ChannelUnscaled(hex, 1);
    ChannelUnscaled(hex, 3);
    ChannelUnscaled(hex, 5);
    LowerColor(hex);
  }

  /** A colour in lowercase, character by character. */
  lemma LowerColor(hex: string)
    requires IsHexColor(hex)
    ensures Lower(hex) == "#" + [LowerChar(hex[1]), LowerChar(hex[2])] + [LowerChar(hex[3]), LowerChar(hex[4])]
                             + [LowerChar(hex[5]), LowerChar(hex[6])]
  {
    assert LowerChar(hex[0]) == '#';
  }

  /** A channel scaled by 0 percent is written back as its own two digits, in lowercase. */
  lemma ChannelUnscaled(hex: string, i: int)
    requires IsHexColor(hex) && (i == 1 || i == 3 || i == 5)
    ensures PadStart2(ToHex(Scale(Channel(hex, i), 0))) == [LowerChar(hex[i]), LowerChar(hex[i + 1])]
  {
    var c := Channel(hex, i);
    assert c * 100 / 100 == c;
    assert Scale(c, 0) == c;
    Pair(c);
    assert c / 16 == DigitValue(hex[i]) && c % 16 == DigitValue(hex[i + 1]);
    DigitOfValue(hex[i]);
    DigitOfValue(hex[i + 1]);
  }

  /** Between -100 and 0 percent the result is a colour none of whose channels is lighter than the input's. */
  lemma ShadeDarkens(hex: string, percent: int)
    requires IsHexColor(hex) && -100 <= percent <= 0
    ensures IsHexColor(Shade(hex, percent))
    ensures Channels(Shade(hex, percent)).0 <= Channels(hex).0
    ensures Channels(Shade(hex, percent)).1 <= Channels(hex).1
    ensures Channels(Shade(hex, percent)).2 <= Channels(hex).2
  {
    ShadeShape(hex, percent);
    ScaleDarkens(Channel(hex, 1), percent);
    ScaleDarkens(Channel(hex, 3), percent);
    ScaleDarkens(Channel(hex, 5), percent);
  }

  lemma ScaleDarkens(c: int, percent: int)
    requires 0 <= c <= 255 && -100 <= percent <= 0
    ensures 0 <= Scale(c, percent) <= c
  {
    assert 0 <= c * (100 + percent) <= c * 100;
  }
}
