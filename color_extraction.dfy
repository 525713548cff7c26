/**
 * The palette derivation of `color-extraction.ts`: a four-colour brand palette
 * from the dominant colour of a screenshot, and the fixed palette returned for an
 * image URL. Channel arithmetic is exact: `Math.round(0.6 * c)` and
 * `Math.round(Math.min(255, 1.4 * c))` are computed in tenths.
 */
module ColorExtraction {
  import opened JsStrings
  import opened JsNumbers

  /** One colour channel, as `sharp` reports it for the dominant colour. */
  type Channel = c: int | 0 <= c < 256

  datatype Rgb = Rgb(r: Channel, g: Channel, b: Channel)

  datatype Palette = Palette(primary: string, secondary: string, accent: string, background: string)

  predicate IsLowerHexDigit(c: char) { IsDigit(c) || 'a' <= c <= 'f' }

  /** `#` followed by six hexadecimal digits. */
  predicate IsHexColor(s: string) {
    |s| == 7 && s[0] == '#' && AllSatisfy(s[1..], IsHexDigit)
  }

  /** The palette invariant: all four colours are set, each a six-digit hex colour. */
  predicate WellFormed(p: Palette) {
    IsHexColor(p.primary) && IsHexColor(p.secondary) && IsHexColor(p.accent) && IsHexColor(p.background)
  }

  /** The three channels a hex colour denotes, two digits each. */
  function ColorChannels(s: string): Rgb
    requires IsHexColor(s)
  {
    assert AllSatisfy(s[1..3], IsHexDigit) && AllSatisfy(s[3..5], IsHexDigit) && AllSatisfy(s[5..7], IsHexDigit) by {
      assert s[1..3] == s[1..][0..2] && s[3..5] == s[1..][2..4] && s[5..7] == s[1..][4..6];
    }
    HexValueBound(s[1..3]);
    HexValueBound(s[3..5]);
    HexValueBound(s[5..7]);
    Rgb(HexValue(s[1..3]), HexValue(s[3..5]), HexValue(s[5..7]))
  }

  lemma {:induction false} HexStringValue(n: nat)
    ensures AllSatisfy(HexString(n), IsLowerHexDigit)
    ensures AllSatisfy(HexString(n), IsHexDigit)
    ensures HexValue(HexString(n)) == n
  {
    if n >= 16 {
      HexStringValue(n / 16);
      var s := HexString(n);
      assert s[..|s| - 1] == HexString(n / 16);
    }
  }

  lemma {:induction false} HexStringShort(n: nat)
    requires n < 256
    ensures |HexString(n)| == (if n < 16 then 1 else 2)
  {
    if n >= 16 {
      assert n / 16 < 16;
    }
  }

  /** `Math.round(x).toString(16)`, padded with a leading `0` to two digits. */
  function HexPair(x: Channel): (s: string)
    ensures |s| == 2 && AllSatisfy(s, IsLowerHexDigit) && AllSatisfy(s, IsHexDigit)
    ensures HexValue(s) == x
  {
    var h := HexString(x);
    HexStringValue(x);
    HexStringShort(x);
    var s := if |h| == 1 then "0" + h else h;
    assert |h| == 1 ==> HexValue(s) == 16 * HexValue("0") + HexDigitValue(h[0]) && s[..1] == "0";
    s
  }

  /** `toHex(r, g, b)`: `#` and three two-digit lower-case hex pairs. */
  function ToHex(c: Rgb): (s: string)
    ensures IsHexColor(s) && AllSatisfy(s[1..], IsLowerHexDigit)
    ensures ColorChannels(s) == c
  {
    var pr, pg, pb := HexPair(c.r), HexPair(c.g), HexPair(c.b);
    var s := "#" + pr + pg + pb;
    assert s[1..] == pr + pg + pb;
    assert s[1..3] == pr && s[3..5] == pg && s[5..7] == pb;
    s
  }

  /** `Math.round(t / 10)` for a non-negative number `t` of tenths. */
  function RoundTenths(t: nat): nat { (t + 5) / 10 }

  /** The secondary channel, `Math.round(c * 0.6)`: never above the channel itself. */
  function Darken(c: Channel): (d: Channel)
    ensures d <= c
  {
    RoundTenths(6 * c)
  }

  /** The accent channel, `Math.round(Math.min(255, c * 1.4))`: never below the
      channel itself and never above 255. */
  function Lighten(c: Channel): (d: Channel)
    ensures c <= d
  {
    RoundTenths(if 14 * c < 2550 then 14 * c else 2550)
  }

  /** 1000 times the luminance `0.299 R + 0.587 G + 0.114 B`. */
  function Luminance1000(c: Rgb): int {
    299 * c.r + 587 * c.g + 114 * c.b
  }

  const White := "#FFFFFF"
  const Black := "#000000"

  /** The value of two hexadecimal digits. */
  lemma HexValueOfPair(s: string)
    requires |s| == 2 && AllSatisfy(s, IsHexDigit)
    ensures HexValue(s) == 16 * HexDigitValue(s[0]) + HexDigitValue(s[1])
  {
    var a := s[..1];
    assert a[..0] == [];
    assert HexValue(a) == 16 * HexValue([]) + HexDigitValue(s[0]);
    assert HexValue(s) == 16 * HexValue(a) + HexDigitValue(s[1]);
  }

  /** A literal colour is a hex colour, and its channels are read pair by pair. */
  lemma LiteralColor(s: string)
    requires |s| == 7 && s[0] == '#'
    requires IsHexDigit(s[1]) && IsHexDigit(s[2]) && IsHexDigit(s[3])
    requires IsHexDigit(s[4]) && IsHexDigit(s[5]) && IsHexDigit(s[6])
    ensures IsHexColor(s)
    ensures ColorChannels(s) == Rgb(
      16 * HexDigitValue(s[1]) + HexDigitValue(s[2]),
      16 * HexDigitValue(s[3]) + HexDigitValue(s[4]),
      16 * HexDigitValue(s[5]) + HexDigitValue(s[6]))
  {
    assert forall i :: 0 <= i < 6 ==> s[1..][i] == s[i + 1];
    HexValueOfPair(s[1..3]);
    HexValueOfPair(s[3..5]);
    HexValueOfPair(s[5..7]);
  }

  lemma WhiteAndBlack()
    ensures IsHexColor(White) && ColorChannels(White) == Rgb(255, 255, 255)
    ensures IsHexColor(Black) && ColorChannels(Black) == Rgb(0, 0, 0)
  {
    LiteralColor(White);
    LiteralColor(Black);
  }

  /** `generatePaletteFromDominant`. */
  function GeneratePaletteFromDominant(d: Rgb): (p: Palette)
    ensures WellFormed(p)
    ensures ColorChannels(p.primary) == d
    ensures ColorChannels(p.secondary) == Rgb(Darken(d.r), Darken(d.g), Darken(d.b))
    ensures ColorChannels(p.accent) == Rgb(Lighten(d.r), Lighten(d.g), Lighten(d.b))
    ensures p.background == (if Luminance1000(d) > 128000 then White else Black)
  {
    WhiteAndBlack();
    var secondary := Rgb(Darken(d.r), Darken(d.g), Darken(d.b));
    var accent := Rgb(Lighten(d.r), Lighten(d.g), Lighten(d.b));
    var background := if Luminance1000(d) > 128000 then White else Black;
    Palette(ToHex(d), ToHex(secondary), ToHex(accent), background)
  }

  /** Channel by channel, secondary <= primary <= accent <= 255. */
  lemma PaletteChannelOrder(d: Rgb)
    ensures var p := GeneratePaletteFromDominant(d);
      var s, m, a := ColorChannels(p.secondary), ColorChannels(p.primary), ColorChannels(p.accent);
      && s.r <= m.r <= a.r <= 255 && s.g <= m.g <= a.g <= 255 && s.b <= m.b <= a.b <= 255
  {
  }

  /** The two rounding rules agree with `Math.round` of the real products: no
      tie can arise because `6 c` and `14 c` are even. */
  lemma RoundingExact(c: Channel)
    ensures (Darken(c) as real - 0.6 * c as real) <= 0.5 && (0.6 * c as real - Darken(c) as real) < 0.5
    ensures 14 * c < 2550 ==> (Lighten(c) as real - 1.4 * c as real) <= 0.5 && (1.4 * c as real - Lighten(c) as real) < 0.5
    ensures 14 * c >= 2550 ==> Lighten(c) == 255
  {
  }

  const DefaultPalette := Palette("#0066FF", "#003D99", "#66B3FF", "#FFFFFF")

  /** `extractColorsFromImage`: the same fixed blue palette for every image URL. */
  function ExtractColorsFromImage(imageUrl: string): (p: Palette)
    ensures WellFormed(p)
    ensures ColorChannels(p.primary) == Rgb(0x00, 0x66, 0xFF)
    ensures ColorChannels(p.secondary) == Rgb(0x00, 0x3D, 0x99)
    ensures ColorChannels(p.accent) == Rgb(0x66, 0xB3, 0xFF)
    ensures ColorChannels(p.background) == Rgb(0xFF, 0xFF, 0xFF)
  {
    DefaultPaletteColors();
    DefaultPalette
  }

  lemma DefaultPaletteColors()
    ensures WellFormed(DefaultPalette)
    ensures ColorChannels(DefaultPalette.primary) == Rgb(0x00, 0x66, 0xFF)
    ensures ColorChannels(DefaultPalette.secondary) == Rgb(0x00, 0x3D, 0x99)
    ensures ColorChannels(DefaultPalette.accent) == Rgb(0x66, 0xB3, 0xFF)
    ensures ColorChannels(DefaultPalette.background) == Rgb(0xFF, 0xFF, 0xFF)
  {
    BlueChannels();
    DeepBlueChannels();
    LightBlueChannels();
    WhiteAndBlack();
  }

  lemma BlueChannels()
    ensures IsHexColor("#0066FF") && ColorChannels("#0066FF") == Rgb(0x00, 0x66, 0xFF)
  {
    LiteralColor("#0066FF");
  }

  lemma DeepBlueChannels()
    ensures IsHexColor("#003D99") && ColorChannels("#003D99") == Rgb(0x00, 0x3D, 0x99)
  {
    LiteralColor("#003D99");
  }

  lemma LightBlueChannels()
    ensures IsHexColor("#66B3FF") && ColorChannels("#66B3FF") == Rgb(0x66, 0xB3, 0xFF)
  {
    LiteralColor("#66B3FF");
  }
}
