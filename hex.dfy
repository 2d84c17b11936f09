/** `Colorama.RGBToHTMLColor`: an integer colour triple as the `#rrggbb`
    text the colour swatches display, with a decoder that inverts it. */
module HtmlColor {
  import opened Host

  predicate IsHexDigit(c: char) {
    '0' <= c <= '9' || 'a' <= c <= 'f'
  }

  function HexDigit(d: nat): (c: char)
    requires d < 16
    ensures IsHexDigit(c)
  {
    if d < 10 then (d + '0' as int) as char else (d - 10 + 'a' as int) as char
  }

  function HexValue(c: char): (d: nat)
    requires IsHexDigit(c)
    ensures d < 16 && HexDigit(d) == c
  {
    if '0' <= c <= '9' then c as int - '0' as int else c as int - 'a' as int + 10
  }

  /** The lower-case hexadecimal digits of `n`, with no leading zero. */
  function HexDigits(n: nat): (s: string)
    ensures |s| >= 1
    decreases n
  {
    if n < 16 then [HexDigit(n)] else HexDigits(n / 16) + [HexDigit(n % 16)]
  }

  /** Python's `'%02x' % n`: hexadecimal, zero-padded to two characters; a
      negative number is written with a minus sign, which counts towards the
      width. */
  function Format02x(n: int): (s: string)
    ensures |s| >= 2
    ensures 0 <= n < 256 ==> s == [HexDigit(n / 16), HexDigit(n % 16)]
  {
    if n < 0 then "-" + HexDigits(-n)
    else if n < 16 then "0" + HexDigits(n)
    else
      assert n < 256 ==> HexDigits(n / 16) == [HexDigit(n / 16)];
      HexDigits(n)
  }

  predicate InRange(c: Rgb255) {
    0 <= c.r < 256 && 0 <= c.g < 256 && 0 <= c.b < 256
  }

  /** `'#%02x%02x%02x' % tuple(map(int, rgb_tuple))`. For channels in 0..255
      it is seven characters: `#` and three two-digit lower-case hex fields. */
  function RGBToHTMLColor(c: Rgb255): (s: string)
    ensures |s| >= 7 && s[0] == '#'
  {
    "#" + Format02x(c.r) + Format02x(c.g) + Format02x(c.b)
  }

  /** For channels in 0..255 the text is seven characters: `#` and three
      two-digit lower-case hex fields, one per channel. */
  lemma HtmlColorShape(c: Rgb255)
    requires InRange(c)
    ensures var s := RGBToHTMLColor(c);
      && |s| == 7
      && s[1..3] == [HexDigit(c.r / 16), HexDigit(c.r % 16)]
      && s[3..5] == [HexDigit(c.g / 16), HexDigit(c.g % 16)]
      && s[5..7] == [HexDigit(c.b / 16), HexDigit(c.b % 16)]
      && forall i :: 1 <= i < 7 ==> IsHexDigit(s[i])
  {
    var r, g, b := Format02x(c.r), Format02x(c.g), Format02x(c.b);
    assert RGBToHTMLColor(c) == ['#', r[0], r[1], g[0], g[1], b[0], b[1]];
  }

  function FieldValue(s: string, i: nat): (v: int)
    requires i + 2 <= |s| && IsHexDigit(s[i]) && IsHexDigit(s[i + 1])
    ensures 0 <= v < 256
  {
    HexValue(s[i]) * 16 + HexValue(s[i + 1])
  }

  /** Reads `#rrggbb` with lower-case hex digits back into a triple; any
      other text is not a colour this encoder produces. */
  function ParseHtmlColor(s: string): Option<Rgb255> {
    if |s| == 7 && s[0] == '#' && forall i :: 1 <= i < 7 ==> IsHexDigit(s[i])
    then Some(Rgb255(FieldValue(s, 1), FieldValue(s, 3), FieldValue(s, 5)))
    else None
  }

  lemma FieldRoundTrip(n: int)
    requires 0 <= n < 256
    ensures FieldValue([HexDigit(n / 16), HexDigit(n % 16)], 0) == n
  {
    var s := [HexDigit(n / 16), HexDigit(n % 16)];
    assert HexValue(s[0]) == n / 16 by { HexDigitInjective(HexValue(s[0]), n / 16); }
    assert HexValue(s[1]) == n % 16 by { HexDigitInjective(HexValue(s[1]), n % 16); }
  }

  lemma HexDigitInjective(d: nat, e: nat)
    requires d < 16 && e < 16 && HexDigit(d) == HexDigit(e)
    ensures d == e
  {
  }

  /** Every channel in 0..255 survives encoding and decoding. */
  lemma HtmlColorRoundTrip(c: Rgb255)
    requires InRange(c)
    ensures ParseHtmlColor(RGBToHTMLColor(c)) == Some(c)
  {
    var s := RGBToHTMLColor(c);
    HtmlColorShape(c);
    FieldRoundTrip(c.r);
    FieldRoundTrip(c.g);
    FieldRoundTrip(c.b);
    assert FieldValue(s, 1) == FieldValue(s[1..3], 0);
    assert FieldValue(s, 3) == FieldValue(s[3..5], 0);
    assert FieldValue(s, 5) == FieldValue(s[5..7], 0);
  }

  lemma FieldReencodes(s: string, i: nat)
    requires i + 2 <= |s| && IsHexDigit(s[i]) && IsHexDigit(s[i + 1])
    ensures Format02x(FieldValue(s, i)) == s[i..i + 2]
  {
    var hi, lo := HexValue(s[i]), HexValue(s[i + 1]);
    var v := FieldValue(s, i);
    assert v == hi * 16 + lo;
    assert v / 16 == hi && v % 16 == lo;
    assert Format02x(v) == [s[i], s[i + 1]];
  }

  /** Conversely, every text the decoder accepts is the encoding of the
      triple it decodes to, so the encoder reaches exactly the `#rrggbb`
      strings with lower-case digits. */
  lemma ParsedColorReencodes(s: string, c: Rgb255)
    requires ParseHtmlColor(s) == Some(c)
    ensures InRange(c) && RGBToHTMLColor(c) == s
  {
    FieldReencodes(s, 1);
    FieldReencodes(s, 3);
    FieldReencodes(s, 5);
    assert s == "#" + s[1..3] + s[3..5] + s[5..7];
  }
}
