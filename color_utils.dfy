/** ColorUtils: colours as packed 32-bit ARGB ints. The channel reads and
    the packing are Android's Color.alpha/red/green/blue and Color.argb,
    (a << 24) | (r << 16) | (g << 8) | b, with 8-bit channels: Android
    leaves argb undefined for a component outside 0..255, so the model
    requires the range. parse(String) only rewrites the text before
    Color.parseColor, and parse(int) prints each channel in decimal. */
module Colors {
  import opened JavaLang

  /** The 32 bits of a colour int read as an unsigned number; the Java int
      is c - 2^32 when c >= 2^31 (alpha 128 and above). */
  type Color = c: int | 0 <= c < 0x1_0000_0000

  /** A colour component: 8 bits. */
  type Channel = v: int | 0 <= v < 256

  /** Color.alpha: c >>> 24. */
  function Alpha(c: Color): Channel
  {
    c / 0x100_0000
  }

  /** Color.red: (c >> 16) & 0xFF. */
  function Red(c: Color): Channel
  {
    c / 0x1_0000 % 0x100
  }

  /** Color.green: (c >> 8) & 0xFF. */
  function Green(c: Color): Channel
  {
    c / 0x100 % 0x100
  }

  /** Color.blue: c & 0xFF. */
  function Blue(c: Color): Channel
  {
    c % 0x100
  }

  /** Color.argb(a, r, g, b): the shifted components do not overlap, so the
      bitwise or is their sum. */
  function Argb(a: Channel, r: Channel, g: Channel, b: Channel): Color
  {
    a * 0x100_0000 + r * 0x1_0000 + g * 0x100 + b
  }

  /** parse(r, g, b): Color.rgb, an opaque colour with the given red,
      green and blue. */
  function ParseRgb(r: Channel, g: Channel, b: Channel): (c: Color)
    ensures Alpha(c) == 255 && Red(c) == r && Green(c) == g && Blue(c) == b
  {
    ChannelsOfArgb(0xFF, r, g, b);
    Argb(0xFF, r, g, b)
  }

  /** parse("#FFFFFF"), which Color.parseColor reads as opaque white. */
  const WHITE: Color := 0xFFFF_FFFF

  /** getARGB: four 8-bit channels that pack back into the colour. */
  function GetArgb(c: Color): (channels: seq<int>)
    ensures |channels| == 4 && forall k :: 0 <= k < 4 ==> 0 <= channels[k] < 256
    ensures Argb(channels[0], channels[1], channels[2], channels[3]) == c
  {
    ArgbOfChannels(c);
    [Alpha(c), Red(c), Green(c), Blue(c)]
  }

  /** getRGB. */
  function GetRgb(c: Color): (channels: seq<int>)
    ensures channels == GetArgb(c)[1..]
  {
    [Red(c), Green(c), Blue(c)]
  }

  /** setAlpha: alpha replaced, the colour itself kept. */
  function SetAlpha(c: Color, alpha: Channel): (s: Color)
    ensures Alpha(s) == alpha && Red(s) == Red(c) && Green(s) == Green(c) && Blue(s) == Blue(c)
  {
    ChannelsOfArgb(alpha, Red(c), Green(c), Blue(c));
    Argb(alpha, Red(c), Green(c), Blue(c))
  }

  /** setRed: red replaced, the other three channels kept. */
  function SetRed(c: Color, red: Channel): (s: Color)
    ensures Red(s) == red && Alpha(s) == Alpha(c) && Green(s) == Green(c) && Blue(s) == Blue(c)
  {
    ChannelsOfArgb(Alpha(c), red, Green(c), Blue(c));
    Argb(Alpha(c), red, Green(c), Blue(c))
  }

  /** setGreen: green replaced, the other three channels kept. */
  function SetGreen(c: Color, green: Channel): (s: Color)
    ensures Green(s) == green && Alpha(s) == Alpha(c) && Red(s) == Red(c) && Blue(s) == Blue(c)
  {
    ChannelsOfArgb(Alpha(c), Red(c), green, Blue(c));
    Argb(Alpha(c), Red(c), green, Blue(c))
  }

  /** setBlue: blue replaced, the other three channels kept. */
  function SetBlue(c: Color, blue: Channel): (s: Color)
    ensures Blue(s) == blue && Alpha(s) == Alpha(c) && Red(s) == Red(c) && Green(s) == Green(c)
  {
    ChannelsOfArgb(Alpha(c), Red(c), Green(c), blue);
    Argb(Alpha(c), Red(c), Green(c), blue)
  }

  /** What parse(String) hands to Color.parseColor: a missing leading '#'
      is appended at the end, and any four-character result s0 s1 s2 s3
      becomes s0 s1 s1 s2 s2 s3 s3. A text that already starts with '#'
      passes unchanged unless it has four characters; one without '#' gets
      it at the end, and the result always holds a '#'. */
  function PreparedHex(hex: string): (prepared: string)
    ensures '#' in prepared
    ensures StartsWith(hex, "#") && |hex| != 4 ==> prepared == hex
    ensures !StartsWith(hex, "#") && |hex| != 3 ==> prepared == hex + "#"
    ensures |prepared| == 7 || prepared == hex || prepared == hex + "#"
    ensures var h := if StartsWith(hex, "#") then hex else hex + "#";
            |h| == 4 ==> |prepared| == 7 && prepared[0] == h[0]
                         && forall k :: 1 <= k < 7 ==> prepared[k] == h[(k + 1) / 2]
  {
    var h := if StartsWith(hex, "#") then hex else hex + "#";
    assert '#' in h by {
      if StartsWith(hex, "#") { assert h[0] == '#'; } else { assert h[|h| - 1] == '#'; }
    }
    if |h| == 4 then [h[0], h[1], h[1], h[2], h[2], h[3], h[3]] else h
  }

  /** One channel as parse(int) prints it: "0" below 10, else its decimal
      digits (the ternary binds the concatenation to its else branch). */
  function ChannelText(v: int): string
  {
    if v < 10 then "0" else IntToString(v)
  }

  /** parse(int): '#' and the four channels, A, R, G, B. It starts with
      '#' and is made only of decimal digits after it, so it is never
      hexadecimal; between 5 and 13 characters long. */
  function Format(c: Color): (s: string)
    ensures 5 <= |s| <= 13 && s[0] == '#'
    ensures forall k :: 1 <= k < |s| ==> IsDigit(s[k])
  {
    ChannelTextDigits(Alpha(c));
    ChannelTextDigits(Red(c));
    ChannelTextDigits(Green(c));
    ChannelTextDigits(Blue(c));
    "#" + ChannelText(Alpha(c)) + ChannelText(Red(c)) + ChannelText(Green(c)) + ChannelText(Blue(c))
  }

  // ------------------------------------------------------------ lemmas

  /** Packing the four channels of a colour gives the colour back. */
  lemma ArgbOfChannels(c: Color)
    ensures Argb(Alpha(c), Red(c), Green(c), Blue(c)) == c
  {
    var high := c / 0x1_0000;
    var low := c % 0x1_0000;
    assert c == high * 0x1_0000 + low;
    assert high == Alpha(c) * 0x100 + Red(c);
    assert low == Green(c) * 0x100 + Blue(c);
  }

  /** Packing channels, each reads back. */
  lemma ChannelsOfArgb(a: Channel, r: Channel, g: Channel, b: Channel)
    ensures var c := Argb(a, r, g, b);
            Alpha(c) == a && Red(c) == r && Green(c) == g && Blue(c) == b
  {
    var c := Argb(a, r, g, b);
    assert c == (a * 0x100 + r) * 0x1_0000 + (g * 0x100 + b);
    assert c / 0x1_0000 == a * 0x100 + r;
    assert c % 0x1_0000 == g * 0x100 + b;
    assert c / 0x100 == (a * 0x100 + r) * 0x100 + g;
  }

  /** Setting a channel to its own value changes nothing. */
  lemma SetOwnValueIsIdentity(c: Color)
    ensures SetAlpha(c, Alpha(c)) == c && SetRed(c, Red(c)) == c
    ensures SetGreen(c, Green(c)) == c && SetBlue(c, Blue(c)) == c
  {
    ArgbOfChannels(c);
  }

  /** The short form "#RGB" doubles each digit; "abc" becomes "abbcc##". */
  lemma PreparedHexExamples()
    ensures PreparedHex("#f0a") == "#ff00aa"
    ensures PreparedHex("abc") == "abbcc##"
    ensures PreparedHex("#ff00aa") == "#ff00aa"
  {
    assert StartsWith("#f0a", "#");
    assert "abc"[..1] == "a";
    assert StartsWith("#ff00aa", "#");
  }

  lemma ChannelTextDigits(v: int)
    requires 0 <= v < 256
    ensures 1 <= |ChannelText(v)| <= 3
    ensures forall k :: 0 <= k < |ChannelText(v)| ==> IsDigit(ChannelText(v)[k])
  {
    if v >= 10 {
      assert ChannelText(v) == Digits(v);
      if v >= 100 {
        assert Digits(v) == Digits(v / 10) + [DigitChar(v % 10)];
        assert Digits(v / 10) == Digits(v / 100) + [DigitChar(v / 10 % 10)];
      } else {
        assert Digits(v) == Digits(v / 10) + [DigitChar(v % 10)];
      }
    }
  }

  /** Every channel below 10 prints as "0": fully transparent black and a
      dark blue with blue 9 both print "#0000". */
  lemma FormatLosesSmallChannels()
    ensures Format(0) == "#0000" && Format(9) == "#0000"
  {
    assert Alpha(0) == 0 && Red(0) == 0 && Green(0) == 0 && Blue(0) == 0;
    assert Alpha(9) == 0 && Red(9) == 0 && Green(9) == 0 && Blue(9) == 9;
    assert ChannelText(0) == "0" && ChannelText(9) == "0";
  }
}
