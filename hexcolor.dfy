// hex_to_tuple of src/utils/img.rs (duplicated in src/svg_utils.rs): parse "#RRGGBB" or
// "#RRGGBBAA" into four channel bytes, and bg_svg's fall-back to transparent black.
// Channels are kept as the bytes 0..255; the division by 255.0 is not modelled.

module HexColor {
  import opened Optional

  newtype byte = x: int | 0 <= x < 256

  const Hash: byte := 0x23
  const Plus: byte := 0x2B
  const Minus: byte := 0x2D

  /** A colour as four channel bytes. */
  datatype Rgba = Rgba(r: nat, g: nat, b: nat, a: nat)

  /** hex_to_tuple's three outcomes: a colour, a ParseIntError, or a panic from slicing the string. */
  datatype Parsed = Color(rgba: Rgba) | ParseError | Panic

  // ---------------------------------------------------------------------
  // str operations on the UTF-8 bytes of the input.
  // ---------------------------------------------------------------------

  /** trim_start_matches('#'): drop every leading '#'. */
  function TrimHashes(s: seq<byte>): (t: seq<byte>)
    ensures |t| <= |s| && t == s[|s| - |t|..]
    ensures t == [] || t[0] != Hash
    ensures forall k :: 0 <= k < |s| - |t| ==> s[k] == Hash
    decreases |s|
  {
    if s != [] && s[0] == Hash then TrimHashes(s[1..]) else s
  }

  /** str::is_char_boundary: the ends of the string, or an index whose byte does not continue a
      multi-byte character (0x80 ..= 0xBF). */
  predicate IsCharBoundary(s: seq<byte>, i: nat) {
    i == 0 || i == |s| || (i < |s| && !(0x80 <= s[i] <= 0xBF))
  }

  /** The byte range i..j can be taken as a &str: `&s[i..j]` does not panic and `s.get(i..j)` is Some. */
  predicate SliceOk(s: seq<byte>, i: nat, j: nat) {
    i <= j <= |s| && IsCharBoundary(s, i) && IsCharBoundary(s, j)
  }

  // ---------------------------------------------------------------------
  // u8::from_str_radix(_, 16).
  // ---------------------------------------------------------------------

  /** char::to_digit(16): '0'..'9', 'a'..'f' and 'A'..'F', upper and lower case alike. */
  function HexDigit(c: byte): (d: Option<nat>)
    ensures d.Some? <==> 0x30 <= c <= 0x39 || 0x61 <= c <= 0x66 || 0x41 <= c <= 0x46
    ensures d.Some? ==> d.value < 16
  {
    if 0x30 <= c <= 0x39 then Some((c - 0x30) as nat)
    else if 0x61 <= c <= 0x66 then Some((c - 0x61 + 10) as nat)
    else if 0x41 <= c <= 0x46 then Some((c - 0x41 + 10) as nat)
    else None
  }

  /** The base-16 value of the digits, most significant first, or None at the first non-digit. */
  function DigitsValue(ds: seq<byte>): (v: Option<nat>)
    ensures v.None? <==> exists k :: 0 <= k < |ds| && HexDigit(ds[k]).None?
    decreases |ds|
  {
    if ds == [] then Some(0)
    else
      match (DigitsValue(ds[..|ds| - 1]), HexDigit(ds[|ds| - 1]))
      case (Some(high), Some(low)) => Some(high * 16 + low)
      case _ => None
  }

  /** u8::from_str_radix(s, 16): empty input and a lone sign are errors; one leading '+' is
      accepted ('-' is not, the type being unsigned); every other byte must be a hex digit and the
      value must fit in a byte. */
  function ParseU8(s: seq<byte>): (r: Option<nat>)
    ensures r.Some? ==> r.value < 256
    ensures s == [] || s == [Plus] || s == [Minus] ==> r.None?
    ensures (exists k :: 1 <= k < |s| && HexDigit(s[k]).None?) ==> r.None?
    ensures s != [] && s[0] != Plus && HexDigit(s[0]).None? ==> r.None?
  {
    if s == [] || s == [Plus] || s == [Minus] then None
    else
      var digits := if s[0] == Plus then s[1..] else s;
      match DigitsValue(digits)
      case Some(v) => if v < 256 then Some(v) else None
      case None => None
  }

  // ---------------------------------------------------------------------
  // hex_to_tuple and bg_svg.
  // ---------------------------------------------------------------------

  /** What one `u8::from_str_radix(&hex[i..i + 2], 16)?` yields: the byte, an error, or a panic. */
  datatype Channel = Value(v: nat) | Bad | Crash

  function ChannelAt(hex: seq<byte>, i: nat): (ch: Channel)
    ensures ch.Value? ==> ch.v < 256
  {
    if !SliceOk(hex, i, i + 2) then Crash
    else match ParseU8(hex[i..i + 2])
      case Some(v) => Value(v)
      case None => Bad
  }

  /** The alpha channel: parsed from bytes 6..8 when `hex.get(6..8)` finds them, otherwise 255. */
  function AlphaAt(hex: seq<byte>): (ch: Channel)
    ensures !ch.Crash?
    ensures ch.Value? ==> ch.v < 256
  {
    if SliceOk(hex, 6, 8) then ChannelAt(hex, 6) else Value(255)
  }

  /** How a failed channel ends hex_to_tuple. */
  function Failure(ch: Channel): Parsed
    requires !ch.Value?
  {
    if ch.Crash? then Panic else ParseError
  }

  /** hex_to_tuple: strip the '#'s, then red, green, blue and alpha in that order, the first failure
      deciding the outcome. */
  function HexToTuple(s: seq<byte>): (p: Parsed)
    ensures p.Color? ==> p.rgba.r < 256 && p.rgba.g < 256 && p.rgba.b < 256 && p.rgba.a < 256
  {
    var hex := TrimHashes(s);
    var r := ChannelAt(hex, 0);
    if !r.Value? then Failure(r)
    else
      var g := ChannelAt(hex, 2);
      if !g.Value? then Failure(g)
      else
        var b := ChannelAt(hex, 4);
        if !b.Value? then Failure(b)
        else
          var a := AlphaAt(hex);
          if !a.Value? then Failure(a)
          else Color(Rgba(r.v, g.v, b.v, a.v))
  }

  /** bg_svg's colour: the parsed colour, transparent black for a string that does not parse, and
      None where hex_to_tuple panics (the panic propagates out of bg_svg). */
  function BgColor(s: seq<byte>): (r: Option<Rgba>)
    ensures r.Some? ==> r.value.r < 256 && r.value.g < 256 && r.value.b < 256 && r.value.a < 256
  {
    match HexToTuple(s)
    case Color(c) => Some(c)
    case ParseError => Some(Rgba(0, 0, 0, 0))
    case Panic => None
  }

  // ---------------------------------------------------------------------
  // The encoder the parser inverts: "#" followed by two lower-case hex digits per channel.
  // ---------------------------------------------------------------------

  function LowerDigit(d: nat): (c: byte)
    requires d < 16
    ensures HexDigit(c) == Some(d)
  {
    if d < 10 then (0x30 + d) as byte else (0x61 + d - 10) as byte
  }

  /** format!("{:02x}", v). */
  function HexPair(v: nat): (s: seq<byte>)
    requires v < 256
    ensures |s| == 2 && s[0] != Hash && s[0] != Plus && s[0] < 0x80 && s[1] < 0x80
  {
    [LowerDigit(v / 16), LowerDigit(v % 16)]
  }

  /** "#rrggbbaa". */
  function Encode(c: Rgba): (s: seq<byte>)
    requires c.r < 256 && c.g < 256 && c.b < 256 && c.a < 256
    ensures |s| == 9 && s[0] == Hash
  {
    [Hash] + HexPair(c.r) + HexPair(c.g) + HexPair(c.b) + HexPair(c.a)
  }

  /** "#rrggbb". */
  function EncodeOpaque(r: nat, g: nat, b: nat): (s: seq<byte>)
    requires r < 256 && g < 256 && b < 256
    ensures |s| == 7 && s[0] == Hash
  {
    [Hash] + HexPair(r) + HexPair(g) + HexPair(b)
  }

  // ---------------------------------------------------------------------
  // Properties.
  // ---------------------------------------------------------------------

  /** Two hex digits parse back to the byte they encode. */
  lemma ParsePair(v: nat)
    requires v < 256
    ensures ParseU8(HexPair(v)) == Some(v)
  {
    var s := HexPair(v);
    assert s[..1] == [LowerDigit(v / 16)];
    assert DigitsValue(s[..1]) == Some(v / 16) by {
      assert s[..1][..0] == [];
    }
  }

  /** A single '+' sign before one hex digit is accepted by from_str_radix. */
  lemma ParsePlusDigit(d: nat)
    requires d < 16
    ensures ParseU8([Plus, LowerDigit(d)]) == Some(d)
  {
    var digit := LowerDigit(d);
    var s := [Plus, digit];
    assert s[1..] == [digit];
    assert [digit][..0] == [];
    assert DigitsValue([digit]) == Some(d);
  }

  /** The channel of two ASCII hex digits at i. */
  lemma PairChannel(hex: seq<byte>, i: nat, v: nat)
    requires v < 256 && i + 2 <= |hex| && hex[i..i + 2] == HexPair(v)
    requires i == 0 || hex[i] < 0x80
    requires i + 2 == |hex| || hex[i + 2] < 0x80
    ensures ChannelAt(hex, i) == Value(v)
  {
    ParsePair(v);
  }

  /** Parsing an encoded colour gives the colour back. */
  lemma EncodeRoundTrip(c: Rgba)
    requires c.r < 256 && c.g < 256 && c.b < 256 && c.a < 256
    ensures HexToTuple(Encode(c)) == Color(c)
  {
    var s := Encode(c);
    var hex := s[1..];
    assert hex == HexPair(c.r) + HexPair(c.g) + HexPair(c.b) + HexPair(c.a);
    assert TrimHashes(s) == TrimHashes(hex) == hex;
    PairChannel(hex, 0, c.r);
    PairChannel(hex, 2, c.g);
    PairChannel(hex, 4, c.b);
    PairChannel(hex, 6, c.a);
  }

  /** Six digits leave the alpha channel out; it defaults to fully opaque. */
  lemma EncodeOpaqueRoundTrip(r: nat, g: nat, b: nat)
    requires r < 256 && g < 256 && b < 256
    ensures HexToTuple(EncodeOpaque(r, g, b)) == Color(Rgba(r, g, b, 255))
  {
    var s := EncodeOpaque(r, g, b);
    var hex := s[1..];
    assert hex == HexPair(r) + HexPair(g) + HexPair(b);
    assert TrimHashes(s) == TrimHashes(hex) == hex;
    PairChannel(hex, 0, r);
    PairChannel(hex, 2, g);
    PairChannel(hex, 4, b);
  }

  /** Any number of leading '#'s is ignored, including none. */
  lemma HashesIgnored(n: nat, s: seq<byte>)
    ensures HexToTuple(seq(n, _ => Hash) + s) == HexToTuple(s)
  {
    TrimLeadingHashes(n, s);
  }

  lemma {:induction false} TrimLeadingHashes(n: nat, s: seq<byte>)
    ensures TrimHashes(seq(n, _ => Hash) + s) == TrimHashes(s)
    decreases n
  {
    var hs := seq(n, _ => Hash);
    if n > 0 {
      assert (hs + s)[0] == Hash;
      assert (hs + s)[1..] == seq(n - 1, _ => Hash) + s;
      TrimLeadingHashes(n - 1, s);
    } else {
      assert hs + s == s;
    }
  }

  /** Fewer than two bytes after the '#'s: slicing 0..2 panics. */
  lemma TooShortPanics(s: seq<byte>)
    requires |TrimHashes(s)| < 2
    ensures HexToTuple(s) == Panic
  {
  }

  /** Fewer than six bytes after the '#'s never yields a colour. */
  lemma ShortNeverColor(s: seq<byte>)
    requires |TrimHashes(s)| < 6
    ensures !HexToTuple(s).Color?
  {
    assert !ChannelAt(TrimHashes(s), 4).Value?;
  }

  /** With fewer than eight bytes after the '#'s, any colour found is fully opaque. */
  lemma ShortIsOpaque(s: seq<byte>)
    requires |TrimHashes(s)| < 8 && HexToTuple(s).Color?
    ensures HexToTuple(s).rgba.a == 255
  {
    var hex := TrimHashes(s);
    assert !SliceOk(hex, 6, 8);
    assert AlphaAt(hex) == Value(255);
  }

  /** Bytes past the eighth are never looked at, as long as the eighth ends a character. */
  lemma TailIgnored(hex: seq<byte>, tail: seq<byte>)
    requires |hex| == 8 && hex[0] != Hash && (tail == [] || !(0x80 <= tail[0] <= 0xBF))
    ensures HexToTuple(hex + tail) == HexToTuple(hex)
  {
    var s := hex + tail;
    assert s[..8] == hex;
    forall i | 0 <= i <= 6 && i % 2 == 0
      ensures ChannelAt(s, i) == ChannelAt(hex, i)
    {
      assert s[i..i + 2] == hex[i..i + 2];
    }
    assert SliceOk(s, 6, 8) == SliceOk(hex, 6, 8);
  }

  /** Two hex digits, in either case, parse to their base-16 value. */
  lemma ParseDigits(x: byte, y: byte)
    requires HexDigit(x).Some? && HexDigit(y).Some?
    ensures ParseU8([x, y]) == Some(16 * HexDigit(x).value + HexDigit(y).value)
  {
    var s := [x, y];
    assert s[0] != Plus;
    assert s[..1] == [x];
    assert s[..1][..0] == [];
    assert DigitsValue(s[..1]) == Some(HexDigit(x).value);
    assert s[..|s| - 1] == [x];
  }

  /** A '+' before one hex digit parses to that digit's value. */
  lemma ParseSignedDigit(y: byte)
    requires HexDigit(y).Some?
    ensures ParseU8([Plus, y]) == Some(HexDigit(y).value)
  {
    var s := [Plus, y];
    assert s[1..] == [y];
    var d := [y];
    assert d[..|d| - 1] == [];
    assert DigitsValue(d) == Some(HexDigit(y).value);
  }

  /** An upper-case digit has the value of its lower-case form. */
  lemma DigitCaseInsensitive(c: byte)
    requires 0x41 <= c <= 0x46
    ensures HexDigit(c) == HexDigit(c + 0x20) != None
  {
  }

  /** Upper-case digits are accepted: "FF" is 255. */
  lemma ParseUpperCase()
    ensures ParseU8([0x46, 0x46]) == Some(255)
  {
    ParseDigits(0x46, 0x46);
  }

  /** Which of the three outcomes one two-byte channel has: a panic exactly when the slice is not a
      &str; otherwise a value when both bytes are hex digits or a '+' precedes one digit, and a
      ParseIntError in every other case. */
  lemma ChannelAtCases(hex: seq<byte>, i: nat)
    ensures ChannelAt(hex, i).Crash? <==> !SliceOk(hex, i, i + 2)
    ensures SliceOk(hex, i, i + 2) && HexDigit(hex[i]).Some? && HexDigit(hex[i + 1]).Some? ==>
              ChannelAt(hex, i) == Value(16 * HexDigit(hex[i]).value + HexDigit(hex[i + 1]).value)
    ensures SliceOk(hex, i, i + 2) && hex[i] == Plus && HexDigit(hex[i + 1]).Some? ==>
              ChannelAt(hex, i) == Value(HexDigit(hex[i + 1]).value)
    ensures SliceOk(hex, i, i + 2) && HexDigit(hex[i + 1]).None? ==> ChannelAt(hex, i) == Bad
    ensures SliceOk(hex, i, i + 2) && HexDigit(hex[i]).None? && hex[i] != Plus ==> ChannelAt(hex, i) == Bad
  {
    if SliceOk(hex, i, i + 2) {
      var pair := hex[i..i + 2];
      assert pair == [hex[i], hex[i + 1]];
      if HexDigit(hex[i]).Some? && HexDigit(hex[i + 1]).Some? {
        ParseDigits(hex[i], hex[i + 1]);
      }
      if hex[i] == Plus && HexDigit(hex[i + 1]).Some? {
        ParseSignedDigit(hex[i + 1]);
      }
    }
  }

  /** The first channel that fails to parse ends the call with a ParseIntError: the channels after it
      are never sliced. */
  lemma ChannelErrorStops(s: seq<byte>, i: nat)
    requires i == 0 || i == 2 || i == 4
    requires forall j :: 0 <= j < i && j % 2 == 0 ==> ChannelAt(TrimHashes(s), j).Value?
    requires ChannelAt(TrimHashes(s), i) == Bad
    ensures HexToTuple(s) == ParseError
  {
    var hex := TrimHashes(s);
    if i >= 2 {
      assert ChannelAt(hex, 0).Value?;
    }
    if i == 4 {
      assert ChannelAt(hex, 2).Value?;
    }
  }

  /** A first byte that is neither a hex digit nor '+' makes the call a ParseIntError, whatever follows,
      once the red slice is a &str. */
  lemma BadRedIsError(s: seq<byte>)
    requires SliceOk(TrimHashes(s), 0, 2)
    requires HexDigit(TrimHashes(s)[0]).None? && TrimHashes(s)[0] != Plus
    ensures HexToTuple(s) == ParseError
  {
    ChannelAtCases(TrimHashes(s), 0);
    ChannelErrorStops(s, 0);
  }

  /** "zz" followed by one ASCII byte: slicing green at 2..4 would panic, but red fails first. */
  lemma ErrorBeforePanic(s: seq<byte>)
    requires |TrimHashes(s)| == 3 && TrimHashes(s)[2] < 0x80
    requires HexDigit(TrimHashes(s)[0]).None? && TrimHashes(s)[0] != Plus
    ensures ChannelAt(TrimHashes(s), 2) == Crash
    ensures HexToTuple(s) == ParseError
  {
    BadRedIsError(s);
  }

  /** A string whose red pair is not hex draws a transparent background. */
  lemma BgColorFallback(s: seq<byte>)
    requires SliceOk(TrimHashes(s), 0, 2)
    requires HexDigit(TrimHashes(s)[0]).None? && TrimHashes(s)[0] != Plus
    ensures BgColor(s) == Some(Rgba(0, 0, 0, 0))
  {
    BadRedIsError(s);
  }

  /** An encoded colour draws itself. */
  lemma BgColorOfEncoded(c: Rgba)
    requires c.r < 256 && c.g < 256 && c.b < 256 && c.a < 256
    ensures BgColor(Encode(c)) == Some(c)
  {
    EncodeRoundTrip(c);
  }

  /** Fewer than two bytes after the '#'s: bg_svg does not survive the call. */
  lemma BgColorPanics(s: seq<byte>)
    requires |TrimHashes(s)| < 2
    ensures BgColor(s).None?
  {
    TooShortPanics(s);
  }
}
