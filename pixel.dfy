/** The RGBA color of `src/utils/pixel.rs`. Channels are `f64` in the source
    and exact reals here; each channel is meant to lie in [0, 1]. */
module Pixel {
  import Num

  datatype RGB = RGB(r: real, g: real, b: real, a: real)

  predicate InUnitRange(v: real)
  {
    0.0 <= v <= 1.0
  }

  predicate IsNormalized(c: RGB)
  {
    InUnitRange(c.r) && InUnitRange(c.g) && InUnitRange(c.b) && InUnitRange(c.a)
  }

  function Max(x: real, y: real): real { if x >= y then x else y }

  function Min(x: real, y: real): real { if x <= y then x else y }

  /** `Add`: channel-wise sum of the color channels, the larger alpha. */
  function Add(c: RGB, d: RGB): RGB
  {
    RGB(c.r + d.r, c.g + d.g, c.b + d.b, Max(c.a, d.a))
  }

  /** `Sub`: channel-wise difference of the color channels, the smaller alpha. */
  function Sub(c: RGB, d: RGB): RGB
  {
    RGB(c.r - d.r, c.g - d.g, c.b - d.b, Min(c.a, d.a))
  }

  /** Subtracting what was added restores the color channels; alpha becomes
      the alpha of the operand, because max then min keeps it. */
  lemma AddThenSub(c: RGB, d: RGB)
    ensures Sub(Add(c, d), d) == RGB(c.r, c.g, c.b, d.a)
    ensures Add(c, d) == Add(d, c)
  {
  }

  /** Adding two normalized colors never lowers alpha below either operand's,
      and subtracting never raises it above either. */
  lemma AlphaRules(c: RGB, d: RGB)
    ensures Add(c, d).a >= c.a && Add(c, d).a >= d.a && (Add(c, d).a == c.a || Add(c, d).a == d.a)
    ensures Sub(c, d).a <= c.a && Sub(c, d).a <= d.a && (Sub(c, d).a == c.a || Sub(c, d).a == d.a)
  {
  }

  /** `f64::clamp(0.0, 1.0)`. */
  function Clamp(v: real): (r: real)
    ensures InUnitRange(r)
    ensures InUnitRange(v) ==> r == v
    ensures v < 0.0 ==> r == 0.0
    ensures v > 1.0 ==> r == 1.0
  {
    if v < 0.0 then 0.0 else if v > 1.0 then 1.0 else v
  }

  /** `add_luminosity`: the same amount added to r, g and b; alpha untouched. */
  function AddLuminosity(c: RGB, amount: real): (d: RGB)
    ensures Sub(d, c) == RGB(amount, amount, amount, c.a)
    ensures d.a == c.a
  {
    c.(r := c.r + amount, g := c.g + amount, b := c.b + amount)
  }

  /** `x` is `v` clamped to `[0, 1]`: `v` itself inside the range, 0 below
      it and 1 above it. */
  predicate ClampedFrom(x: real, v: real)
  {
    && (InUnitRange(v) ==> x == v)
    && (v < 0.0 ==> x == 0.0)
    && (v > 1.0 ==> x == 1.0)
  }

  /** `set_value`: r, g and b all become the clamped value; alpha untouched. */
  function SetValue(c: RGB, value: real): (d: RGB)
    ensures InUnitRange(d.r) && InUnitRange(d.g) && InUnitRange(d.b) && d.a == c.a
    ensures d.r == d.g == d.b
    ensures ClampedFrom(d.r, value)
  {
    c.(r := Clamp(value), g := Clamp(value), b := Clamp(value))
  }

  /** `set_rgba`: every channel becomes the clamped channel of `amount`. */
  function SetRgba(c: RGB, amount: RGB): (d: RGB)
    ensures IsNormalized(d)
    ensures IsNormalized(amount) ==> d == amount
    ensures ClampedFrom(d.r, amount.r) && ClampedFrom(d.g, amount.g)
    ensures ClampedFrom(d.b, amount.b) && ClampedFrom(d.a, amount.a)
  {
    RGB(Clamp(amount.r), Clamp(amount.g), Clamp(amount.b), Clamp(amount.a))
  }

  /** `grayscale`: the luma of the color with the weights 0.299, 0.587, 0.114. */
  function Grayscale(c: RGB): (v: real)
    ensures IsNormalized(c) ==> 0.0 <= v <= 1.0
  {
    0.299 * c.r + 0.587 * c.g + 0.114 * c.b
  }

  /** `from_u8`: each byte scaled by 1/255. */
  function FromU8(r: nat, g: nat, b: nat, a: nat): (c: RGB)
    requires r < 256 && g < 256 && b < 256 && a < 256
    ensures IsNormalized(c)
  {
    RGB(r as real / 255.0, g as real / 255.0, b as real / 255.0, a as real / 255.0)
  }

  // ---------------------------------------------------------------------------
  // Hex parsing (`from_hex`)

  datatype HexResult = Parsed(color: RGB) | ParseError | Panic

  datatype ParsedPair = Valid(value: nat) | InvalidDigit

  /** ASCII white space, as removed by `trim`. */
  predicate IsSpace(c: char)
  {
    c == ' ' || c == '\t' || c == '\n' || c == '\r' || c == '\U{0B}' || c == '\U{0C}'
  }

  function TrimStart(s: string): (t: string)
    ensures |t| <= |s|
    ensures t == [] || !IsSpace(t[0])
  {
    if s != [] && IsSpace(s[0]) then TrimStart(s[1..]) else s
  }

  function TrimEnd(s: string): (t: string)
    ensures |t| <= |s|
    ensures t == [] || !IsSpace(t[|t| - 1])
  {
    if s != [] && IsSpace(s[|s| - 1]) then TrimEnd(s[..|s| - 1]) else s
  }

  /** `TrimStart` keeps a suffix of the string and removes only white space. */
  lemma {:induction false} TrimStartIsSuffix(s: string)
    ensures TrimStart(s) == s[|s| - |TrimStart(s)|..]
    ensures forall j :: 0 <= j < |s| - |TrimStart(s)| ==> IsSpace(s[j])
  {
    if s != [] && IsSpace(s[0]) {
      TrimStartIsSuffix(s[1..]);
    }
  }

  /** `TrimEnd` keeps a prefix of the string and removes only white space. */
  lemma {:induction false} TrimEndIsPrefix(s: string)
    ensures TrimEnd(s) == s[..|TrimEnd(s)|]
    ensures forall j :: |TrimEnd(s)| <= j < |s| ==> IsSpace(s[j])
  {
    if s != [] && IsSpace(s[|s| - 1]) {
      TrimEndIsPrefix(s[..|s| - 1]);
    }
  }

  /** `trim`: white space removed at both ends. */
  function Trim(s: string): string
  {
    TrimEnd(TrimStart(s))
  }

  function ToLowerChar(c: char): char
  {
    if 'A' <= c <= 'Z' then (c as int - 'A' as int + 'a' as int) as char else c
  }

  /** `to_lowercase` on ASCII letters. */
  function ToLower(s: string): (t: string)
    ensures |t| == |s| && forall i :: 0 <= i < |s| ==> t[i] == ToLowerChar(s[i])
  {
    if s == [] then [] else [ToLowerChar(s[0])] + ToLower(s[1..])
  }

  /** `replace("#", "")`: every '#' removed, every other character kept in order. */
  function RemoveHashes(s: string): (t: string)
    ensures |t| <= |s| && '#' !in t
    ensures '#' !in s ==> t == s
    ensures |s| == 1 ==> t == if s[0] == '#' then [] else s
  {
    if s == [] then []
    else if s[0] == '#' then RemoveHashes(s[1..])
    else [s[0]] + RemoveHashes(s[1..])
  }

  /** Removing the hashes of a concatenation removes them from each part. */
  lemma {:induction false} RemoveHashesAppend(a: string, b: string)
    ensures RemoveHashes(a + b) == RemoveHashes(a) + RemoveHashes(b)
  {
    if a == [] {
      assert a + b == b;
    } else {
      assert (a + b)[1..] == a[1..] + b;
      RemoveHashesAppend(a[1..], b);
    }
  }

  /** The cleaned string `from_hex` slices: trimmed, lower-cased, '#'-free. */
  function CleanHex(s: string): string
  {
    RemoveHashes(ToLower(Trim(s)))
  }

  predicate IsLowerHexDigit(c: char)
  {
    '0' <= c <= '9' || 'a' <= c <= 'f'
  }

  function HexDigitValue(c: char): (v: nat)
    requires IsLowerHexDigit(c)
    ensures v < 16
  {
    if '0' <= c <= '9' then c as int - '0' as int else c as int - 'a' as int + 10
  }

  /** `u32::from_str_radix(pair, 16)` on a two-character string: an optional
      leading '+' then hex digits; anything else is an error. */
  function ParseHexPair(p: string): (r: ParsedPair)
    requires |p| == 2
    ensures r.Valid? ==> r.value < 256
    ensures r.Valid? <==> (IsLowerHexDigit(p[1]) && (p[0] == '+' || IsLowerHexDigit(p[0])))
  {
    if p[0] == '+' then
      if IsLowerHexDigit(p[1]) then Valid(HexDigitValue(p[1])) else InvalidDigit
    else if IsLowerHexDigit(p[0]) && IsLowerHexDigit(p[1]) then
      Valid(16 * HexDigitValue(p[0]) + HexDigitValue(p[1]))
    else InvalidDigit
  }

  /** The parsing step of `from_hex` on the cleaned string: bytes [0, 2), [2, 4)
      and [4, 6); a string shorter than six bytes panics on the slice. */
  function FromCleanHex(t: string): (r: HexResult)
    ensures r.Panic? <==> |t| < 6
    ensures r.Parsed? ==> IsNormalized(r.color) && r.color.a == 1.0
    ensures |t| >= 6 ==> (r.Parsed? <==> forall i :: 0 <= i < 3 ==> ParseHexPair(t[2 * i..2 * i + 2]).Valid?)
  {
    if |t| < 6 then Panic
    else
      var r := ParseHexPair(t[0..2]);
      var g := ParseHexPair(t[2..4]);
      var b := ParseHexPair(t[4..6]);
      assert t[0..2] == t[2 * 0..2 * 0 + 2] && t[2..4] == t[2 * 1..2 * 1 + 2] && t[4..6] == t[2 * 2..2 * 2 + 2];
      if r.InvalidDigit? || g.InvalidDigit? || b.InvalidDigit? then ParseError
      else Parsed(RGB(r.value as real / 255.0, g.value as real / 255.0, b.value as real / 255.0, 1.0))
  }

  /** `from_hex`. */
  function FromHex(s: string): HexResult
  {
    FromCleanHex(CleanHex(s))
  }

  /** Only the first six cleaned characters matter: anything after them is ignored. */
  lemma FromCleanHexIgnoresTail(t: string, tail: string)
    requires |t| == 6
    ensures FromCleanHex(t + tail) == FromCleanHex(t)
  {
    assert (t + tail)[0..2] == t[0..2] && (t + tail)[2..4] == t[2..4] && (t + tail)[4..6] == t[4..6];
  }

  /** A string that neither starts nor ends with white space is its own trim. */
  lemma TrimKeeps(s: string)
    requires s != [] && !IsSpace(s[0]) && !IsSpace(s[|s| - 1])
    ensures Trim(s) == s
  {
    assert TrimStart(s) == s;
  }

  /** Cleaning a string of six characters that are neither white space nor '#'
      only lower-cases it. */
  lemma CleanHexOfPlain(s: string)
    requires |s| == 6
    requires forall i :: 0 <= i < 6 ==> !IsSpace(s[i]) && s[i] != '#' && ToLowerChar(s[i]) != '#'
    ensures CleanHex(s) == ToLower(s)
  {
    var t := ToLower(s);
    assert forall i :: 0 <= i < |t| ==> t[i] != '#';
    assert '#' !in t;
    assert !IsSpace(s[0]) && !IsSpace(s[5]);
    TrimKeeps(s);
  }

  // ---------------------------------------------------------------------------
  // Hex printing (`to_hex`) and packing (`to_i32`)

  /** `(v * 255.0) as u8`: truncation toward zero, saturating at 0 and 255. */
  function ChannelByte(v: real): (n: nat)
    ensures n < 256
    ensures InUnitRange(v) ==> n as real <= v * 255.0 < n as real + 1.0 || n == 255
  {
    var x := v * 255.0;
    if x <= 0.0 then 0 else if x >= 255.0 then 255 else x.Floor
  }

  /** Uppercase hex digit of a value below 16. */
  function UpperHexDigit(d: nat): (c: char)
    requires d < 16
  {
    if d < 10 then ('0' as int + d) as char else ('A' as int + d - 10) as char
  }

  /** `{:X}` of a byte: no leading zero, so one or two characters. */
  function UpperHex(n: nat): (s: string)
    requires n < 256
    ensures 1 <= |s| <= 2 && (|s| == 1 <==> n < 16)
  {
    if n < 16 then [UpperHexDigit(n)] else [UpperHexDigit(n / 16), UpperHexDigit(n % 16)]
  }

  /** `to_hex`: the three channel bytes in unpadded uppercase hex. */
  function ToHex(c: RGB): (s: string)
    ensures 3 <= |s| <= 6
  {
    UpperHex(ChannelByte(c.r)) + UpperHex(ChannelByte(c.g)) + UpperHex(ChannelByte(c.b))
  }

  /** `{:02X}` of a byte: always two characters. */
  function UpperHex2(n: nat): (s: string)
    requires n < 256
    ensures |s| == 2
  {
    [UpperHexDigit(n / 16), UpperHexDigit(n % 16)]
  }

  /** The zero-padded `to_hex` that `from_hex` can read back. */
  function ToHexPadded(c: RGB): (s: string)
    ensures |s| == 6
  {
    UpperHex2(ChannelByte(c.r)) + UpperHex2(ChannelByte(c.g)) + UpperHex2(ChannelByte(c.b))
  }

  /** `to_hex` and its padded form agree exactly when every channel byte
      needs two digits. */
  lemma ToHexIsPaddedIffWide(c: RGB)
    ensures ToHex(c) == ToHexPadded(c) <==>
      (ChannelByte(c.r) >= 16 && ChannelByte(c.g) >= 16 && ChannelByte(c.b) >= 16)
  {
    if ToHex(c) == ToHexPadded(c) {
      assert |ToHex(c)| == 6;
    }
  }

  /** As written, `to_hex` does not pad: black prints as "000", which
      `from_hex` cannot read back (the slice of six bytes panics). */
  lemma ToHexOfBlackDoesNotParse()
    ensures ToHex(RGB(0.0, 0.0, 0.0, 1.0)) == "000"
    ensures FromHex(ToHex(RGB(0.0, 0.0, 0.0, 1.0))) == Panic
  {
    var s := ToHex(RGB(0.0, 0.0, 0.0, 1.0));
    assert s == "000";
    assert TrimStart(s) == s && TrimEnd(s) == s;
    assert |CleanHex(s)| == 3;
  }

  lemma UpperHexDigitParses(d: nat)
    requires d < 16
    ensures IsLowerHexDigit(ToLowerChar(UpperHexDigit(d)))
    ensures HexDigitValue(ToLowerChar(UpperHexDigit(d))) == d
    ensures !IsSpace(UpperHexDigit(d)) && UpperHexDigit(d) != '#' && UpperHexDigit(d) != '+'
  {
  }

  /** A channel that is an exact multiple of 1/255 converts back to its byte. */
  lemma ChannelByteOfByte(k: nat)
    requires k < 256
    ensures ChannelByte(k as real / 255.0) == k
  {
    assert (k as real / 255.0) * 255.0 == k as real;
  }

  /** Round trip: the padded hex of a byte-valued color parses back to the
      same color with alpha 1. */
  lemma FromHexOfPaddedHex(r: nat, g: nat, b: nat, a: real)
    requires r < 256 && g < 256 && b < 256
    ensures FromHex(ToHexPadded(RGB(r as real / 255.0, g as real / 255.0, b as real / 255.0, a)))
         == Parsed(RGB(r as real / 255.0, g as real / 255.0, b as real / 255.0, 1.0))
  {
    PaddedHexOfBytes(r, g, b, a);
    FromHexOfPaddedBytes(r, g, b);
  }

  /** The padded hex of a byte-valued color spells its three bytes. */
  lemma PaddedHexOfBytes(r: nat, g: nat, b: nat, a: real)
    requires r < 256 && g < 256 && b < 256
    ensures ToHexPadded(RGB(r as real / 255.0, g as real / 255.0, b as real / 255.0, a))
         == UpperHex2(r) + UpperHex2(g) + UpperHex2(b)
  {
    ChannelByteOfByte(r);
    ChannelByteOfByte(g);
    ChannelByteOfByte(b);
  }

  /** Three padded bytes in hex parse back to those bytes over 255. */
  lemma FromHexOfPaddedBytes(r: nat, g: nat, b: nat)
    requires r < 256 && g < 256 && b < 256
    ensures FromHex(UpperHex2(r) + UpperHex2(g) + UpperHex2(b))
         == Parsed(RGB(r as real / 255.0, g as real / 255.0, b as real / 255.0, 1.0))
  {
    var p, q, u := ToLower(UpperHex2(r)), ToLower(UpperHex2(g)), ToLower(UpperHex2(b));
    PaddedHexCleans(r, g, b);
    PairParses(r, p);
    PairParses(g, q);
    PairParses(b, u);
    FromCleanHexOfPairs(p, q, u);
  }

  lemma PaddedHexCleans(r: nat, g: nat, b: nat)
    requires r < 256 && g < 256 && b < 256
    ensures CleanHex(UpperHex2(r) + UpperHex2(g) + UpperHex2(b))
         == ToLower(UpperHex2(r)) + ToLower(UpperHex2(g)) + ToLower(UpperHex2(b))
  {
    var s := UpperHex2(r) + UpperHex2(g) + UpperHex2(b);
    forall i | 0 <= i < 6
      ensures !IsSpace(s[i]) && s[i] != '#' && ToLowerChar(s[i]) != '#'
    {
      var n := if i < 2 then r else if i < 4 then g else b;
      UpperHexDigitParses(n / 16);
      UpperHexDigitParses(n % 16);
    }
    CleanHexOfPlain(s);
    var t := ToLower(UpperHex2(r)) + ToLower(UpperHex2(g)) + ToLower(UpperHex2(b));
    assert ToLower(s) == t;
  }

  lemma FromCleanHexOfPairs(p: string, q: string, u: string)
    requires |p| == 2 && |q| == 2 && |u| == 2
    requires ParseHexPair(p).Valid? && ParseHexPair(q).Valid? && ParseHexPair(u).Valid?
    ensures FromCleanHex(p + q + u) == Parsed(RGB(ParseHexPair(p).value as real / 255.0,
      ParseHexPair(q).value as real / 255.0, ParseHexPair(u).value as real / 255.0, 1.0))
  {
    var t := p + q + u;
    assert t[0..2] == p && t[2..4] == q && t[4..6] == u;
  }

  lemma PairParses(n: nat, p: string)
    requires n < 256
    requires p == ToLower(UpperHex2(n))
    ensures ParseHexPair(p) == Valid(n)
  {
    UpperHexDigitParses(n / 16);
    UpperHexDigitParses(n % 16);
  }

  /** Bits of an `i32` read as an unsigned 32-bit pattern (two's complement). */
  function ToU32(i: int): (u: nat)
    ensures u < 0x1_0000_0000
  {
    i % 0x1_0000_0000
  }

  /** The `i32` whose two's complement bits are `u`. */
  function FromU32(u: nat): (i: int)
    requires u < 0x1_0000_0000
    ensures -0x8000_0000 <= i < 0x8000_0000
  {
    if u < 0x8000_0000 then u else u - 0x1_0000_0000
  }

  /** `x << k` on 32 bits: bits pushed past bit 31 are lost. */
  function Shl32(u: nat, k: nat): (v: nat)
    ensures v < 0x1_0000_0000
  {
    (u * Num.Pow2(k)) % 0x1_0000_0000
  }

  /** `(v * 255.0) as i32`: truncation toward zero, saturating at the `i32` range. */
  function ChannelI32(v: real): int
  {
    var x := v * 255.0;
    if x >= 2147483647.0 then 2147483647
    else if x <= -2147483648.0 then -2147483648
    else if x >= 0.0 then x.Floor
    else -((-x).Floor)
  }

  /** `to_i32`: `r << 16 | g << 8 | b` on `i32`. */
  function ToI32(c: RGB): int
  {
    PackI32(ChannelI32(c.r), ChannelI32(c.g), ChannelI32(c.b))
  }

  /** For a normalized color the packed value is `0xRRGGBB` over the channel
      bytes: nothing overflows. */
  lemma ToI32OfNormalized(c: RGB)
    requires IsNormalized(c)
    ensures ToI32(c) == ChannelByte(c.r) * 65536 + ChannelByte(c.g) * 256 + ChannelByte(c.b)
  {
    var r, g, b := ChannelByte(c.r), ChannelByte(c.g), ChannelByte(c.b);
    ChannelI32OfUnit(c.r);
    ChannelI32OfUnit(c.g);
    ChannelI32OfUnit(c.b);
    PackedValue(r, g, b);
  }

  /** Each channel byte can be read back from the packed value. */
  lemma PackI32Unpacks(r: nat, g: nat, b: nat)
    requires r < 256 && g < 256 && b < 256
    ensures 0 <= PackI32(r, g, b) < 0x100_0000
    ensures PackI32(r, g, b) / 65536 == r
    ensures (PackI32(r, g, b) / 256) % 256 == g
    ensures PackI32(r, g, b) % 256 == b
  {
    PackedValue(r, g, b);
    UnpackBytes(r, g, b);
  }

  /** The packing step of `to_i32` on three converted channels. */
  function PackI32(r: int, g: int, b: int): int
  {
    var packed := Num.BitOr(Num.BitOr(Shl32(ToU32(r), 16), Shl32(ToU32(g), 8)), ToU32(b));
    if packed < 0x1_0000_0000 then FromU32(packed) else 0
  }

  lemma PackedValue(r: nat, g: nat, b: nat)
    requires r < 256 && g < 256 && b < 256
    ensures PackI32(r, g, b) == r * 65536 + g * 256 + b
  {
    assert ToU32(r) == r && ToU32(g) == g && ToU32(b) == b;
    PackBytes(r, g, b);
  }

  /** On a channel in [0, 1] the `i32` and `u8` conversions agree. */
  lemma ChannelI32OfUnit(v: real)
    requires InUnitRange(v)
    ensures ChannelI32(v) == ChannelByte(v)
  {
    var x := v * 255.0;
    assert 0.0 <= x <= 255.0;
  }

  lemma PackBytes(r: nat, g: nat, b: nat)
    requires r < 256 && g < 256 && b < 256
    ensures Num.BitOr(Num.BitOr(Shl32(r, 16), Shl32(g, 8)), b) == r * 65536 + g * 256 + b
  {
    assert Num.Pow2(8) == 256 by { Num.Pow2Add(4, 4); assert Num.Pow2(4) == 16; }
    assert Num.Pow2(16) == 65536 by { Num.Pow2Add(8, 8); }
    assert Shl32(r, 16) == (r * 256) * Num.Pow2(8);
    assert Shl32(g, 8) == g * Num.Pow2(8);
    Num.BitOrScaled(r * 256, g, 8);
    Num.BitOrShifted(r, g, 8);
    Num.BitOrShifted(r * 256 + g, b, 8);
  }

  lemma UnpackBytes(r: nat, g: nat, b: nat)
    requires r < 256 && g < 256 && b < 256
    ensures (r * 65536 + g * 256 + b) / 65536 == r
    ensures ((r * 65536 + g * 256 + b) / 256) % 256 == g
    ensures (r * 65536 + g * 256 + b) % 256 == b
  {
    var v := r * 65536 + g * 256 + b;
    Num.DivModUnique(v, 65536, r, g * 256 + b);
    Num.DivModUnique(v, 256, r * 256 + g, b);
    Num.DivModUnique(r * 256 + g, 256, r, g);
  }
}
