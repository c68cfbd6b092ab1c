/**
 * The client's Color: a 32-bit packed value with alpha in the top byte and
 * red, green and blue below it, or a CSS colour name. Only the integer
 * option paths are modelled.
 */
module Colors {
  import opened Wrappers
  import opened Text

  /**
   * The options object. An absent option and a falsy one behave alike on the
   * integer paths, so "" , 0 and false stand for both. A numeric option is
   * carried as the 32-bit pattern that JavaScript's bitwise operators read
   * from it.
   */
  datatype ColorOptions = ColorOptions(
    name: string, value: bv32, hasAlpha: bool,
    red: bv32, r: bv32, green: bv32, g: bv32, blue: bv32, b: bv32, alpha: bv32, a: bv32)

  /** The options {r, g, b}. */
  function Channels(r: bv32, g: bv32, b: bv32): ColorOptions
  {
    ColorOptions("", 0, false, 0, r, 0, g, 0, b, 0, 0)
  }

  /** A constructed colour: its name field, and its packed value (None while undefined). */
  datatype Color = Color(name: string, value: Option<bv32>)

  /** The string thrown by an accessor on a named colour. */
  datatype ColorError = NamedColor

  /** `x || y` on numeric options. */
  function Or(x: bv32, y: bv32): bv32
  {
    if x != 0 then x else y
  }

  /** The value with its alpha byte forced to 0xFF. */
  function Opaque(v: bv32): bv32
  {
    v | 0xFF00_0000
  }

  /** Blue in byte 0, green in byte 1, red in byte 2 and alpha in byte 3. */
  function Pack(r: bv32, g: bv32, b: bv32, a: bv32): bv32
  {
    b | (g << 8) | (r << 16) | (a << 24)
  }

  /**
   * initialize. A truthy name stores `nameBinding` as the name, leaves the
   * value undefined, and stops. A truthy value is kept as given with
   * hasAlpha, and otherwise gets alpha 0xFF. Otherwise the channels fall back
   * from the long option names to the short ones and are packed. When an
   * alpha option is truthy, the alpha byte is packed from red.
   */
  function Initialize(opts: ColorOptions, nameBinding: string): Color
  {
    if opts.name != "" then Color(nameBinding, None)
    else if opts.value != 0 then
      Color("", Some(if opts.hasAlpha then opts.value else Opaque(opts.value)))
    else
      var r := Or(opts.red, opts.r);
      var g := Or(opts.green, opts.g);
      var b := Or(opts.blue, opts.b);
      if Or(opts.alpha, opts.a) != 0 then
        var a := r;
        Color("", Some(Pack(r, g, b, a)))
      else
        Color("", Some(Opaque(Pack(r, g, b, 0))))
  }

  /**
   * The constructor as written: the name branch assigns the free variable
   * `name`, in a browser the window's name, instead of `opts.name`.
   */
  function NewColorAsWritten(opts: ColorOptions, windowName: string): (c: Color)
    ensures opts.name != "" ==> c.name == windowName && c.value == None
  {
    Initialize(opts, windowName)
  }

  /** The constructor as evidently intended: a named colour keeps its own name. */
  function NewColor(opts: ColorOptions): (c: Color)
    ensures opts.name != "" ==> c.name == opts.name
    ensures opts.name == "" ==> c.name == "" && c.value.Some?
  {
    Initialize(opts, opts.name)
  }

  /** The bit pattern the accessors shift; an undefined value reads as 0. */
  function Pattern(c: Color): bv32
  {
    if c.value.Some? then c.value.value else 0
  }

  /** `(value >> shift) & 0xFF`. */
  function ByteBits(c: Color, shift: bv32): bv32
    requires shift <= 24
  {
    (Pattern(c) >> shift) & 0xFF
  }

  /** The same byte as a number. */
  function ByteAt(c: Color, shift: bv32): (n: nat)
    requires shift <= 24
    ensures n < 256
  {
    ByteBits(c, shift) as int
  }

  function Channel(c: Color, shift: bv32): (r: Result<nat, ColorError>)
    requires shift <= 24
    ensures r.Err? <==> c.name != ""
    ensures r.Ok? ==> r.value == ByteAt(c, shift) && r.value < 256
  {
    if c.name != "" then Err(NamedColor) else Ok(ByteAt(c, shift))
  }

  /** red, green, blue, alpha: bytes 2, 1, 0 and 3 of the value; a named colour throws. */
  function Red(c: Color): Result<nat, ColorError> { Channel(c, 16) }
  function Green(c: Color): Result<nat, ColorError> { Channel(c, 8) }
  function Blue(c: Color): Result<nat, ColorError> { Channel(c, 0) }
  function Alpha(c: Color): Result<nat, ColorError> { Channel(c, 24) }

  /** rgb: the packed value; a named colour throws. */
  function Rgb(c: Color): (r: Result<Option<bv32>, ColorError>)
    ensures r.Err? <==> c.name != ""
    ensures r.Ok? ==> r.value == c.value
  {
    if c.name != "" then Err(NamedColor) else Ok(c.value)
  }

  /** How many digits toString(16) gives a byte: one below 16, two from 16 on. */
  function HexWidth(n: nat): nat
  {
    if n < 16 then 1 else 2
  }

  /** Every character is a lower-case hexadecimal digit. */
  predicate LowerDigits(s: string)
  {
    forall i :: 0 <= i < |s| ==> s[i] in LowerHexDigits
  }

  /** toString(16) of a byte: its shortest lower-case digits, reading back as the byte. */
  lemma ByteToHex(n: nat)
    requires n < 256
    ensures |NatToLowerHex(n)| == HexWidth(n)
    ensures LowerDigits(NatToLowerHex(n))
    ensures ParseHex(NatToLowerHex(n)) == Some(n)
    ensures HexWidth(n) == 2 ==> NatToLowerHex(n)[0] != '0'
  {
    LowerHexRoundTrip(n);
    if n >= 16 {
      assert NatToLowerHex(n) == [LowerHexDigits[n / 16], LowerHexDigits[n % 16]];
    }
  }

  /**
   * Three bytes' shortest digits joined after "#" keep each byte's digits
   * apart: one digit below 16, two from 16 on, none with a leading zero,
   * each reading back as its byte.
   */
  predicate UnpaddedHex(s: string, red: nat, green: nat, blue: nat)
  {
    var i := 1 + HexWidth(red);
    var j := i + HexWidth(green);
    && |s| == j + HexWidth(blue)
    && s[0] == '#'
    && LowerDigits(s[1..])
    && (i == 3 ==> s[1] != '0') && (j == i + 2 ==> s[i] != '0') && (|s| == j + 2 ==> s[j] != '0')
    && ParseHex(s[1..i]) == Some(red)
    && ParseHex(s[i..j]) == Some(green)
    && ParseHex(s[j..]) == Some(blue)
  }

  lemma JoinedHex(red: nat, green: nat, blue: nat)
    requires red < 256 && green < 256 && blue < 256
    ensures UnpaddedHex("#" + NatToLowerHex(red) + NatToLowerHex(green) + NatToLowerHex(blue), red, green, blue)
  {
    var r := NatToLowerHex(red);
    var g := NatToLowerHex(green);
    var b := NatToLowerHex(blue);
    ByteToHex(red);
    ByteToHex(green);
    ByteToHex(blue);
    JoinedSlices(r, g, b);
    LowerDigitsJoin(r, g, b);
  }

  /** The three parts of "#" + r + g + b sit where their lengths say. */
  lemma JoinedSlices(r: string, g: string, b: string)
    ensures var s := "#" + r + g + b;
      && |s| == 1 + |r| + |g| + |b| && s[0] == '#'
      && s[1..] == r + g + b
      && s[1..1 + |r|] == r
      && s[1 + |r|..1 + |r| + |g|] == g
      && s[1 + |r| + |g|..] == b
      && (|r| > 0 ==> s[1] == r[0])
      && (|g| > 0 ==> s[1 + |r|] == g[0])
      && (|b| > 0 ==> s[1 + |r| + |g|] == b[0])
  {
  }

  lemma LowerDigitsJoin(r: string, g: string, b: string)
    requires LowerDigits(r) && LowerDigits(g) && LowerDigits(b)
    ensures LowerDigits(r + g + b)
  {
  }

  /** hex as written: "#" and each channel's base-16 digits, unpadded. */
  function Hex(c: Color): (r: Result<string, ColorError>)
    ensures r.Err? <==> c.name != ""
    ensures r.Ok? ==> UnpaddedHex(r.value, ByteAt(c, 16), ByteAt(c, 8), ByteAt(c, 0))
  {
    if c.name != "" then Err(NamedColor)
    else
      var red, green, blue := ByteAt(c, 16), ByteAt(c, 8), ByteAt(c, 0);
      JoinedHex(red, green, blue);
      Ok("#" + NatToLowerHex(red) + NatToLowerHex(green) + NatToLowerHex(blue))
  }

  /** Two lower-case hexadecimal digits for a byte. */
  function HexByte(n: nat): (s: string)
    requires n < 256
    ensures |s| == 2 && ParseHex(s) == Some(n)
  {
    var s := [LowerHexDigits[n / 16], LowerHexDigits[n % 16]];
    LowerHexRoundTrip(n / 16);
    LowerHexRoundTrip(n % 16);
    assert s[..1] == NatToLowerHex(n / 16);
    assert HexValue(s[1]) == Some(n % 16) by {
      assert ParseHex(NatToLowerHex(n % 16)) == Some(n % 16);
      assert NatToLowerHex(n % 16)[..0] == [];
    }
    s
  }

  /** hex as evidently intended: each channel as exactly two digits. */
  function HexPadded(c: Color): (r: Result<string, ColorError>)
    ensures r.Err? <==> c.name != ""
    ensures r.Ok? ==> (
      && |r.value| == 7 && r.value[0] == '#'
      && ParseHex(r.value[1..3]) == Some(ByteAt(c, 16))
      && ParseHex(r.value[3..5]) == Some(ByteAt(c, 8))
      && ParseHex(r.value[5..7]) == Some(ByteAt(c, 0)))
  {
    if c.name != "" then Err(NamedColor)
    else
      var s := "#" + HexByte(ByteAt(c, 16)) + HexByte(ByteAt(c, 8)) + HexByte(ByteAt(c, 0));
      assert s[1..3] == HexByte(ByteAt(c, 16)) && s[3..5] == HexByte(ByteAt(c, 8)) && s[5..7] == HexByte(ByteAt(c, 0));
      Ok(s)
  }

  /** Comma-separated decimal renderings. */
  function Fields(parts: seq<nat>): string
  {
    if parts == [] then ""
    else if |parts| == 1 then NatToDecimal(parts[0])
    else NatToDecimal(parts[0]) + "," + Fields(parts[1..])
  }

  /** css: the name of a named colour, otherwise "rgb(r,g,b)". */
  function Css(c: Color): string
  {
    if c.name != "" then c.name
    else "rgb(" + Fields([ByteAt(c, 16), ByteAt(c, 8), ByteAt(c, 0)]) + ")"
  }

  /** cssAlpha: the name of a named colour, otherwise "rgba(r,g,b,a)". */
  function CssAlpha(c: Color): string
  {
    if c.name != "" then c.name
    else "rgba(" + Fields([ByteAt(c, 16), ByteAt(c, 8), ByteAt(c, 0), ByteAt(c, 24)]) + ")"
  }

  /** string: the name of a named colour, otherwise cssAlpha. */
  function StringOf(c: Color): string
  {
    if c.name != "" then c.name else CssAlpha(c)
  }

  /** string() always agrees with cssAlpha(). */
  lemma StringIsCssAlpha(c: Color)
    ensures StringOf(c) == CssAlpha(c)
  {
  }

  /** A named colour throws from every channel accessor and renders as its name. */
  lemma NamedColorRendersName(c: Color)
    requires c.name != ""
    ensures Red(c).Err? && Green(c).Err? && Blue(c).Err? && Alpha(c).Err? && Rgb(c).Err? && Hex(c).Err?
    ensures Css(c) == c.name && CssAlpha(c) == c.name && StringOf(c) == c.name
  {
  }

  /** Channels in 0..255 with no alpha option read back unchanged, with alpha 255. */
  lemma ChannelsRoundTrip(r: bv32, g: bv32, b: bv32)
    requires r < 256 && g < 256 && b < 256
    ensures Red(NewColor(Channels(r, g, b))) == Ok(r as int)
    ensures Green(NewColor(Channels(r, g, b))) == Ok(g as int)
    ensures Blue(NewColor(Channels(r, g, b))) == Ok(b as int)
    ensures Alpha(NewColor(Channels(r, g, b))) == Ok(255)
  {
    var c := NewColor(Channels(r, g, b));
    assert Pattern(c) == Opaque(Pack(r, g, b, 0));
    OpaquePack(r, g, b);
    PackedBytes(r, g, b, 0xFF);
    ByteOf(c, 16, r);
    ByteOf(c, 8, g);
    ByteOf(c, 0, b);
    ByteOf(c, 24, 0xFF);
  }

  lemma ByteOf(c: Color, shift: bv32, x: bv32)
    requires shift <= 24 && (Pattern(c) >> shift) & 0xFF == x
    ensures ByteAt(c, shift) == x as int
  {
  }

  /** Each byte of a packed value is the channel packed there. */
  lemma PackedBytes(r: bv32, g: bv32, b: bv32, a: bv32)
    requires r < 256 && g < 256 && b < 256 && a < 256
    ensures (Pack(r, g, b, a) >> 16) & 0xFF == r
    ensures (Pack(r, g, b, a) >> 8) & 0xFF == g
    ensures (Pack(r, g, b, a) >> 0) & 0xFF == b
    ensures (Pack(r, g, b, a) >> 24) & 0xFF == a
  {
  }

  lemma OpaquePack(r: bv32, g: bv32, b: bv32)
    ensures Opaque(Pack(r, g, b, 0)) == Pack(r, g, b, 0xFF)
  {
  }

  /** With a truthy alpha option, the alpha byte is red's, whatever alpha was asked for. */
  lemma AlphaTakenFromRed(opts: ColorOptions)
    requires opts.name == "" && opts.value == 0 && Or(opts.alpha, opts.a) != 0
    requires Or(opts.red, opts.r) < 256 && Or(opts.green, opts.g) < 256 && Or(opts.blue, opts.b) < 256
    ensures Alpha(NewColor(opts)) == Red(NewColor(opts))
    ensures Red(NewColor(opts)) == Ok(Or(opts.red, opts.r) as int)
  {
    var c := NewColor(opts);
    var r, g, b := Or(opts.red, opts.r), Or(opts.green, opts.g), Or(opts.blue, opts.b);
    assert Pattern(c) == Pack(r, g, b, r);
    RedTwice(c, r, g, b);
  }

  lemma RedTwice(c: Color, r: bv32, g: bv32, b: bv32)
    requires r < 256 && g < 256 && b < 256 && Pattern(c) == Pack(r, g, b, r)
    ensures ByteAt(c, 16) == r as int && ByteAt(c, 24) == r as int
  {
    PackedBytes(r, g, b, r);
    ByteOf(c, 16, r);
    ByteOf(c, 24, r);
  }

  /** A value option is kept as given with hasAlpha, and otherwise is made opaque. */
  lemma ValueOption(opts: ColorOptions)
    requires opts.name == "" && opts.value != 0
    ensures opts.hasAlpha ==> Rgb(NewColor(opts)) == Ok(Some(opts.value))
    ensures !opts.hasAlpha ==> (
      && Alpha(NewColor(opts)) == Ok(255)
      && Pattern(NewColor(opts)) == Opaque(opts.value))
  {
    if !opts.hasAlpha {
      var c := NewColor(opts);
      assert Pattern(c) == Opaque(opts.value);
      OpaqueBits(opts.value);
      ByteOf(c, 24, 0xFF);
    }
  }

  /** Forcing the alpha byte keeps the three colour bytes. */
  lemma OpaqueBits(v: bv32)
    ensures (Opaque(v) >> 24) & 0xFF == 0xFF
    ensures Opaque(v) & 0x00FF_FFFF == v & 0x00FF_FFFF
  {
  }

  /** Black: zero channels fall through `||` to 0 and pack to 0, with alpha 255. */
  lemma BlackIsOpaque()
    ensures Css(NewColor(Channels(0, 0, 0))) == "rgb(0,0,0)"
    ensures Alpha(NewColor(Channels(0, 0, 0))) == Ok(255)
  {
    ChannelsRoundTrip(0, 0, 0);
    assert Fields([0, 0, 0]) == "0,0,0" by {
      assert [0, 0, 0][1..] == [0, 0] && [0, 0][1..] == [0];
    }
  }

  /** Finding: two different colours with the same unpadded hex string. */
  lemma HexIsAmbiguous()
    ensures NewColor(Channels(0x1, 0x23, 0x45)) != NewColor(Channels(0x12, 0x34, 0x5))
    ensures Hex(NewColor(Channels(0x1, 0x23, 0x45))) == Ok("#12345")
    ensures Hex(NewColor(Channels(0x12, 0x34, 0x5))) == Ok("#12345")
  {
    ChannelsRoundTrip(0x1, 0x23, 0x45);
    ChannelsRoundTrip(0x12, 0x34, 0x5);
    assert NatToLowerHex(0x1) == "1" && NatToLowerHex(0x5) == "5";
    assert NatToLowerHex(0x23) == "23" && NatToLowerHex(0x45) == "45";
    assert NatToLowerHex(0x12) == "12" && NatToLowerHex(0x34) == "34";
    assert "#" + "1" + "23" + "45" == "#12345";
    assert "#" + "12" + "34" + "5" == "#12345";
    assert Red(NewColor(Channels(0x1, 0x23, 0x45))) != Red(NewColor(Channels(0x12, 0x34, 0x5)));
  }

  /** The padded hex string tells the red, green and blue bytes apart. */
  lemma HexPaddedInjective(c1: Color, c2: Color)
    requires c1.name == "" && c2.name == ""
    requires HexPadded(c1) == HexPadded(c2)
    ensures ByteAt(c1, 16) == ByteAt(c2, 16) && ByteAt(c1, 8) == ByteAt(c2, 8) && ByteAt(c1, 0) == ByteAt(c2, 0)
  {
  }

  /** Finding: the name branch as written loses the requested name; the intended one keeps it. */
  lemma NamedColorAsWrittenLosesName(opts: ColorOptions)
    requires opts.name != ""
    ensures Css(NewColorAsWritten(opts, "")) == "rgb(0,0,0)" && Red(NewColorAsWritten(opts, "")) == Ok(0)
    ensures Css(NewColor(opts)) == opts.name && Red(NewColor(opts)).Err?
  {
    assert Fields([0, 0, 0]) == "0,0,0" by {
      assert [0, 0, 0][1..] == [0, 0] && [0, 0][1..] == [0];
    }
  }

  /** Splitting at the first comma, when neither first part has one. */
  lemma {:induction false} CommaSplit(x: string, y: string, x': string, y': string)
    requires forall i :: 0 <= i < |x| ==> x[i] != ','
    requires forall i :: 0 <= i < |x'| ==> x'[i] != ','
    requires x + "," + y == x' + "," + y'
    ensures x == x' && y == y'
  {
    var s := x + "," + y;
    FirstComma(x, y, s);
    FirstComma(x', y', s);
    assert |x| == |x'|;
    assert x == s[..|x|] && x' == (x' + "," + y')[..|x'|];
    assert y == s[|x| + 1..] && y' == (x' + "," + y')[|x'| + 1..];
  }

  lemma FirstComma(x: string, y: string, s: string)
    requires forall i :: 0 <= i < |x| ==> x[i] != ','
    requires s == x + "," + y
    ensures |x| < |s| && s[|x|] == ','
    ensures forall i :: 0 <= i < |x| ==> s[i] != ','
  {
  }

  /** The comma-separated field list determines its numbers. */
  lemma {:induction false} FieldsInjective(a: seq<nat>, b: seq<nat>)
    requires |a| == |b| && Fields(a) == Fields(b)
    ensures a == b
    decreases |a|
  {
    if |a| == 1 {
      DecimalInjective(a[0], b[0]);
    } else if |a| > 1 {
      DecimalHasNoComma(a[0]);
      DecimalHasNoComma(b[0]);
      CommaSplit(NatToDecimal(a[0]), Fields(a[1..]), NatToDecimal(b[0]), Fields(b[1..]));
      DecimalInjective(a[0], b[0]);
      FieldsInjective(a[1..], b[1..]);
      assert a == [a[0]] + a[1..] && b == [b[0]] + b[1..];
    }
  }

  /** css tells unnamed colours with different red, green or blue bytes apart. */
  lemma CssInjective(c1: Color, c2: Color)
    requires c1.name == "" && c2.name == "" && Css(c1) == Css(c2)
    ensures ByteAt(c1, 16) == ByteAt(c2, 16) && ByteAt(c1, 8) == ByteAt(c2, 8) && ByteAt(c1, 0) == ByteAt(c2, 0)
  {
    var f1 := Fields([ByteAt(c1, 16), ByteAt(c1, 8), ByteAt(c1, 0)]);
    var f2 := Fields([ByteAt(c2, 16), ByteAt(c2, 8), ByteAt(c2, 0)]);
    assert f1 == Css(c1)[4..|Css(c1)| - 1];
    assert f2 == Css(c2)[4..|Css(c2)| - 1];
    FieldsInjective([ByteAt(c1, 16), ByteAt(c1, 8), ByteAt(c1, 0)], [ByteAt(c2, 16), ByteAt(c2, 8), ByteAt(c2, 0)]);
  }

  /** cssAlpha tells unnamed colours with any different byte apart. */
  lemma CssAlphaInjective(c1: Color, c2: Color)
    requires c1.name == "" && c2.name == "" && CssAlpha(c1) == CssAlpha(c2)
    ensures Pattern(c1) == Pattern(c2)
  {
    var p1 := [ByteAt(c1, 16), ByteAt(c1, 8), ByteAt(c1, 0), ByteAt(c1, 24)];
    var p2 := [ByteAt(c2, 16), ByteAt(c2, 8), ByteAt(c2, 0), ByteAt(c2, 24)];
    assert Fields(p1) == CssAlpha(c1)[5..|CssAlpha(c1)| - 1];
    assert Fields(p2) == CssAlpha(c2)[5..|CssAlpha(c2)| - 1];
    FieldsInjective(p1, p2);
    assert p1[0] == p2[0] && p1[1] == p2[1] && p1[2] == p2[2] && p1[3] == p2[3];
    SameBytes(c1, c2);
  }

  lemma SameBytes(c1: Color, c2: Color)
    requires ByteAt(c1, 16) == ByteAt(c2, 16) && ByteAt(c1, 8) == ByteAt(c2, 8)
    requires ByteAt(c1, 0) == ByteAt(c2, 0) && ByteAt(c1, 24) == ByteAt(c2, 24)
    ensures Pattern(c1) == Pattern(c2)
  {
    SameByte(c1, c2, 16);
    SameByte(c1, c2, 8);
    SameByte(c1, c2, 0);
    SameByte(c1, c2, 24);
    var p1, p2 := Pattern(c1), Pattern(c2);
    Reassemble(p1);
    Reassemble(p2);
  }

  lemma SameByte(c1: Color, c2: Color, shift: bv32)
    requires shift <= 24 && ByteAt(c1, shift) == ByteAt(c2, shift)
    ensures (Pattern(c1) >> shift) & 0xFF == (Pattern(c2) >> shift) & 0xFF
  {
    CastInjective(ByteBits(c1, shift), ByteBits(c2, shift));
  }

  lemma CastInjective(x: bv32, y: bv32)
    requires x as int == y as int
    ensures x == y
  {
    CastBack(x);
    CastBack(y);
  }

  lemma CastBack(x: bv32)
    ensures (x as int) as bv32 == x
  {
  }

  /** A 32-bit value is its four bytes put back in place. */
  lemma Reassemble(x: bv32)
    ensures x == (((x >> 24) & 0xFF) << 24) | (((x >> 16) & 0xFF) << 16) | (((x >> 8) & 0xFF) << 8) | ((x >> 0) & 0xFF)
  {
  }
}
