/** Pixels, and blending one color over another. */
module ChartPixels {
  import opened Basics
  import opened ChartCoverage

  /** Premultiplied, blue lowest in memory. */
  datatype Pixel = Pixel(blue: u8, green: u8, red: u8, alpha: u8)

  /** What `Over` adds, and the weight, out of 256, it leaves to the pixel that was there. */
  datatype Src = Src(px: Pixel, keep: nat)

  predicate Proper(s: Src) {
    s.keep <= 256
  }

  function Scale(v: u8, cover: nat): u8
    requires cover <= 256
  {
    Min((v * cover + 128) / 256, 255)
  }

  /** What blending gets for `cover` 256ths of `ink`. */
  function Scaled(ink: Pixel, cover: nat): (s: Src)
    requires cover <= 256
    ensures Proper(s)
  {
    var alpha := Scale(ink.alpha, cover);
    Src(Pixel(Scale(ink.blue, cover), Scale(ink.green, cover), Scale(ink.red, cover), alpha), 256 - (alpha + alpha / 128))
  }

  // Packed

  function Pack(p: Pixel): u32 {
    p.blue + 0x100 * p.green + 0x1_0000 * p.red + 0x100_0000 * p.alpha
  }

  /** The bytes of a packed pixel. */
  function Byte(x: nat, k: nat): u8
    requires k < 4
  {
    if k == 0 then x % 0x100 else if k == 1 then x / 0x100 % 0x100 else if k == 2 then x / 0x1_0000 % 0x100 else x / 0x100_0000 % 0x100
  }

  function Unpack(x: u32): Pixel {
    Pixel(Byte(x, 0), Byte(x, 1), Byte(x, 2), Byte(x, 3))
  }

  lemma UnpackPack(p: Pixel)
    ensures Unpack(Pack(p)) == p
  {
    Digits(p.blue, p.green, p.red, p.alpha);
  }

  lemma Digits(a: u8, b: u8, c: u8, d: u8)
    ensures var x := a + 0x100 * b + 0x1_0000 * c + 0x100_0000 * d;
      Byte(x, 0) == a && Byte(x, 1) == b && Byte(x, 2) == c && Byte(x, 3) == d
  {
    var x, y, z := a + 0x100 * b + 0x1_0000 * c + 0x100_0000 * d, b + 0x100 * c + 0x1_0000 * d, c + 0x100 * d;
    LowDigit(x, a, y);
    LowDigit(y, b, z);
    LowDigit(z, c, d);
    assert x / 0x1_0000 == z && x / 0x100_0000 == d;
  }

  lemma LowDigit(x: nat, low: u8, rest: nat)
    requires x == low + 0x100 * rest
    ensures x % 0x100 == low && x / 0x100 == rest
  {
  }

  /** What two masks leave of a word: its first and third bytes, or its second and fourth. */
  function Evens(x: nat): nat {
    Byte(x, 0) + 0x1_0000 * Byte(x, 2)
  }

  function Odds(x: nat): nat {
    0x100 * Byte(x, 1) + 0x100_0000 * Byte(x, 3)
  }

  /** What shows through of a packed pixel, two channels a multiply. */
  function Under(dst: u32, keep: nat): nat {
    Evens(Evens(dst) * keep / 0x100) + Odds(Evens(dst / 0x100) * keep)
  }

  /** One packed pixel over another, two channels a multiply. */
  function Over(dst: u32, px: u32, keep: nat): u32
    requires keep <= 256
  {
    var under := Under(dst, keep);
    // Each channel is capped on its own: no sum spills into its neighbour.
    Pack(Pixel(Min(Byte(px, 0) + Byte(under, 0), 255), Min(Byte(px, 1) + Byte(under, 1), 255),
               Min(Byte(px, 2) + Byte(under, 2), 255), Min(Byte(px, 3) + Byte(under, 3), 255)))
  }

  /** What shows through of one channel, under another. */
  function Through(d: u8, keep: nat): u8
    requires keep <= 256
  {
    Fits(d, keep);
    d * keep / 0x100
  }

  function Channel(d: u8, s: u8, keep: nat): u8
    requires keep <= 256
  {
    Min(s + Through(d, keep), 255)
  }

  lemma Fits(d: u8, keep: nat)
    requires keep <= 256
    ensures 0 <= d * keep <= 0xFF00
  {
    Product(d, keep, 256);
  }

  lemma Product(a: nat, b: nat, c: nat)
    requires b <= c
    ensures a * b <= a * c
  {
  }

  function OverPixel(d: Pixel, s: Src): Pixel
    requires Proper(s)
  {
    Pixel(Channel(d.blue, s.px.blue, s.keep), Channel(d.green, s.px.green, s.keep),
          Channel(d.red, s.px.red, s.keep), Channel(d.alpha, s.px.alpha, s.keep))
  }

  /** Two channels of a word multiplied at once do not touch each other. */
  lemma TwoAtOnce(w: nat, a: u8, c: u8, keep: nat)
    requires keep <= 256 && w == a + 0x1_0000 * c
    ensures Evens(w * keep / 0x100) == Through(a, keep) + 0x1_0000 * Through(c, keep)
    ensures Odds(w * keep) == 0x100 * Through(a, keep) + 0x100_0000 * Through(c, keep)
  {
    hide Evens, Odds;
    Fits(a, keep);
    Fits(c, keep);
    var x, y := a * keep, c * keep;
    Distribute(a, c, keep);
    assert w * keep == x + 0x1_0000 * y;
    Apart(x, y);
  }

  lemma Distribute(a: nat, c: nat, keep: nat)
    ensures (a + 0x1_0000 * c) * keep == a * keep + 0x1_0000 * (c * keep)
  {
  }

  lemma Apart(x: nat, y: nat)
    requires x <= 0xFF00 && y <= 0xFF00
    ensures Evens((x + 0x1_0000 * y) / 0x100) == x / 0x100 + 0x1_0000 * (y / 0x100)
    ensures Odds(x + 0x1_0000 * y) == 0x100 * (x / 0x100) + 0x100_0000 * (y / 0x100)
  {
    hide Byte;
    var z, rest := x + 0x1_0000 * y, x / 0x100 + 0x100 * (y % 0x100) + 0x1_0000 * (y / 0x100);
    LowDigit(z, x % 0x100, rest);
    Digits(x / 0x100, y % 0x100, y / 0x100, 0);
    Digits(x % 0x100, x / 0x100, y % 0x100, y / 0x100);
  }

  /** Two channels a multiply is each channel on its own. */
  lemma OverIsByChannel(d: Pixel, s: Src)
    requires Proper(s)
    ensures Unpack(Over(Pack(d), Pack(s.px), s.keep)) == OverPixel(d, s)
  {
    hide Evens, Odds, Byte, Pack, Through, Under;
    UnderIs(d, s.keep);
    Digits(Through(d.blue, s.keep), Through(d.green, s.keep), Through(d.red, s.keep), Through(d.alpha, s.keep));
    BytesOfPacked(s.px);
    UnpackPack(OverPixel(d, s));
  }

  lemma UnderIs(d: Pixel, keep: nat)
    requires keep <= 256
    ensures Under(Pack(d), keep) == Through(d.blue, keep) + 0x100 * Through(d.green, keep)
      + 0x1_0000 * Through(d.red, keep) + 0x100_0000 * Through(d.alpha, keep)
  {
    hide Evens, Odds, Byte, Pack, Through;
    MasksOfPacked(d);
    TwoAtOnce(Evens(Pack(d)), d.blue, d.red, keep);
    TwoAtOnce(Evens(Pack(d) / 0x100), d.green, d.alpha, keep);
  }

  lemma MasksOfPacked(d: Pixel)
    ensures Evens(Pack(d)) == d.blue + 0x1_0000 * d.red
    ensures Evens(Pack(d) / 0x100) == d.green + 0x1_0000 * d.alpha
  {
    Digits(d.blue, d.green, d.red, d.alpha);
    Digits(d.green, d.red, d.alpha, 0);
    assert Pack(d) / 0x100 == d.green + 0x100 * d.red + 0x1_0000 * d.alpha;
    hide Byte;
  }

  lemma BytesOfPacked(p: Pixel)
    ensures Byte(Pack(p), 0) == p.blue && Byte(Pack(p), 1) == p.green && Byte(Pack(p), 2) == p.red && Byte(Pack(p), 3) == p.alpha
  {
    Digits(p.blue, p.green, p.red, p.alpha);
  }

  /** Nothing at all shows of what is under an opaque color, and all of it under none. */
  lemma OpaqueAndClear(d: Pixel, ink: Pixel)
    ensures OverPixel(d, Scaled(ink, 0)) == d
    ensures ink.alpha == 255 ==> OverPixel(d, Scaled(ink, 256)) == ink
  {
    hide Scale, Channel;
    var clear, full := Scaled(ink, 0), Scaled(ink, 256);
    ScaleEnds(ink.blue);
    ScaleEnds(ink.green);
    ScaleEnds(ink.red);
    ScaleEnds(ink.alpha);
    ChannelEnds(d.blue, ink.blue);
    ChannelEnds(d.green, ink.green);
    ChannelEnds(d.red, ink.red);
    ChannelEnds(d.alpha, ink.alpha);
  }

  lemma ScaleEnds(v: u8)
    ensures Scale(v, 0) == 0 && Scale(v, 256) == v
  {
  }

  lemma ChannelEnds(d: u8, s: u8)
    ensures Channel(d, 0, 256) == d && Channel(d, s, 0) == s
  {
    assert d * 0 == 0;
  }

  // Whole runs

  function FillByte(d: u8, p: u8, keep: nat): u8
    requires keep <= 256
  {
    Fits(d, keep);
    Min(p + (d * keep + 128) / 0x100, 255)
  }

  /** What filling makes of a pixel, byte by byte. */
  function FillPixel(d: Pixel, s: Src): Pixel
    requires Proper(s)
  {
    Pixel(FillByte(d.blue, s.px.blue, s.keep), FillByte(d.green, s.px.green, s.keep),
          FillByte(d.red, s.px.red, s.keep), FillByte(d.alpha, s.px.alpha, s.keep))
  }

  /** A coverage, of 256. */
  function Of256(cov: real): (c: nat)
    ensures c <= 256
    ensures cov <= 0.0 ==> c == 0
    ensures cov >= 1.0 ==> c == 256
    ensures 0.0 <= cov <= 1.0 ==> -0.5 <= 256.0 * cov - c as real <= 0.5
  {
    (Clamp(cov, 0.0, 1.0) * 256.0 + 0.5).Floor
  }

  /** Source-over at a coverage; none leaves the pixel as it is. */
  function Blended(d: Pixel, ink: Pixel, cov: real): Pixel {
    if Of256(cov) == 0 then d else OverPixel(d, Scaled(ink, Of256(cov)))
  }

  // What blending comes to

  /** One channel of premultiplied ink over another, exactly, at `c` 256ths: the ink's share,
      and as much of what is under it as the ink's alpha leaves. */
  function SourceOver(d: u8, v: u8, alpha: u8, c: nat): real {
    v as real * (c as real / 256.0) + d as real * (1.0 - alpha as real / 255.0 * (c as real / 256.0))
  }

  /** No channel says more than alpha: what premultiplied ink is. */
  predicate Premultiplied(p: Pixel) {
    p.blue <= p.alpha && p.green <= p.alpha && p.red <= p.alpha
  }

  /** The same, 65280 times over, in whole numbers. */
  function Over65280(d: u8, v: u8, alpha: u8, c: nat): int {
    255 * (v * c) + d * (65280 - alpha * c)
  }

  lemma SourceOverIs(d: u8, v: u8, alpha: u8, c: nat)
    ensures SourceOver(d, v, alpha, c) * 65280.0 == Over65280(d, v, alpha, c) as real
  {
    var dr, vr, ar, cr := d as real, v as real, alpha as real, c as real;
    assert (v * c) as real == vr * cr && (alpha * c) as real == ar * cr;
    assert (d * (65280 - alpha * c)) as real == dr * (65280.0 - ar * cr);
    InReals(dr, vr, ar, cr);
  }

  lemma InReals(d: real, v: real, a: real, c: real)
    ensures (v * (c / 256.0) + d * (1.0 - a / 255.0 * (c / 256.0))) * 65280.0 == 255.0 * (v * c) + d * (65280.0 - a * c)
  {
    assert a / 255.0 * (c / 256.0) == a * c / 65280.0;
    assert v * (c / 256.0) == v * c / 256.0;
    var x := a * c;
    assert d * (1.0 - x / 65280.0) * 65280.0 == d * (65280.0 - x);
  }

  lemma ProductBounds(d: nat, x: int, most: int)
    requires -most <= x <= most
    ensures -(d * most) <= d * x <= d * most
  {
  }

  /** What rounding a channel and the weight of what is under it can do. */
  lemma KeepIsNear(alpha: u8, c: nat)
    requires c <= 256
    ensures var a: nat := Scale(alpha, c);
      var off: int := alpha * c - 255 * (a + a / 128);
      -255 <= off <= 255 && (c == 256 ==> -127 <= off <= 127)
  {
    hide Scale;
    ScaleIs(alpha, c);
    KeepNear(Scale(alpha, c), alpha * c);
  }

  lemma KeepNear(a: nat, x: nat)
    requires a <= 255 && 256 * a <= x + 128 < 256 * a + 256
    ensures -255 <= x - 255 * (a + a / 128) <= 255
    ensures x == 256 * a ==> -127 <= x - 255 * (a + a / 128) <= 127
  {
  }

  lemma ScaleIs(v: u8, c: nat)
    requires c <= 256
    ensures 256 * Scale(v, c) <= v * c + 128 < 256 * Scale(v, c) + 256
    ensures 0 <= v * c <= 65280
    ensures c == 256 ==> Scale(v, c) == v
  {
    Product(v, c, 256);
    ScaleOf(v, c, v * c);
    hide Scale;
    Quarter(v * c);
  }

  lemma ScaleOf(v: u8, c: nat, x: nat)
    requires c <= 256 && x == v * c
    ensures Scale(v, c) == Min((x + 128) / 256, 255)
  {
  }

  lemma Quarter(x: nat)
    requires x <= 65280
    ensures var s := Min((x + 128) / 256, 255); 256 * s <= x + 128 < 256 * s + 256
  {
  }

  lemma ScaleRises(v: u8, alpha: u8, c: nat)
    requires c <= 256 && v <= alpha
    ensures v * c <= alpha * c
  {
  }

  /** One channel, in 65280ths. */
  lemma ChannelNear(d: u8, v: u8, alpha: u8, c: nat)
    requires c <= 256 && v <= alpha
    ensures var a: nat := Scale(alpha, c);
      var got := Channel(d, Scale(v, c), 256 - (a + a / 128));
      -163200 < 65280 * got - Over65280(d, v, alpha, c) < 97920
  {
    hide Scale;
    var a: nat := Scale(alpha, c);
    var keep: nat := 256 - (a + a / 128);
    ScaleIs(v, c);
    ScaleIs(alpha, c);
    ScaleRises(v, alpha, c);
    KeepIsNear(alpha, c);
    Fits(d, keep);
    var off: int := alpha * c - 255 * (a + a / 128);
    ProductBounds(d, off, 255);
    var t := d * keep / 256;
    Split(d, alpha * c, keep, off);
    AtMost255(d, v * c, alpha * c);
    assert 256 * t <= d * keep < 256 * t + 256;
  }

  /** What is left through the rounded weight, against what the exact one leaves. */
  lemma Split(d: u8, x: nat, keep: nat, off: int)
    requires 255 * keep == 65280 - x + off
    ensures 255 * (d * keep) == d * (65280 - x) + d * off
  {
    assert 255 * (d * keep) == d * (255 * keep);
  }

  lemma AtMost255(d: u8, y: nat, x: nat)
    requires y <= x <= 65280
    ensures 255 * y + d * (65280 - x) <= 255 * 65280
  {
    Product(65280 - x, d, 255);
  }

  lemma FillNear(d: u8, v: u8, alpha: u8)
    requires v <= alpha
    ensures var got := FillByte(d, v, 256 - (alpha + alpha / 128));
      -65280 < 65280 * got - Over65280(d, v, alpha, 256) < 65280
  {
    var keep: nat := 256 - (alpha + alpha / 128);
    Fits(d, keep);
    KeepIsNear(alpha, 256);
    ScaleIs(alpha, 256);
    var off: int := alpha * 256 - 255 * (alpha + alpha / 128);
    ProductBounds(d, off, 127);
    var t := (d * keep + 128) / 256;
    Split(d, alpha * 256, keep, off);
    AtMost255(d, v * 256, alpha * 256);
    assert 256 * t <= d * keep + 128 < 256 * t + 256;
  }

  lemma InUnits(got: int, exact: real, whole: int, low: int, high: int)
    requires exact * 65280.0 == whole as real && low < 65280 * got - whole < high
    ensures low as real / 65280.0 < got as real - exact < high as real / 65280.0
  {
    var off := got as real - exact;
    assert off * 65280.0 == (65280 * got - whole) as real;
  }

  /** Blending premultiplied ink is source-over, to less than two and a half below and one and
      a half above, whatever is under it and at every coverage. */
  lemma BlendedIsOver(d: Pixel, ink: Pixel, cov: real)
    requires Premultiplied(ink)
    ensures var b, c := Blended(d, ink, cov), Of256(cov);
      && -2.5 < b.blue as real - SourceOver(d.blue, ink.blue, ink.alpha, c) < 1.5
      && -2.5 < b.green as real - SourceOver(d.green, ink.green, ink.alpha, c) < 1.5
      && -2.5 < b.red as real - SourceOver(d.red, ink.red, ink.alpha, c) < 1.5
      && -2.5 < b.alpha as real - SourceOver(d.alpha, ink.alpha, ink.alpha, c) < 1.5
  {
    hide Scale, Channel, SourceOver, Over65280;
    var c := Of256(cov);
    BlendedChannel(d.blue, ink.blue, ink.alpha, c);
    BlendedChannel(d.green, ink.green, ink.alpha, c);
    BlendedChannel(d.red, ink.red, ink.alpha, c);
    BlendedChannel(d.alpha, ink.alpha, ink.alpha, c);
  }

  lemma BlendedChannel(d: u8, v: u8, alpha: u8, c: nat)
    requires c <= 256 && v <= alpha
    ensures var a: nat := Scale(alpha, c);
      -2.5 < Channel(d, Scale(v, c), 256 - (a + a / 128)) as real - SourceOver(d, v, alpha, c) < 1.5
    ensures c == 0 ==> SourceOver(d, v, alpha, c) == d as real
  {
    hide Scale, Channel, Over65280;
    var a: nat := Scale(alpha, c);
    ChannelNear(d, v, alpha, c);
    SourceOverIs(d, v, alpha, c);
    InUnits(Channel(d, Scale(v, c), 256 - (a + a / 128)), SourceOver(d, v, alpha, c), Over65280(d, v, alpha, c), -163200, 97920);
  }

  /** Filling whole pixels is source-over to less than one. */
  lemma FilledIsOver(d: Pixel, ink: Pixel)
    requires Premultiplied(ink)
    ensures var b := FillPixel(d, Scaled(ink, 256));
      && -1.0 < b.blue as real - SourceOver(d.blue, ink.blue, ink.alpha, 256) < 1.0
      && -1.0 < b.green as real - SourceOver(d.green, ink.green, ink.alpha, 256) < 1.0
      && -1.0 < b.red as real - SourceOver(d.red, ink.red, ink.alpha, 256) < 1.0
      && -1.0 < b.alpha as real - SourceOver(d.alpha, ink.alpha, ink.alpha, 256) < 1.0
  {
    hide Scale, FillByte, SourceOver, Over65280;
    FilledChannel(d.blue, ink.blue, ink.alpha);
    FilledChannel(d.green, ink.green, ink.alpha);
    FilledChannel(d.red, ink.red, ink.alpha);
    FilledChannel(d.alpha, ink.alpha, ink.alpha);
    ScaleEnds(ink.blue);
    ScaleEnds(ink.green);
    ScaleEnds(ink.red);
    ScaleEnds(ink.alpha);
  }

  lemma FilledChannel(d: u8, v: u8, alpha: u8)
    requires v <= alpha
    ensures -1.0 < FillByte(d, v, 256 - (alpha + alpha / 128)) as real - SourceOver(d, v, alpha, 256) < 1.0
  {
    hide FillByte, Over65280, SourceOver;
    FillNear(d, v, alpha);
    SourceOverIs(d, v, alpha, 256);
    InUnits(FillByte(d, v, 256 - (alpha + alpha / 128)), SourceOver(d, v, alpha, 256), Over65280(d, v, alpha, 256), -65280, 65280);
  }

  /** Ink that is all clear leaves every pixel as it is. */
  lemma ClearInk(d: Pixel, cov: real)
    ensures Blended(d, Pixel(0, 0, 0, 0), cov) == d
    ensures FillPixel(d, Scaled(Pixel(0, 0, 0, 0), 256)) == d
  {
    hide Channel, Scale, FillByte;
    ScaleNothing(Of256(cov));
    ScaleNothing(256);
    FillNothing(d.blue);
    FillNothing(d.green);
    FillNothing(d.red);
    FillNothing(d.alpha);
    ChannelEnds(d.blue, 0);
    ChannelEnds(d.green, 0);
    ChannelEnds(d.red, 0);
    ChannelEnds(d.alpha, 0);
  }

  lemma FillNothing(d: u8)
    ensures FillByte(d, 0, 256) == d
  {
  }

  lemma ScaleNothing(c: nat)
    requires c <= 256
    ensures Scale(0, c) == 0
  {
    assert 0 * c == 0;
  }

  /** A pixel that blending makes more than two too dark. */
  lemma TwoTooDark()
    ensures var d, ink := Pixel(247, 247, 247, 247), Pixel(83, 83, 83, 218);
      Premultiplied(ink) && OverPixel(d, Scaled(ink, 165)).blue == 162
      && 162.0 - SourceOver(d.blue, ink.blue, ink.alpha, 165) < -2.0
  {
    ScaleOf(218, 165, 35970);
    ScaleOf(83, 165, 13695);
    ThroughOf();
    SourceOverIs(247, 83, 218, 165);
    hide Scale, SourceOver, Channel;
    assert Over65280(247, 83, 218, 165) == 10731795;
  }

  lemma ThroughOf()
    ensures Channel(247, 53, 114) == 162
  {
    assert 247 * 114 == 28158;
  }
}
