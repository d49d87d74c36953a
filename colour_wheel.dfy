/** The heartbeat LED's colour wheel: `wheel` maps a position 0..=255 to an
    RGB colour that runs from red to green to blue and back to red. */
module ColourWheel {
  import opened RustU8

  /** `smart_leds::RGB8`: one byte per channel. */
  datatype RGB8 = RGB8(r: u8, g: u8, b: u8)

  /** The brightness budget of a colour: the three channels added up. */
  function Total(c: RGB8): int {
    c.r as int + c.g as int + c.b as int
  }

  /** `wheel`, evaluated as a debug build evaluates it: every subtraction and
      multiplication on `u8` is checked, and an overflow would be a panic.
      The parameter is first inverted; then the inverted position picks one of
      three sectors, in each of which one channel rises by 3 per step while
      another falls by 3 and the third stays dark. */
  function Wheel(wheelPos: u8): (r: Checked<RGB8>)
    ensures r.Value?
    ensures Total(r.value) == 255
  {
    var pos :- CheckedSub(255, wheelPos);
    if pos < 85 then
      var rising :- CheckedMul(pos, 3);
      var falling :- CheckedSub(255, rising);
      Value(RGB8(falling, 0, rising))
    else if pos < 170 then
      var offset :- CheckedSub(pos, 85);
      var rising :- CheckedMul(offset, 3);
      var falling :- CheckedSub(255, rising);
      Value(RGB8(0, rising, falling))
    else
      var offset :- CheckedSub(pos, 170);
      var rising :- CheckedMul(offset, 3);
      var falling :- CheckedSub(255, rising);
      Value(RGB8(rising, falling, 0))
  }

  /** Inverted position below 85: red falls and blue rises, green is dark. */
  lemma SectorRedBlue(n: u8)
    requires 255 - n < 85
    ensures Wheel(n).value.g == 0
    ensures Wheel(n).value.b as int == 3 * (255 - n as int)
    ensures Wheel(n).value.r as int == 255 - 3 * (255 - n as int)
  {
  }

  /** Inverted position in 85..170: green rises and blue falls, red is dark. */
  lemma SectorGreenBlue(n: u8)
    requires 85 <= 255 - n < 170
    ensures Wheel(n).value.r == 0
    ensures Wheel(n).value.g as int == 3 * (255 - n as int - 85)
    ensures Wheel(n).value.b as int == 255 - 3 * (255 - n as int - 85)
  {
  }

  /** Inverted position 170 or more: red rises and green falls, blue is dark. */
  lemma SectorRedGreen(n: u8)
    requires 170 <= 255 - n
    ensures Wheel(n).value.b == 0
    ensures Wheel(n).value.r as int == 3 * (255 - n as int - 170)
    ensures Wheel(n).value.g as int == 255 - 3 * (255 - n as int - 170)
  {
  }

  /** Every colour on the wheel mixes at most two primaries. */
  lemma SomeChannelDark(n: u8)
    ensures Wheel(n).value.r == 0 || Wheel(n).value.g == 0 || Wheel(n).value.b == 0
  {
  }

  /** Both ends of the input range are pure red, and the two thirds are the
      other primaries: red, then green, then blue, then back to red. */
  lemma Landmarks(n: u8)
    ensures n == 0 || n == 255 ==> Wheel(n).value == RGB8(255, 0, 0)
    ensures n == 85 ==> Wheel(n).value == RGB8(0, 255, 0)
    ensures n == 170 ==> Wheel(n).value == RGB8(0, 0, 255)
  {
  }

  // An independent description of the same colours, as a triangle wave per
  // channel over the (not inverted) input: each primary peaks at its landmark
  // and fades out by 3 per step away from it.

  /** |a - b| */
  function Distance(a: int, b: int): nat {
    if a <= b then b - a else a - b
  }

  /** Brightness of a primary `d` steps away from its peak. */
  function Ramp(d: nat): int {
    if 3 * d >= 255 then 0 else 255 - 3 * d
  }

  /** `wheel` agrees with the triangle waves: red peaks at 0 and at 255,
      green at 85 and blue at 170. */
  lemma TriangleWave(n: u8)
    ensures Wheel(n).value.r as int == Ramp(if n < 128 then Distance(n as int, 0) else Distance(n as int, 255))
    ensures Wheel(n).value.g as int == Ramp(Distance(n as int, 85))
    ensures Wheel(n).value.b as int == Ramp(Distance(n as int, 170))
  {
  }

  /** Stepping the input by one (with wrap-around, as the heartbeat does)
      moves no channel by more than 3: the transition has no jumps, not even
      where 255 wraps to 0. */
  lemma Smooth(n: u8)
    ensures Distance(Wheel(n).value.r as int, Wheel(WrappingAdd(n, 1)).value.r as int) <= 3
    ensures Distance(Wheel(n).value.g as int, Wheel(WrappingAdd(n, 1)).value.g as int) <= 3
    ensures Distance(Wheel(n).value.b as int, Wheel(WrappingAdd(n, 1)).value.b as int) <= 3
  {
    TriangleWave(n);
    TriangleWave(WrappingAdd(n, 1));
  }

  /** Reads the position back off a colour on the wheel. */
  function Hue(c: RGB8): u8 {
    if c.b == 0 then c.g / 3
    else if c.r == 0 then 85 + c.b / 3
    else 170 + c.r / 3
  }

  /** `Hue` undoes `wheel` on every input but the last, which is the same red
      as position 0. */
  lemma HueRoundTrip(n: u8)
    ensures Hue(Wheel(n).value) == if n == 255 then 0 else n
  {
  }

  /** Positions 0..=254 give 255 distinct colours; the only repeated colour
      is the red shared by 0 and 255. */
  lemma OnlyRedRepeats(a: u8, b: u8)
    ensures Wheel(a).value == Wheel(b).value <==>
              a == b || (a == 0 && b == 255) || (a == 255 && b == 0)
  {
    HueRoundTrip(a);
    HueRoundTrip(b);
    Landmarks(a);
    Landmarks(b);
  }
}
