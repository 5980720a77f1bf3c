/**
 * saiga_frontend's table of the xterm 256-colour palette above the sixteen
 * configured colours: a 6x6x6 colour cube at indices 16 to 231 and a
 * 24-step grey ramp at 232 to 255, built into a map by nested loops.
 * A colour is kept as its three 8-bit components, the arguments of
 * `Color::from_rgb8`.
 */
module Theme {
  import opened Common

  datatype Rgb = Rgb(r: u8, g: u8, b: u8)

  /** The 8-bit intensity of cube level `v`: black, then 95 rising by 40 to 255. */
  function Level(v: nat): (c: u8)
    requires v < 6
  {
    if v == 0 then 0 else v * 40 + 55
  }

  /** The cube colour with levels `r`, `g`, `b`. */
  function Cube(r: nat, g: nat, b: nat): Rgb
    requires r < 6 && g < 6 && b < 6
  {
    Rgb(Level(r), Level(g), Level(b))
  }

  /** The palette index of a cube colour: base 16, then base-6 digits red, green, blue. */
  function CubeIndex(r: nat, g: nat, b: nat): (n: u8)
    requires r < 6 && g < 6 && b < 6
    ensures 16 <= n < 232
  {
    16 + r * 36 + g * 6 + b
  }

  /** Step `i` of the grey ramp: all three components `10 i + 8`. */
  function Grey(i: nat): Rgb
    requires i < 24
  {
    var v := i * 10 + 8;
    Rgb(v, v, v)
  }

  /**
   * The palette entry of an index, read back from the index alone: none
   * below 16 (those come from the configuration), the cube colour of its
   * base-6 digits up to 231, the grey step after that.
   */
  function Ansi256(n: u8): (c: Option<Rgb>)
    ensures c.None? <==> n < 16
  {
    if n < 16 then None
    else if n < 232 then Some(Cube((n - 16) / 36, (n - 16) / 6 % 6, (n - 16) % 6))
    else Some(Grey(n - 232))
  }

  /** The cube levels are 0, 95, 135, 175, 215 and 255, strictly rising. */
  lemma LevelValues()
    ensures Level(0) == 0 && Level(1) == 95 && Level(2) == 135
    ensures Level(3) == 175 && Level(4) == 215 && Level(5) == 255
    ensures forall v, w :: 0 <= v < w < 6 ==> Level(v) < Level(w)
  {
  }

  /** Every cube colour sits at its index, and nowhere else. */
  lemma CubeIndexInverse(r: nat, g: nat, b: nat)
    requires r < 6 && g < 6 && b < 6
    ensures Ansi256(CubeIndex(r, g, b)) == Some(Cube(r, g, b))
    ensures forall n: u8 :: 16 <= n < 232 && Ansi256(n) == Some(Cube(r, g, b)) ==> n == CubeIndex(r, g, b)
  {
    var k := r * 36 + g * 6 + b;
    assert k / 36 == r && k / 6 % 6 == g && k % 6 == b;
    forall n: u8 | 16 <= n < 232 && Ansi256(n) == Some(Cube(r, g, b))
      ensures n == CubeIndex(r, g, b)
    {
      CubeDigits(n);
      LevelInjective((n - 16) / 36, r);
      LevelInjective((n - 16) / 6 % 6, g);
      LevelInjective((n - 16) % 6, b);
    }
  }

  /** Every cube index is the index of its own digits. */
  lemma CubeDigits(n: u8)
    requires 16 <= n < 232
    ensures var k := n - 16; k / 36 < 6 && CubeIndex(k / 36, k / 6 % 6, k % 6) == n
  {
  }

  lemma LevelInjective(v: nat, w: nat)
    requires v < 6 && w < 6 && Level(v) == Level(w)
    ensures v == w
  {
  }

  /** Every grey step sits at 232 plus the step. */
  lemma GreyIndex(i: nat)
    requires i < 24
    ensures Ansi256(232 + i as u8) == Some(Grey(i))
  {
  }

  /** No grey step is a cube colour: grey components end in 8, cube levels in 0 or 5. */
  lemma GreyIsNotCube(i: nat, r: nat, g: nat, b: nat)
    requires i < 24 && r < 6 && g < 6 && b < 6
    ensures Grey(i) != Cube(r, g, b)
  {
    assert Level(r) % 10 == 0 || Level(r) % 10 == 5;
  }

  /** The 240 entries are 240 different colours. */
  lemma Ansi256Distinct(m: u8, n: u8)
    requires 16 <= m && 16 <= n && m != n
    ensures Ansi256(m) != Ansi256(n)
  {
    if m < 232 && n < 232 {
      var k := m - 16;
      CubeIndexInverse(k / 36, k / 6 % 6, k % 6);
      CubeDigits(m);
    } else if m < 232 {
      var k := m - 16;
      GreyIsNotCube(n - 232, k / 36, k / 6 % 6, k % 6);
    } else if n < 232 {
      var k := n - 16;
      GreyIsNotCube(m - 232, k / 36, k / 6 % 6, k % 6);
    }
  }

  /** The bytes from `lo` up to `hi`, and how many there are. */
  function ByteRange(lo: nat, hi: nat): (r: set<u8>)
    requires lo <= hi <= 0x100
    ensures forall n: u8 :: n in r <==> lo <= n < hi
    ensures |r| == hi - lo
    decreases hi - lo
  {
    if lo == hi then {} else {lo as u8} + ByteRange(lo + 1, hi)
  }

  /**
   * `build_ansi256_colors`: exactly the indices 16 to 255, 240 of them,
   * each holding the colour its index names.
   */
  method BuildAnsi256Colors() returns (colors: map<u8, Rgb>)
    ensures forall n: u8 :: n in colors <==> 16 <= n
    ensures forall n: u8 :: n in colors ==> Ansi256(n) == Some(colors[n])
    ensures |colors| == 240
  {
    colors := InsertCube();
    colors := InsertGreyRamp(colors);
    assert colors.Keys == ByteRange(16, 0x100);
  }

  /** The three nested loops of `build_ansi256_colors`, red outermost: the cube into an empty map. */
  method InsertCube() returns (colors: map<u8, Rgb>)
    ensures forall n: u8 :: n in colors <==> 16 <= n < 232
    ensures forall n: u8 :: n in colors ==> Ansi256(n) == Some(colors[n])
  {
    colors := map[];
    for r := 0 to 6
      invariant forall n: u8 :: n in colors <==> 16 <= n < 16 + r * 36
      invariant forall n: u8 :: n in colors ==> Ansi256(n) == Some(colors[n])
    {
      for g := 0 to 6
        invariant forall n: u8 :: n in colors <==> 16 <= n < 16 + r * 36 + g * 6
        invariant forall n: u8 :: n in colors ==> Ansi256(n) == Some(colors[n])
      {
        for b := 0 to 6
          invariant forall n: u8 :: n in colors <==> 16 <= n < 16 + r * 36 + g * 6 + b
          invariant forall n: u8 :: n in colors ==> Ansi256(n) == Some(colors[n])
        {
          var index: u8 := 16 + r * 36 + g * 6 + b;
          var color := Rgb(
            if r == 0 then 0 else r * 40 + 55,
            if g == 0 then 0 else g * 40 + 55,
            if b == 0 then 0 else b * 40 + 55);
          CubeIndexInverse(r, g, b);
          colors := colors[index := color];
        }
      }
    }
  }

  /** The last loop of `build_ansi256_colors`: the grey ramp from `INDEX` 232. */
  method InsertGreyRamp(cube: map<u8, Rgb>) returns (colors: map<u8, Rgb>)
    requires forall n: u8 :: n in cube <==> 16 <= n < 232
    requires forall n: u8 :: n in cube ==> Ansi256(n) == Some(cube[n])
    ensures forall n: u8 :: n in colors <==> 16 <= n
    ensures forall n: u8 :: n in colors ==> Ansi256(n) == Some(colors[n])
  {
    colors := cube;
    for i := 0 to 24
      invariant forall n: u8 :: n in colors <==> 16 <= n < 232 + i
      invariant forall n: u8 :: n in colors ==> Ansi256(n) == Some(colors[n])
    {
      var value: u8 := i * 10 + 8;
      colors := colors[232 + i := Rgb(value, value, value)];
    }
  }
}
