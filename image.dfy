/** `write_image` of src/main.cpp as a whole: accumulate the particles into
    the buffer, optionally take square roots of the buffer and its maximum,
    and color every cell. The pixel grid stands for the FreeImage bitmap;
    the square root is the `root` parameter. */
module Image {
  import opened Outcomes
  import opened Particles
  import opened Render
  import opened Color
  import opened FileNames
  import opened Snapshot

  /** The nonlinear brightness remap: square root, or nothing. */
  function Remapped(x: real, nonlinear: bool, root: real -> real): real {
    if nonlinear then root(x) else x
  }

  /** What the accumulation and remap leave in cell `c`, and the maximum the
      color stage scales against. */
  function CellValue(ps: seq<Particle>, v: View, brightness: real, nonlinear: bool, root: real -> real, c: Cell): real
    requires Drawable(v)
  {
    Remapped(Deposited(Landings(ps, v), brightness, c), nonlinear, root)
  }

  function PeakValue(ps: seq<Particle>, v: View, brightness: real, nonlinear: bool, root: real -> real): real
    requires Drawable(v)
  {
    Remapped(RunningPeak(Landings(ps, v), brightness), nonlinear, root)
  }

  /** The color of pixel `c` of the picture `write_image` draws. */
  function Pixel(ps: seq<Particle>, v: View, brightness: real, adaptive: bool, nonlinear: bool,
                 mode: ColorMode, root: real -> real, c: Cell): (rgb: Rgb)
    requires Drawable(v)
    ensures IsByteColor(rgb)
  {
    PixelColor(CellValue(ps, v, brightness, nonlinear, root, c), PeakValue(ps, v, brightness, nonlinear, root), adaptive, mode)
  }

  /** The picture does not depend on the order in which the particle set
      is visited. */
  lemma PictureOrderFree(ps: seq<Particle>, qs: seq<Particle>, v: View, brightness: real, adaptive: bool,
                         nonlinear: bool, mode: ColorMode, root: real -> real, c: Cell)
    requires Drawable(v) && multiset(ps) == multiset(qs)
    ensures Pixel(ps, v, brightness, adaptive, nonlinear, mode, root, c) == Pixel(qs, v, brightness, adaptive, nonlinear, mode, root, c)
  {
    DepositedPermutation(ps, qs, v, brightness, c);
    PeakPermutation(ps, qs, v, brightness);
  }

  /** A pixel no particle landed in is black in grayscale and blue in heat
      (given that the remap, when on, keeps 0 at 0 as the square root does). */
  lemma EmptyPixel(ps: seq<Particle>, v: View, brightness: real, adaptive: bool,
                   nonlinear: bool, mode: ColorMode, root: real -> real, c: Cell)
    requires Drawable(v) && Some(c) !in Landings(ps, v)
    requires nonlinear ==> root(0.0) == 0.0
    ensures mode == Bw ==> Pixel(ps, v, brightness, adaptive, nonlinear, mode, root, c) == Rgb(0, 0, 0)
    ensures mode == Heat ==> Pixel(ps, v, brightness, adaptive, nonlinear, mode, root, c) == Rgb(0, 0, 255)
  {
    UntouchedStaysZero(Landings(ps, v), brightness, c);
    EmptyCellColor(PeakValue(ps, v, brightness, nonlinear, root), adaptive);
  }

  /** With adaptive brightness, a positive brightness and no remap, the
      brightest pixel of the frame gets the palette's top color. */
  lemma BrightestPixel(ps: seq<Particle>, v: View, brightness: real, mode: ColorMode, root: real -> real)
    requires Drawable(v) && brightness > 0.0 && RunningPeak(Landings(ps, v), brightness) > 0.0
    ensures exists c :: (Some(c) in Landings(ps, v) &&
      Pixel(ps, v, brightness, true, false, mode, root, c) == if mode == Bw then Rgb(255, 255, 255) else Rgb(255, 0, 0))
  {
    var ls := Landings(ps, v);
    PeakAttained(ls, brightness);
    var c :| Some(c) in ls && Deposited(ls, brightness, c) == RunningPeak(ls, brightness);
    BrightestAtPeak(RunningPeak(ls, brightness), mode);
  }

  /** The nonlinear pass: the maximum and every cell are replaced by their
      square roots. */
  method SquareRootPass(temp: array2<real>, peak: real, root: real -> real) returns (newPeak: real)
    modifies temp
    ensures newPeak == root(peak)
    ensures forall i, j :: 0 <= i < temp.Length0 && 0 <= j < temp.Length1 ==> temp[i, j] == root(old(temp[i, j]))
  {
    newPeak := root(peak);
    for i := 0 to temp.Length0
      invariant forall a, b :: 0 <= a < i && 0 <= b < temp.Length1 ==> temp[a, b] == root(old(temp[a, b]))
      invariant forall a, b :: i <= a < temp.Length0 && 0 <= b < temp.Length1 ==> temp[a, b] == old(temp[a, b])
    {
      for j := 0 to temp.Length1
        invariant forall a, b :: 0 <= a < i && 0 <= b < temp.Length1 ==> temp[a, b] == root(old(temp[a, b]))
        invariant forall a, b :: i < a < temp.Length0 && 0 <= b < temp.Length1 ==> temp[a, b] == old(temp[a, b])
        invariant forall b :: 0 <= b < j ==> temp[i, b] == root(old(temp[i, b]))
        invariant forall b :: j <= b < temp.Length1 ==> temp[i, b] == old(temp[i, b])
      {
        temp[i, j] := root(temp[i, j]);
      }
    }
  }

  /** The color loops: every pixel gets the color of its cell. */
  method Colorize(temp: array2<real>, peak: real, adaptive: bool, mode: ColorMode) returns (pixels: array2<Rgb>)
    ensures fresh(pixels) && pixels.Length0 == temp.Length0 && pixels.Length1 == temp.Length1
    ensures forall i, j :: 0 <= i < temp.Length0 && 0 <= j < temp.Length1 ==>
      pixels[i, j] == PixelColor(temp[i, j], peak, adaptive, mode)
  {
    pixels := new Rgb[temp.Length0, temp.Length1];
    for i := 0 to temp.Length0
      invariant forall a, b :: 0 <= a < i && 0 <= b < temp.Length1 ==> pixels[a, b] == PixelColor(temp[a, b], peak, adaptive, mode)
    {
      for j := 0 to temp.Length1
        invariant forall a, b :: 0 <= a < i && 0 <= b < temp.Length1 ==> pixels[a, b] == PixelColor(temp[a, b], peak, adaptive, mode)
        invariant forall b :: 0 <= b < j ==> pixels[i, b] == PixelColor(temp[i, b], peak, adaptive, mode)
      {
        var level := Level(temp[i, j], peak, adaptive, mode);
        pixels[i, j] := Shade(mode, level);
      }
    }
  }

  /** `write_image`: the picture of the particle set and the name it is
      saved under. */
  method WriteImage(width: nat, height: nat, projection: Projection, color: ColorMode, adaptive: bool,
                    nonlinear: bool, scale: real, brightness: real, frame: nat, particles: ParticleSet,
                    root: real -> real)
    returns (path: string, pixels: array2<Rgb>)
    requires width >= 1 && height >= 1
    ensures path == ImageFileName(frame)
    ensures fresh(pixels) && pixels.Length0 == width && pixels.Length1 == height
    ensures forall i, j :: 0 <= i < width && 0 <= j < height ==>
      pixels[i, j] == Pixel(particles.members, View(projection, width, height, scale, root(3.0)), brightness,
                            adaptive, nonlinear, color, root, Cell(i, j))
  {
    var v := View(projection, width, height, scale, root(3.0));
    var temp, peak := Accumulate(particles.members, v, brightness);
    if nonlinear {
      peak := SquareRootPass(temp, peak, root);
    }
    pixels := Colorize(temp, peak, adaptive, color);
    path := GenImage(frame);
  }
}
