/** The frame loop of `main` in src/main.cpp: for frames 0, 1, 2, ... read
    the frame's binary snapshot and draw its picture, stopping at the first
    frame whose snapshot is missing or after `num_frames` frames. */
module Sequencer {
  import opened Particles
  import opened FileNames
  import opened Render
  import opened Color
  import opened Snapshot
  import opened Image
  import opened Config

  predicate Present(fs: FileSystem, frame: nat) {
    DataFileName(frame, true) in fs
  }

  /** Where the loop stops when it has reached frame `f`: at `limit`, or
      at the first missing frame, whichever comes first. */
  function StopFrom(fs: FileSystem, limit: nat, f: nat): nat
    decreases limit - f
  {
    if f >= limit || !Present(fs, f) then f else StopFrom(fs, limit, f + 1)
  }

  /** How many pictures `main` draws. */
  function FramesRendered(fs: FileSystem, limit: nat): nat {
    StopFrom(fs, limit, 0)
  }

  /** One turn of the loop: it stops at a missing frame and otherwise moves
      on to the next one. */
  lemma StopAt(fs: FileSystem, limit: nat, f: nat)
    requires f < limit
    ensures !Present(fs, f) ==> StopFrom(fs, limit, f) == f
    ensures Present(fs, f) ==> StopFrom(fs, limit, f) == StopFrom(fs, limit, f + 1)
  {
  }

  /** The loop only stops at `limit` or at a missing frame, and never passes
      one. */
  lemma {:induction false} StopFromBounds(fs: FileSystem, limit: nat, f: nat)
    requires f <= limit
    ensures f <= StopFrom(fs, limit, f) <= limit
    ensures forall k :: f <= k < StopFrom(fs, limit, f) ==> Present(fs, k)
    ensures StopFrom(fs, limit, f) < limit ==> !Present(fs, StopFrom(fs, limit, f))
    decreases limit - f
  {
    if f < limit && Present(fs, f) {
      StopFromBounds(fs, limit, f + 1);
    }
  }

  /** The number of pictures is `min(num_frames, first missing frame)`: it is
      the one count `n` such that frames `0 .. n-1` all exist and either `n`
      is `num_frames` or frame `n` is missing. */
  lemma FramesRenderedIsFirstStop(fs: FileSystem, limit: nat, n: nat)
    ensures n == FramesRendered(fs, limit) <==>
      n <= limit && (forall k: nat :: k < n ==> Present(fs, k)) && (n < limit ==> !Present(fs, n))
  {
    StopFromBounds(fs, limit, 0);
  }

  /** The particles of frame `frame`'s snapshot, if it exists. */
  function FrameParticles(fs: FileSystem, frame: nat, size: nat, decode: seq<Byte> -> Particle): seq<Particle>
    requires size > 0
  {
    if Present(fs, frame) then Records(fs[DataFileName(frame, true)], size, decode) else []
  }

  /** The camera the settings describe. */
  function ViewOf(config: Settings, root: real -> real): View {
    View(config.projection, config.counts.imgW, config.counts.imgH, config.amounts.scale, root(3.0))
  }

  /** Pixel `c` of the picture the settings give for the particles `ps`. */
  function FramePixel(config: Settings, ps: seq<Particle>, root: real -> real, c: Cell): Rgb
    requires config.counts.imgW >= 1 && config.counts.imgH >= 1
  {
    Pixel(ps, ViewOf(config, root), config.amounts.brightness, AdaptiveBrightness in config.flags,
          NonlinearBrightness in config.flags, config.color, root, c)
  }

  /** A picture as the values of its pixels, column by column. */
  type Picture = seq<seq<Rgb>>

  /** The picture the settings give for the particles `ps`. */
  function PictureOf(config: Settings, ps: seq<Particle>, root: real -> real): (pic: Picture)
    requires config.counts.imgW >= 1 && config.counts.imgH >= 1
    ensures |pic| == config.counts.imgW
    ensures forall i :: 0 <= i < |pic| ==> |pic[i]| == config.counts.imgH
  {
    seq(config.counts.imgW, i requires 0 <= i < config.counts.imgW =>
      seq(config.counts.imgH, j requires 0 <= j < config.counts.imgH => FramePixel(config, ps, root, Cell(i, j))))
  }

  /** What saving the bitmap stores: the color of every pixel. */
  function Saved(p: array2<Rgb>): (pic: Picture)
    reads p
    ensures |pic| == p.Length0
    ensures forall i, j :: 0 <= i < p.Length0 && 0 <= j < p.Length1 ==> |pic[i]| == p.Length1 && pic[i][j] == p[i, j]
  {
    seq(p.Length0, i requires 0 <= i < p.Length0 reads p => seq(p.Length1, j requires 0 <= j < p.Length1 reads p => p[i, j]))
  }

  /** The pictures of frames `0 .. n-1`, in order. */
  function PicturesUpTo(config: Settings, fs: FileSystem, size: nat, decode: seq<Byte> -> Particle,
                        root: real -> real, n: nat): (pics: seq<Picture>)
    requires size > 0 && config.counts.imgW >= 1 && config.counts.imgH >= 1
    ensures |pics| == n
  {
    if n == 0 then []
    else PicturesUpTo(config, fs, size, decode, root, n - 1) + [PictureOf(config, FrameParticles(fs, n - 1, size, decode), root)]
  }

  /** The names of the pictures of frames `0 .. n-1`, in order. */
  function NamesUpTo(n: nat): (names: seq<string>)
    ensures |names| == n
  {
    if n == 0 then [] else NamesUpTo(n - 1) + [ImageFileName(n - 1)]
  }

  lemma {:induction false} NamesUpToAt(n: nat, k: nat)
    requires k < n
    ensures NamesUpTo(n)[k] == ImageFileName(k)
  {
    if k < n - 1 {
      NamesUpToAt(n - 1, k);
    }
  }

  lemma {:induction false} PicturesUpToAt(config: Settings, fs: FileSystem, size: nat, decode: seq<Byte> -> Particle,
                                          root: real -> real, n: nat, k: nat)
    requires size > 0 && config.counts.imgW >= 1 && config.counts.imgH >= 1 && k < n
    ensures PicturesUpTo(config, fs, size, decode, root, n)[k] == PictureOf(config, FrameParticles(fs, k, size, decode), root)
  {
    if k < n - 1 {
      PicturesUpToAt(config, fs, size, decode, root, n - 1, k);
    }
  }

  /** One turn of `main`'s loop: a fresh particle set, `read_data`, and,
      when the snapshot exists, `write_image` and the picture it saves. */
  method RenderFrame(config: Settings, fs: FileSystem, frame: nat, size: nat, decode: seq<Byte> -> Particle,
                     root: real -> real)
    returns (found: bool, path: string, picture: Picture)
    requires size > 0 && config.counts.imgW >= 1 && config.counts.imgH >= 1
    ensures found <==> Present(fs, frame)
    ensures found ==> path == ImageFileName(frame)
    ensures found ==> picture == PictureOf(config, FrameParticles(fs, frame, size, decode), root)
  {
    var particles := new ParticleSet();
    found := ReadData(particles, fs, frame, size, decode);
    if !found {
      return found, "", [];
    }
    var pixels;
    path, pixels := WriteImage(config.counts.imgW, config.counts.imgH, config.projection, config.color,
                               AdaptiveBrightness in config.flags, NonlinearBrightness in config.flags,
                               config.amounts.scale, config.amounts.brightness, frame, particles, root);
    picture := Saved(pixels);
    ghost var expected := PictureOf(config, FrameParticles(fs, frame, size, decode), root);
    forall i | 0 <= i < config.counts.imgW
      ensures picture[i] == expected[i]
    {
      assert |picture[i]| == config.counts.imgH;
    }
  }

  /** `main`'s loop: the names of the pictures written, in order, and the
      pictures saved under them. Frame `k`'s picture is drawn from every
      whole record of frame `k`'s snapshot. */
  method RenderFrames(config: Settings, fs: FileSystem, size: nat, decode: seq<Byte> -> Particle, root: real -> real)
    returns (written: seq<string>, pictures: seq<Picture>)
    requires size > 0 && config.counts.imgW >= 1 && config.counts.imgH >= 1
    ensures |written| == |pictures| == FramesRendered(fs, config.counts.numFrames)
    ensures forall k :: 0 <= k < |written| ==> written[k] == ImageFileName(k)
    ensures forall k :: 0 <= k < |pictures| ==> pictures[k] == PictureOf(config, FrameParticles(fs, k, size, decode), root)
  {
    var limit := config.counts.numFrames;
    written, pictures := [], [];
    var frame := 0;
    while frame < limit
      invariant frame == |written| == |pictures|
      invariant StopFrom(fs, limit, frame) == FramesRendered(fs, limit)
      invariant written == NamesUpTo(frame)
      invariant pictures == PicturesUpTo(config, fs, size, decode, root, frame)
    {
      var found, path, picture := RenderFrame(config, fs, frame, size, decode, root);
      if !found {
        StopAt(fs, limit, frame);
        break;
      }
      StopAt(fs, limit, frame);
      written := written + [path];
      pictures := pictures + [picture];
      frame := frame + 1;
    }
    forall k | 0 <= k < |pictures|
      ensures written[k] == ImageFileName(k)
      ensures pictures[k] == PictureOf(config, FrameParticles(fs, k, size, decode), root)
    {
      NamesUpToAt(frame, k);
      PicturesUpToAt(config, fs, size, decode, root, frame, k);
    }
  }
}
