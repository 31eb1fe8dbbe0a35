/** The settings record of src/main.cpp, its defaults (`set_default`) and
    the keyword/value reader over the words of a settings file
    (`read_settings`). How a numeric word becomes a number (`operator>>`)
    is the `Extractors` parameter. */
module Config {
  import opened Outcomes
  import opened Particles
  import opened Render
  import opened Color

  datatype GenType = Cube | Sphere | Shell
  datatype Distribution = Linear | Exp | Normal

  /** The boolean settings. */
  datatype Flag =
    | ReadExisting | UseSeed | DisplayProgress | DumpBinary | DumpText | DumpImage
    | OverwriteData | KeepPreviousBinary | KeepPreviousText | Verbose | Damping
    | AdaptiveBrightness | NonlinearBrightness | Collide | Cuda

  /** The unsigned integer settings. */
  datatype Count = Threads | NumParticles | NumFrames | Seed | ImgW | ImgH

  /** The floating-point settings. */
  datatype Amount =
    | ScaleX | ScaleY | ScaleZ | RSphere | RotationMagnitude | Size | Theta | Dt
    | MinMass | MaxMass | MinVel | MaxVel | Brightness | Scale | CollisionRange | MinNodeSize

  /** The settings that must be one of a few listed words. */
  datatype Choice = GenTypeKey | MassDistKey | VelDistKey | ProjectionKey | ColorKey

  /** The boolean settings that are on. */
  type Flags = set<Flag>

  datatype Counts = Counts(threads: nat, numParticles: nat, numFrames: nat, seed: nat, imgW: nat, imgH: nat)

  datatype Amounts = Amounts(
    scaleX: real, scaleY: real, scaleZ: real, rSphere: real, rotationMagnitude: real,
    size: real, theta: real, dt: real, minMass: real, maxMass: real, minVel: real,
    maxVel: real, brightness: real, scale: real, collisionRange: real, minNodeSize: real)

  /** `struct settings`. */
  datatype Settings = Settings(
    flags: Flags, counts: Counts, amounts: Amounts, rotationVector: Position,
    genType: GenType, massDist: Distribution, velDist: Distribution,
    projection: Projection, color: ColorMode)

  /** How `operator>>` turns a word into an unsigned or a floating-point
      number. */
  datatype Extractors = Extractors(whole: string -> nat, fraction: string -> real)

  /** Why reading stops: a listed-word setting got a word that is not on its
      list, and the `assert` that follows fails. */
  datatype Failure = Rejected(choice: Choice, word: string)

  // ---------------------------------------------------------------------
  // Reading and writing single fields

  function SetFlag(fl: Flags, f: Flag, b: bool): Flags {
    if b then fl + {f} else fl - {f}
  }

  function SetCount(cs: Counts, n: Count, x: nat): Counts {
    match n
    case Threads => cs.(threads := x)
    case NumParticles => cs.(numParticles := x)
    case NumFrames => cs.(numFrames := x)
    case Seed => cs.(seed := x)
    case ImgW => cs.(imgW := x)
    case ImgH => cs.(imgH := x)
  }

  function SetAmount(am: Amounts, a: Amount, x: real): Amounts {
    match a
    case ScaleX => am.(scaleX := x)
    case ScaleY => am.(scaleY := x)
    case ScaleZ => am.(scaleZ := x)
    case RSphere => am.(rSphere := x)
    case RotationMagnitude => am.(rotationMagnitude := x)
    case Size => am.(size := x)
    case Theta => am.(theta := x)
    case Dt => am.(dt := x)
    case MinMass => am.(minMass := x)
    case MaxMass => am.(maxMass := x)
    case MinVel => am.(minVel := x)
    case MaxVel => am.(maxVel := x)
    case Brightness => am.(brightness := x)
    case Scale => am.(scale := x)
    case CollisionRange => am.(collisionRange := x)
    case MinNodeSize => am.(minNodeSize := x)
  }

  // ---------------------------------------------------------------------
  // Defaults

  /** `set_default`: the record every settings file is read on top of. It
      describes a 1920 by 1080 isometric grayscale picture of 300 frames. */
  function Default(): (s: Settings)
    ensures s.counts.imgW >= 1 && s.counts.imgH >= 1 && s.counts.numFrames > 0
    ensures s.projection == Iso && s.color == Bw
    ensures AdaptiveBrightness !in s.flags && NonlinearBrightness !in s.flags
  {
    Settings(
      {DisplayProgress, DumpBinary, DumpText, DumpImage, KeepPreviousText},
      Counts(threads := 1, numParticles := 5000, numFrames := 300, seed := 0xDEAD_BEEF, imgW := 1920, imgH := 1080),
      Amounts(
        scaleX := 1.0, scaleY := 1.0, scaleZ := 1.0, rSphere := 100.0, rotationMagnitude := 0.1,
        size := 512.0, theta := 0.5, dt := 0.0333, minMass := 50000000000.0, maxMass := 500000000000.0,
        minVel := 0.0, maxVel := 0.0, brightness := 255.0, scale := 1.0, collisionRange := 0.01,
        minNodeSize := 0.0),
      Position(0.0, 0.0, 1.0),
      Cube, Linear, Linear, Iso, Bw)
  }

  /** Under the defaults a particle at the origin lands in the middle of the
      picture: column 960, and row 539 once the isometric flip is applied. */
  lemma DefaultOriginLanding(root3: real)
    ensures var s := Default();
      Landing(Particle(Position(0.0, 0.0, 0.0)),
              View(s.projection, s.counts.imgW, s.counts.imgH, s.amounts.scale, root3)) == Some(Cell(960, 539))
  {
    var v := View(Iso, 1920, 1080, 1.0, root3);
    assert Project(Position(0.0, 0.0, 0.0), v) == (960.0, 540.0);
  }

  // ---------------------------------------------------------------------
  // Keywords

  datatype Key = FlagKey(flag: Flag) | ChoiceKey(choice: Choice) | CountKey(count: Count)
               | AmountKey(amount: Amount) | RotationKey

  /** The chain of comparisons at the head of the reading loop: which
      setting a word names, if any. `true`, `false` and unknown words name
      none. */
  function Keyword(w: string): Option<Key> {
    if w == "read_existing" then Some(FlagKey(ReadExisting))
    else if w == "use_seed" then Some(FlagKey(UseSeed))
    else if w == "display_progress" then Some(FlagKey(DisplayProgress))
    else if w == "dump_binary" then Some(FlagKey(DumpBinary))
    else if w == "dump_text" then Some(FlagKey(DumpText))
    else if w == "dump_image" then Some(FlagKey(DumpImage))
    else if w == "overwrite_data" then Some(FlagKey(OverwriteData))
    else if w == "keep_previous_binary" then Some(FlagKey(KeepPreviousBinary))
    else if w == "keep_previous_text" then Some(FlagKey(KeepPreviousText))
    else if w == "verbose" then Some(FlagKey(Verbose))
    else if w == "damping" then Some(FlagKey(Damping))
    else if w == "adaptive_brightness" then Some(FlagKey(AdaptiveBrightness))
    else if w == "nonlinear_brightness" then Some(FlagKey(NonlinearBrightness))
    else if w == "collide" then Some(FlagKey(Collide))
    else if w == "cuda" then Some(FlagKey(Cuda))
    else if w == "rotation_vector" then Some(RotationKey)
    else if w == "gen_type" then Some(ChoiceKey(GenTypeKey))
    else if w == "mass_dist" then Some(ChoiceKey(MassDistKey))
    else if w == "vel_dist" then Some(ChoiceKey(VelDistKey))
    else if w == "projection" then Some(ChoiceKey(ProjectionKey))
    else if w == "color" then Some(ChoiceKey(ColorKey))
    else if w == "threads" then Some(CountKey(Threads))
    else if w == "scale_x" then Some(AmountKey(ScaleX))
    else if w == "scale_y" then Some(AmountKey(ScaleY))
    else if w == "scale_z" then Some(AmountKey(ScaleZ))
    else if w == "r_sphere" then Some(AmountKey(RSphere))
    else if w == "rotation_magnitude" then Some(AmountKey(RotationMagnitude))
    else if w == "num_particles" then Some(CountKey(NumParticles))
    else if w == "num_frames" then Some(CountKey(NumFrames))
    else if w == "size" then Some(AmountKey(Size))
    else if w == "theta" then Some(AmountKey(Theta))
    else if w == "dt" then Some(AmountKey(Dt))
    else if w == "seed" then Some(CountKey(Seed))
    else if w == "min_mass" then Some(AmountKey(MinMass))
    else if w == "max_mass" then Some(AmountKey(MaxMass))
    else if w == "min_vel" then Some(AmountKey(MinVel))
    else if w == "max_vel" then Some(AmountKey(MaxVel))
    else if w == "brightness" then Some(AmountKey(Brightness))
    else if w == "img_w" then Some(CountKey(ImgW))
    else if w == "img_h" then Some(CountKey(ImgH))
    else if w == "scale" then Some(AmountKey(Scale))
    else if w == "collision_range" then Some(AmountKey(CollisionRange))
    else if w == "min_node_size" then Some(AmountKey(MinNodeSize))
    else None
  }

  /** Spot checks of the chain: the two listed-word settings the renderer
      uses, and the stray words `true` and `false`, which name nothing. */
  lemma ProjectionKeyword()
    ensures Keyword("projection") == Some(ChoiceKey(ProjectionKey))
  {
  }

  lemma ColorKeyword()
    ensures Keyword("color") == Some(ChoiceKey(ColorKey))
  {
  }

  lemma StrayWords()
    ensures Keyword("true") == None && Keyword("false") == None
  {
  }

  // ---------------------------------------------------------------------
  // Listed words

  function ParseGenType(w: string): Option<GenType> {
    if w == "cube" then Some(Cube) else if w == "sphere" then Some(Sphere)
    else if w == "shell" then Some(Shell) else None
  }

  function ParseDistribution(w: string): Option<Distribution> {
    if w == "linear" then Some(Linear) else if w == "exp" then Some(Exp)
    else if w == "normal" then Some(Normal) else None
  }

  function ParseProjection(w: string): Option<Projection> {
    if w == "front" then Some(Front) else if w == "side" then Some(Side)
    else if w == "top" then Some(Top) else if w == "iso" then Some(Iso) else None
  }

  function ParseColor(w: string): Option<ColorMode> {
    if w == "bw" then Some(Bw) else if w == "heat" then Some(Heat) else None
  }

  /** The words each listed-word setting accepts. */
  function Listed(c: Choice): set<string> {
    match c
    case GenTypeKey => {"cube", "sphere", "shell"}
    case MassDistKey => {"linear", "exp", "normal"}
    case VelDistKey => {"linear", "exp", "normal"}
    case ProjectionKey => {"front", "side", "top", "iso"}
    case ColorKey => {"bw", "heat"}
  }

  /** Stores a listed word into its setting; any other word fails the
      setting's assertion. Only that one setting changes. */
  function SetChoice(s: Settings, c: Choice, w: string): (r: Result<Settings, Failure>)
    ensures r.Err? <==> w !in Listed(c)
    ensures r.Err? ==> r.error == Rejected(c, w)
    ensures r.Ok? ==> r.value.flags == s.flags && r.value.counts == s.counts && r.value.amounts == s.amounts
  {
    match c
    case GenTypeKey => (
      match ParseGenType(w)
      case None => Err(Rejected(GenTypeKey, w))
      case Some(g) => Ok(s.(genType := g)))
    case MassDistKey => (
      match ParseDistribution(w)
      case None => Err(Rejected(MassDistKey, w))
      case Some(d) => Ok(s.(massDist := d)))
    case VelDistKey => (
      match ParseDistribution(w)
      case None => Err(Rejected(VelDistKey, w))
      case Some(d) => Ok(s.(velDist := d)))
    case ProjectionKey => (
      match ParseProjection(w)
      case None => Err(Rejected(ProjectionKey, w))
      case Some(p) => Ok(s.(projection := p)))
    case ColorKey => (
      match ParseColor(w)
      case None => Err(Rejected(ColorKey, w))
      case Some(m) => Ok(s.(color := m)))
  }

  /** The projection and color words name the projections and palettes
      one to one. */
  lemma ProjectionWords(w: string, p: Projection)
    ensures ParseProjection(w) == Some(p) <==>
      w == match p case Front => "front" case Side => "side" case Top => "top" case Iso => "iso"
  {
  }

  lemma ColorWords(w: string, m: ColorMode)
    ensures ParseColor(w) == Some(m) <==> w == match m case Bw => "bw" case Heat => "heat"
  {
  }

  // ---------------------------------------------------------------------
  // The reading loop

  /** The word `k` places after the current one, or the empty word past the
      end of the file. */
  function Arg(toks: seq<string>, k: nat): string {
    if k < |toks| then toks[k] else ""
  }

  /** How many words one pass of the loop consumes, counting the keyword. */
  function Width(w: string): nat {
    match Keyword(w)
    case None => 1
    case Some(RotationKey) => 4
    case Some(_) => 2
  }

  /** One pass of the loop over the words `toks`, which start with the word
      just read. */
  function Step(s: Settings, toks: seq<string>, ex: Extractors): Result<Settings, Failure>
    requires |toks| > 0
  {
    match Keyword(toks[0])
    case None => Ok(s)
    case Some(FlagKey(f)) => Ok(s.(flags := SetFlag(s.flags, f, Arg(toks, 1) == "true")))
    case Some(ChoiceKey(c)) => SetChoice(s, c, Arg(toks, 1))
    case Some(CountKey(n)) => Ok(s.(counts := SetCount(s.counts, n, ex.whole(Arg(toks, 1)))))
    case Some(AmountKey(a)) => Ok(s.(amounts := SetAmount(s.amounts, a, ex.fraction(Arg(toks, 1)))))
    case Some(RotationKey) =>
      Ok(s.(rotationVector := Position(ex.fraction(Arg(toks, 1)), ex.fraction(Arg(toks, 2)), ex.fraction(Arg(toks, 3)))))
  }

  /** The words left after one pass. */
  function Rest(toks: seq<string>): (r: seq<string>)
    requires |toks| > 0
    ensures |r| < |toks|
  {
    if Width(toks[0]) <= |toks| then toks[Width(toks[0])..] else []
  }

  /** The whole loop, pass after pass, stopping at the first failure. */
  function Apply(s: Settings, toks: seq<string>, ex: Extractors): Result<Settings, Failure>
    decreases |toks|
  {
    if toks == [] then Ok(s)
    else
      match Step(s, toks, ex)
      case Err(e) => Err(e)
      case Ok(t) => Apply(t, Rest(toks), ex)
  }

  // ---------------------------------------------------------------------
  // Properties of the loop

  /** The words `a` are read in whole passes: no pass runs past the end of
      `a`. */
  predicate Aligned(a: seq<string>)
    decreases |a|
  {
    a == [] || (Width(a[0]) <= |a| && Aligned(a[Width(a[0])..]))
  }

  /** A pass that ends inside `a` does not look at what follows `a`. */
  lemma StepPrefix(s: Settings, a: seq<string>, b: seq<string>, ex: Extractors)
    requires |a| > 0 && Width(a[0]) <= |a|
    ensures Step(s, a + b, ex) == Step(s, a, ex)
    ensures Rest(a + b) == Rest(a) + b
  {
    assert (a + b)[0] == a[0];
    assert forall k: nat :: k < Width(a[0]) ==> Arg(a + b, k) == Arg(a, k);
    assert (a + b)[Width(a[0])..] == a[Width(a[0])..] + b;
  }

  /** Reading `a + b` is reading `a`, then reading `b` on top of the result,
      unless reading `a` already failed. */
  lemma {:induction false} ApplyAppend(s: Settings, a: seq<string>, b: seq<string>, ex: Extractors)
    requires Aligned(a)
    ensures Apply(s, a + b, ex) == match Apply(s, a, ex) case Err(e) => Err(e) case Ok(t) => Apply(t, b, ex)
    decreases |a|
  {
    if a == [] {
      assert a + b == b;
    } else {
      StepPrefix(s, a, b, ex);
      match Step(s, a, ex) {
        case Err(e) =>
        case Ok(t) => ApplyAppend(t, Rest(a), b, ex);
      }
    }
  }

  /** Words that name no setting, among them stray `true` and `false`, are
      skipped. */
  lemma StrayWordSkipped(s: Settings, w: string, rest: seq<string>, ex: Extractors)
    requires Keyword(w) == None
    ensures Apply(s, [w] + rest, ex) == Apply(s, rest, ex)
  {
    assert ([w] + rest)[1..] == rest;
  }

  /** A second pass over the same setting replaces what the first stored. */
  lemma StepOverwrites(s: Settings, w: string, t1: string, t2: string, ex: Extractors)
    requires Width(w) == 2 && Step(s, [w, t1], ex).Ok?
    ensures Step(Step(s, [w, t1], ex).value, [w, t2], ex) == Step(s, [w, t2], ex)
  {
    var t := Step(s, [w, t1], ex).value;
    match Keyword(w) {
      case Some(FlagKey(f)) =>
        assert SetFlag(t.flags, f, t2 == "true") == SetFlag(s.flags, f, t2 == "true");
      case Some(ChoiceKey(c)) =>
      case Some(CountKey(n)) =>
      case Some(AmountKey(m)) =>
    }
  }

  /** When a setting is given twice, the second value is the one that
      stays. */
  lemma LaterOverrides(s: Settings, w: string, t1: string, t2: string, rest: seq<string>, ex: Extractors)
    requires Width(w) == 2 && Step(s, [w, t1], ex).Ok?
    ensures Apply(s, [w, t1, w, t2] + rest, ex) == Apply(s, [w, t2] + rest, ex)
  {
    var t := Step(s, [w, t1], ex).value;
    assert [w, t1, w, t2] + rest == [w, t1] + ([w, t2] + rest);
    assert [w, t1][2..] == [] && [w, t2][2..] == [];
    ApplyAppend(s, [w, t1], [w, t2] + rest, ex);
    assert Apply(s, [w, t1], ex) == Ok(t);
    ApplyAppend(t, [w, t2], rest, ex);
    ApplyAppend(s, [w, t2], rest, ex);
    StepOverwrites(s, w, t1, t2, ex);
  }

  // ---------------------------------------------------------------------
  // What each setting holds

  function CountOf(cs: Counts, n: Count): nat {
    match n
    case Threads => cs.threads
    case NumParticles => cs.numParticles
    case NumFrames => cs.numFrames
    case Seed => cs.seed
    case ImgW => cs.imgW
    case ImgH => cs.imgH
  }

  function AmountOf(am: Amounts, a: Amount): real {
    match a
    case ScaleX => am.scaleX
    case ScaleY => am.scaleY
    case ScaleZ => am.scaleZ
    case RSphere => am.rSphere
    case RotationMagnitude => am.rotationMagnitude
    case Size => am.size
    case Theta => am.theta
    case Dt => am.dt
    case MinMass => am.minMass
    case MaxMass => am.maxMass
    case MinVel => am.minVel
    case MaxVel => am.maxVel
    case Brightness => am.brightness
    case Scale => am.scale
    case CollisionRange => am.collisionRange
    case MinNodeSize => am.minNodeSize
  }

  /** The value of a listed-word setting. */
  datatype Pick = GenPick(gen: GenType) | DistPick(dist: Distribution) | ProjPick(proj: Projection) | ColorPick(mode: ColorMode)

  function Picked(s: Settings, c: Choice): Pick {
    match c
    case GenTypeKey => GenPick(s.genType)
    case MassDistKey => DistPick(s.massDist)
    case VelDistKey => DistPick(s.velDist)
    case ProjectionKey => ProjPick(s.projection)
    case ColorKey => ColorPick(s.color)
  }

  /** What a listed word stands for, if it is on the setting's list. */
  function Named(c: Choice, w: string): Option<Pick> {
    match c
    case GenTypeKey => (match ParseGenType(w) case None => None case Some(g) => Some(GenPick(g)))
    case MassDistKey => (match ParseDistribution(w) case None => None case Some(d) => Some(DistPick(d)))
    case VelDistKey => (match ParseDistribution(w) case None => None case Some(d) => Some(DistPick(d)))
    case ProjectionKey => (match ParseProjection(w) case None => None case Some(p) => Some(ProjPick(p)))
    case ColorKey => (match ParseColor(w) case None => None case Some(m) => Some(ColorPick(m)))
  }

  /** The value of one setting. */
  datatype Value = FlagValue(on: bool) | CountValue(count: nat) | AmountValue(amount: real)
                 | ChoiceValue(pick: Pick) | RotationValue(vector: Position)

  function ValueOf(s: Settings, k: Key): Value {
    match k
    case FlagKey(f) => FlagValue(f in s.flags)
    case CountKey(n) => CountValue(CountOf(s.counts, n))
    case AmountKey(a) => AmountValue(AmountOf(s.amounts, a))
    case ChoiceKey(c) => ChoiceValue(Picked(s, c))
    case RotationKey => RotationValue(s.rotationVector)
  }

  /** The value a mention of `k` followed by the words `toks[1..]` stores:
      a flag is on exactly when the next word is `true`, a number is what
      the next word reads as, a listed-word setting takes the value its
      word names (none for a word off the list), and the rotation vector
      takes the next three words. */
  function Stored(k: Key, toks: seq<string>, ex: Extractors): Option<Value> {
    match k
    case FlagKey(_) => Some(FlagValue(Arg(toks, 1) == "true"))
    case CountKey(_) => Some(CountValue(ex.whole(Arg(toks, 1))))
    case AmountKey(_) => Some(AmountValue(ex.fraction(Arg(toks, 1))))
    case ChoiceKey(c) => (match Named(c, Arg(toks, 1)) case None => None case Some(p) => Some(ChoiceValue(p)))
    case RotationKey =>
      Some(RotationValue(Position(ex.fraction(Arg(toks, 1)), ex.fraction(Arg(toks, 2)), ex.fraction(Arg(toks, 3)))))
  }

  lemma CountOfSet(cs: Counts, n: Count, x: nat, m: Count)
    ensures CountOf(SetCount(cs, n, x), m) == if m == n then x else CountOf(cs, m)
  {
  }

  lemma AmountOfSet(am: Amounts, a: Amount, x: real, b: Amount)
    ensures AmountOf(SetAmount(am, a, x), b) == if b == a then x else AmountOf(am, b)
  {
    match a {
      case ScaleX => case ScaleY => case ScaleZ => case RSphere =>
      case RotationMagnitude => case Size => case Theta => case Dt =>
      case MinMass => case MaxMass => case MinVel => case MaxVel =>
      case Brightness => case Scale => case CollisionRange => case MinNodeSize =>
    }
  }

  lemma PickedSetChoice(s: Settings, c: Choice, w: string, d: Choice)
    requires SetChoice(s, c, w).Ok?
    ensures d == c ==> Named(c, w) == Some(Picked(SetChoice(s, c, w).value, d))
    ensures d != c ==> Picked(SetChoice(s, c, w).value, d) == Picked(s, d)
  {
  }

  /** One pass stores into the setting its first word names, as `Stored`
      says, and leaves every other setting alone. */
  lemma StepValue(s: Settings, toks: seq<string>, ex: Extractors, k: Key)
    requires |toks| > 0 && Step(s, toks, ex).Ok?
    ensures Keyword(toks[0]) == Some(k) ==> Stored(k, toks, ex) == Some(ValueOf(Step(s, toks, ex).value, k))
    ensures Keyword(toks[0]) != Some(k) ==> ValueOf(Step(s, toks, ex).value, k) == ValueOf(s, k)
  {
    var t := Step(s, toks, ex).value;
    match Keyword(toks[0]) {
      case None =>
      case Some(FlagKey(f)) =>
      case Some(ChoiceKey(c)) =>
        if k.ChoiceKey? {
          PickedSetChoice(s, c, Arg(toks, 1), k.choice);
        }
      case Some(CountKey(n)) =>
        if k.CountKey? {
          CountOfSet(s.counts, n, ex.whole(Arg(toks, 1)), k.count);
        }
      case Some(AmountKey(a)) =>
        if k.AmountKey? {
          AmountOfSet(s.amounts, a, ex.fraction(Arg(toks, 1)), k.amount);
        }
      case Some(RotationKey) =>
    }
  }

  /** Some pass of the loop over `toks` starts at a word naming `k`. Words
      read as values are not passes, so a value that happens to spell a
      setting's name does not count. */
  predicate Names(toks: seq<string>, k: Key)
    decreases |toks|
  {
    toks != [] && (Keyword(toks[0]) == Some(k) || Names(Rest(toks), k))
  }

  /** A setting no pass names keeps its value. */
  lemma {:induction false} KeyUntouched(s: Settings, toks: seq<string>, ex: Extractors, k: Key)
    requires !Names(toks, k) && Apply(s, toks, ex).Ok?
    ensures ValueOf(Apply(s, toks, ex).value, k) == ValueOf(s, k)
    decreases |toks|
  {
    if toks != [] {
      StepValue(s, toks, ex, k);
      KeyUntouched(Step(s, toks, ex).value, Rest(toks), ex, k);
    }
  }

  /** The last mention wins: when reading succeeds and no pass after the
      mention `[w] + args` names its setting again, the setting holds what
      that mention stores. For a listed-word setting this includes that
      the word was on its list. */
  lemma KeyFinal(s: Settings, pre: seq<string>, w: string, args: seq<string>, post: seq<string>,
                 ex: Extractors, k: Key)
    requires Aligned(pre) && Keyword(w) == Some(k) && |args| == Width(w) - 1
    requires !Names(post, k)
    requires Apply(s, pre + [w] + args + post, ex).Ok?
    ensures Stored(k, [w] + args, ex) == Some(ValueOf(Apply(s, pre + [w] + args + post, ex).value, k))
  {
    var m := [w] + args;
    assert pre + [w] + args + post == pre + (m + post);
    ApplyAppend(s, pre, m + post, ex);
    var s1 := Apply(s, pre, ex).value;
    MentionThenRest(s1, m, post, ex);
    StepValue(s1, m, ex, k);
    KeyUntouched(Step(s1, m, ex).value, post, ex, k);
  }

  /** A mention of exactly one pass's words is one pass; reading goes on
      after it. */
  lemma MentionThenRest(s: Settings, m: seq<string>, post: seq<string>, ex: Extractors)
    requires |m| > 0 && |m| == Width(m[0])
    ensures Step(s, m + post, ex) == Step(s, m, ex)
    ensures Rest(m + post) == post
  {
    StepPrefix(s, m, post, ex);
    assert m[Width(m[0])..] == [];
  }

  /** For example, a flag is on after reading exactly when the word after
      its last mention is `true`. */
  lemma FlagFinal(s: Settings, pre: seq<string>, w: string, t: string, post: seq<string>, ex: Extractors, f: Flag)
    requires Aligned(pre) && Keyword(w) == Some(FlagKey(f)) && !Names(post, FlagKey(f))
    requires Apply(s, pre + [w, t] + post, ex).Ok?
    ensures f in Apply(s, pre + [w, t] + post, ex).value.flags <==> t == "true"
  {
    assert pre + [w, t] + post == pre + [w] + [t] + post;
    KeyFinal(s, pre, w, [t], post, ex, FlagKey(f));
  }

  /** A listed-word setting followed by a word off its list stops the
      reading; one followed by a listed word stores it and reading goes on. */
  lemma ChoiceOnlyListed(s: Settings, w: string, t: string, rest: seq<string>, ex: Extractors, c: Choice)
    requires Keyword(w) == Some(ChoiceKey(c))
    ensures t !in Listed(c) ==> Apply(s, [w, t] + rest, ex) == Err(Rejected(c, t))
    ensures t in Listed(c) ==> Apply(s, [w, t] + rest, ex) == Apply(SetChoice(s, c, t).value, rest, ex)
  {
    assert ([w, t] + rest)[0] == w && Arg([w, t] + rest, 1) == t;
    assert ([w, t] + rest)[2..] == rest;
  }

  /** One pass of the reading loop at word `i`: compare the word with every
      setting's name and read the words that follow it, if it names one. */
  method ReadPass(cur: Settings, toks: seq<string>, i: nat, ex: Extractors) returns (next: Result<Settings, Failure>)
    requires i < |toks|
    ensures next == Step(cur, toks[i..], ex)
  {
    var w := toks[i];
    assert toks[i..][0] == w;
    assert forall k :: Arg(toks[i..], k) == Arg(toks, i + k);
    match Keyword(w) {
      case None =>
        next := Ok(cur);
      case Some(FlagKey(f)) =>
        next := Ok(cur.(flags := SetFlag(cur.flags, f, Arg(toks, i + 1) == "true")));
      case Some(ChoiceKey(c)) =>
        next := SetChoice(cur, c, Arg(toks, i + 1));
      case Some(CountKey(n)) =>
        next := Ok(cur.(counts := SetCount(cur.counts, n, ex.whole(Arg(toks, i + 1)))));
      case Some(AmountKey(a)) =>
        next := Ok(cur.(amounts := SetAmount(cur.amounts, a, ex.fraction(Arg(toks, i + 1)))));
      case Some(RotationKey) =>
        var x, y, z := ex.fraction(Arg(toks, i + 1)), ex.fraction(Arg(toks, i + 2)), ex.fraction(Arg(toks, i + 3));
        next := Ok(cur.(rotationVector := Position(x, y, z)));
    }
  }

  /** Where the pass at word `i` leaves the reading: the first word after
      the ones it consumed, or the end of the file. */
  function NextPass(toks: seq<string>, i: nat): (j: nat)
    requires i < |toks|
    ensures i < j <= |toks|
  {
    if i + Width(toks[i]) <= |toks| then i + Width(toks[i]) else |toks|
  }

  /** Reading from word `i` is one pass, then reading from where the pass
      left off, unless the pass fails. */
  lemma ApplyOnePass(cur: Settings, toks: seq<string>, i: nat, ex: Extractors)
    requires i < |toks|
    ensures Step(cur, toks[i..], ex).Err? ==> Apply(cur, toks[i..], ex) == Step(cur, toks[i..], ex)
    ensures Step(cur, toks[i..], ex).Ok? ==>
      Apply(cur, toks[i..], ex) == Apply(Step(cur, toks[i..], ex).value, toks[NextPass(toks, i)..], ex)
  {
    var rest := toks[i..];
    assert rest[0] == toks[i];
    if i + Width(toks[i]) <= |toks| {
      assert rest[Width(toks[i])..] == toks[NextPass(toks, i)..];
    } else {
      assert toks[NextPass(toks, i)..] == [];
    }
  }

  /** `read_settings` over the words of the file: the record the loop
      leaves, or the failure that stops it. */
  method ReadSettings(s: Settings, toks: seq<string>, ex: Extractors) returns (r: Result<Settings, Failure>)
    ensures r == Apply(s, toks, ex)
  {
    var cur := s;
    var i := 0;
    while i < |toks|
      invariant i <= |toks|
      invariant Apply(s, toks, ex) == Apply(cur, toks[i..], ex)
      decreases |toks| - i
    {
      var next := ReadPass(cur, toks, i, ex);
      ApplyOnePass(cur, toks, i, ex);
      if next.Err? {
        return next;
      }
      cur, i := next.value, NextPass(toks, i);
    }
    assert toks[i..] == [];
    return Ok(cur);
  }
}
