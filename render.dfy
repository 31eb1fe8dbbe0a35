/** The placement and accumulation stage of `write_image` (src/main.cpp):
    each particle's position is projected onto the image plane, zoomed,
    culled or clamped into the image, flipped for the isometric camera, and
    its brightness is added to the cell its coordinate truncates to, while a
    running maximum is kept. */
module Render {
  import opened Outcomes
  import opened Clamping
  import opened Particles

  datatype Projection = Front | Side | Top | Iso

  /** What placing a particle depends on: the camera, the image size, the
      configured zoom, and the value the math library returns for sqrt(3). */
  datatype View = View(projection: Projection, width: nat, height: nat, scale: real, root3: real)

  predicate Drawable(v: View) {
    v.width >= 1 && v.height >= 1
  }

  /** A cell of the accumulation grid, `temp[x][y]`. */
  datatype Cell = Cell(x: nat, y: nat)

  predicate InImage(c: Cell, v: View) {
    c.x < v.width && c.y < v.height
  }

  /** `n / 2` on an unsigned int, widened to floating point afterwards. */
  function Half(n: nat): real {
    (n / 2) as real
  }

  /** The coordinate of the camera before zooming. */
  function Base(p: Position, v: View): (real, real) {
    match v.projection
    case Front => (p.x + Half(v.width), p.z + Half(v.height))
    case Side => (p.y + Half(v.width), p.z + Half(v.height))
    case Top => (p.x + Half(v.width), p.y + Half(v.height))
    case Iso =>
      (((v.root3 / 2.0) * (p.x - p.y) + v.width as real) / 2.0,
       ((-0.5) * (p.x + p.y + 2.0 * p.z) + v.height as real) / 2.0)
  }

  /** The zoom in effect: the isometric camera doubles the configured scale. */
  function Zoom(v: View): real {
    if v.projection == Iso then v.scale * 2.0 else v.scale
  }

  /** The zoomed coordinate: each axis is stretched by the zoom about the
      (integer-halved) centre of the image. */
  function Project(p: Position, v: View): (xy: (real, real))
    ensures Zoom(v) == 1.0 ==> xy == Base(p, v)
    ensures var (xb, yb) := Base(p, v);
      (xb == Half(v.width) ==> xy.0 == xb) && (yb == Half(v.height) ==> xy.1 == yb)
  {
    var (xb, yb) := Base(p, v);
    var s := Zoom(v);
    (xb + (xb - Half(v.width)) * (s - 1.0), yb + (yb - Half(v.height)) * (s - 1.0))
  }

  /** The cull test of `write_image`. Both coordinates are compared with
      `img_w - 1`: the row is tested against the width, not the height. */
  predicate Culled(x: real, y: real, v: View) {
    x < 0.0 || y < 0.0 || x > (v.width - 1) as real || y > (v.width - 1) as real
  }

  /** Where a projected coordinate is deposited: nothing when culled,
      otherwise both coordinates are clamped into the image, the row is
      flipped for the isometric camera, and both are truncated to integers. */
  function Place(x: real, y: real, v: View): (r: Option<Cell>)
    requires Drawable(v)
    ensures r.Some? <==> !Culled(x, y, v)
    ensures r.Some? ==> InImage(r.value, v)
  {
    if Culled(x, y, v) then None
    else
      var cx := Clamp(0.0, x, (v.width - 1) as real);
      var cy := Clamp(0.0, y, (v.height - 1) as real);
      var fy := if v.projection == Iso then (v.height - 1) as real - cy else cy;
      Some(Cell(cx.Floor, fy.Floor))
  }

  /** The cell a particle lands in, if any. */
  function Landing(p: Particle, v: View): (r: Option<Cell>)
    requires Drawable(v)
    ensures r.Some? ==> InImage(r.value, v)
  {
    var (x, y) := Project(p.pos, v);
    Place(x, y, v)
  }

  /** A coordinate inside the square both tests admit lands in the cell it
      truncates to (with the row mirrored for the isometric camera). */
  lemma PlaceInside(x: real, y: real, v: View)
    requires Drawable(v)
    requires 0.0 <= x <= (v.width - 1) as real
    requires 0.0 <= y <= (v.width - 1) as real && y <= (v.height - 1) as real
    ensures v.projection != Iso ==> Place(x, y, v) == Some(Cell(x.Floor, y.Floor))
    ensures v.projection == Iso ==> Place(x, y, v) == Some(Cell(x.Floor, ((v.height - 1) as real - y).Floor))
  {
  }

  /** Consequence of the width-based row test, wide images: a coordinate
      below the last row but within `img_w - 1` is not culled; the clamp
      piles it onto the last row (the first row after the isometric flip). */
  lemma RowsBelowImagePileUp(x: real, y: real, v: View)
    requires Drawable(v) && v.height < v.width
    requires 0.0 <= x <= (v.width - 1) as real
    requires (v.height - 1) as real < y <= (v.width - 1) as real
    ensures v.projection != Iso ==> Place(x, y, v) == Some(Cell(x.Floor, v.height - 1))
    ensures v.projection == Iso ==> Place(x, y, v) == Some(Cell(x.Floor, 0))
  {
  }

  /** Consequence of the width-based row test, tall images: a coordinate on
      a row inside the image but past `img_w - 1` is culled. */
  lemma RowsPastWidthDropped(x: real, y: real, v: View)
    requires Drawable(v) && v.width < v.height
    requires 0.0 <= x <= (v.width - 1) as real
    requires (v.width - 1) as real < y <= (v.height - 1) as real
    ensures Place(x, y, v) == None
  {
  }

  /** The isometric camera puts the origin of a 100x100 image at (50, 50)
      before the flip, which moves it to row 49. */
  lemma IsoOrigin(root3: real)
    ensures Project(Position(0.0, 0.0, 0.0), View(Iso, 100, 100, 1.0, root3)) == (50.0, 50.0)
    ensures Landing(Particle(Position(0.0, 0.0, 0.0)), View(Iso, 100, 100, 1.0, root3)) == Some(Cell(50, 49))
  {
  }

  // ---------------------------------------------------------------------
  // The accumulation buffer, as a function of where the particles landed

  /** Taking the same element out of two sequences with the same elements
      leaves two sequences with the same elements. */
  lemma RemoveOne<A>(init: seq<A>, x: A, left: seq<A>, right: seq<A>)
    requires multiset(init + [x]) == multiset(left + [x] + right)
    ensures multiset(init) == multiset(left + right)
  {
    calc {
      multiset(init);
      multiset(init + [x]) - multiset{x};
      multiset(left + [x] + right) - multiset{x};
      multiset(left + right);
    }
  }

  /** `f` applied to every element of `s`. */
  function MapSeq<A, B>(s: seq<A>, f: A -> B): (r: seq<B>)
    ensures |r| == |s|
    decreases |s|
  {
    if s == [] then [] else MapSeq(s[..|s| - 1], f) + [f(s[|s| - 1])]
  }

  lemma {:induction false} MapSeqAt<A, B>(s: seq<A>, f: A -> B, i: nat)
    requires i < |s|
    ensures MapSeq(s, f)[i] == f(s[i])
    decreases |s|
  {
    if i < |s| - 1 {
      MapSeqAt(s[..|s| - 1], f, i);
    }
  }

  lemma {:induction false} MapAppend<A, B>(a: seq<A>, b: seq<A>, f: A -> B)
    ensures MapSeq(a + b, f) == MapSeq(a, f) + MapSeq(b, f)
  {
    forall i | 0 <= i < |a + b|
      ensures MapSeq(a + b, f)[i] == (MapSeq(a, f) + MapSeq(b, f))[i]
    {
      MapSeqAt(a + b, f, i);
      if i < |a| {
        MapSeqAt(a, f, i);
      } else {
        MapSeqAt(b, f, i - |a|);
      }
    }
  }

  lemma MapMiddle<A, B>(left: seq<A>, x: A, right: seq<A>, f: A -> B)
    ensures multiset(MapSeq(left + [x] + right, f)) == multiset(MapSeq(left + right, f)) + multiset{f(x)}
  {
    MapAppend(left + [x], right, f);
    MapAppend(left, [x], f);
    MapAppend(left, right, f);
    assert MapSeq([x], f) == [f(x)];
  }

  /** Mapping preserves "same elements, possibly reordered". */
  lemma {:induction false} MapPermutation<A, B>(s: seq<A>, t: seq<A>, f: A -> B)
    requires multiset(s) == multiset(t)
    ensures multiset(MapSeq(s, f)) == multiset(MapSeq(t, f))
    decreases |s|
  {
    if s == [] {
      assert |t| == |multiset(t)| == 0;
    } else {
      var n := |s| - 1;
      var last, init := s[n], s[..n];
      assert s == init + [last];
      assert last in multiset(t);
      var k :| 0 <= k < |t| && t[k] == last;
      var left, right := t[..k], t[k + 1..];
      assert t == left + [last] + right;
      RemoveOne(init, last, left, right);
      MapPermutation(init, left + right, f);
      MapMiddle(left, last, right, f);
      MapAppend(init, [last], f);
      assert MapSeq([last], f) == [f(last)];
    }
  }

  /** The landing cells of the particles, in visiting order. */
  function Landings(ps: seq<Particle>, v: View): (ls: seq<Option<Cell>>)
    requires Drawable(v)
  {
    MapSeq(ps, p => Landing(p, v))
  }

  /** The value of cell `c` after deposits at the landing cells `ls`, in
      order, into a zeroed buffer. */
  function Deposited(ls: seq<Option<Cell>>, brightness: real, c: Cell): real
    decreases |ls|
  {
    if ls == [] then 0.0
    else Deposited(ls[..|ls| - 1], brightness, c) + (if ls[|ls| - 1] == Some(c) then brightness else 0.0)
  }

  /** The number of deposits into `c`. */
  function Hits(ls: seq<Option<Cell>>, c: Cell): nat
    decreases |ls|
  {
    if ls == [] then 0
    else Hits(ls[..|ls| - 1], c) + (if ls[|ls| - 1] == Some(c) then 1 else 0)
  }

  /** The running maximum `max`: it starts at 0 and is raised to the value of
      the target cell whenever a deposit takes that cell above it. */
  function RunningPeak(ls: seq<Option<Cell>>, brightness: real): real
    decreases |ls|
  {
    if ls == [] then 0.0
    else
      var before := RunningPeak(ls[..|ls| - 1], brightness);
      match ls[|ls| - 1]
      case None => before
      case Some(c) =>
        var value := Deposited(ls, brightness, c);
        if value > before then value else before
  }

  /** A cell no particle landed in keeps the value 0. */
  lemma {:induction false} UntouchedStaysZero(ls: seq<Option<Cell>>, brightness: real, c: Cell)
    requires Some(c) !in ls
    ensures Deposited(ls, brightness, c) == 0.0
    decreases |ls|
  {
    if ls != [] {
      UntouchedStaysZero(ls[..|ls| - 1], brightness, c);
    }
  }

  /** Each cell holds the brightness times the number of particles landing
      in it. */
  lemma {:induction false} DepositedIsScaledHits(ls: seq<Option<Cell>>, brightness: real, c: Cell)
    ensures Deposited(ls, brightness, c) == brightness * Hits(ls, c) as real
    decreases |ls|
  {
    if ls != [] {
      var init := ls[..|ls| - 1];
      DepositedIsScaledHits(init, brightness, c);
      if ls[|ls| - 1] == Some(c) {
        calc {
          Deposited(ls, brightness, c);
          brightness * Hits(init, c) as real + brightness;
          brightness * (Hits(init, c) + 1) as real;
        }
      }
    }
  }

  lemma {:induction false} HitsAppend(a: seq<Option<Cell>>, b: seq<Option<Cell>>, c: Cell)
    ensures Hits(a + b, c) == Hits(a, c) + Hits(b, c)
    decreases |b|
  {
    if b == [] {
      assert a + b == a;
    } else {
      assert (a + b)[..|a + b| - 1] == a + b[..|b| - 1];
      HitsAppend(a, b[..|b| - 1], c);
    }
  }

  /** The visiting order does not matter: two sequences holding the same
      landing cells give every cell the same count. */
  lemma {:induction false} HitsPermutation(ls: seq<Option<Cell>>, ms: seq<Option<Cell>>, c: Cell)
    requires multiset(ls) == multiset(ms)
    ensures Hits(ls, c) == Hits(ms, c)
    decreases |ls|
  {
    if ls == [] {
      assert |ms| == |multiset(ms)| == 0;
    } else {
      var n := |ls| - 1;
      var last := ls[n];
      assert ls == ls[..n] + [last];
      assert last in multiset(ms);
      var k :| 0 <= k < |ms| && ms[k] == last;
      var rest := ms[..k] + ms[k + 1..];
      assert ms == ms[..k] + [last] + ms[k + 1..];
      RemoveOne(ls[..n], last, ms[..k], ms[k + 1..]);
      HitsPermutation(ls[..n], rest, c);
      HitsAppend(ms[..k] + [last], ms[k + 1..], c);
      HitsAppend(ms[..k], [last], c);
      HitsAppend(ms[..k], ms[k + 1..], c);
      assert [last][..0] == [];
    }
  }

  /** Cells hit equally often hold equal values. */
  lemma SameHitsSameValue(ls: seq<Option<Cell>>, ms: seq<Option<Cell>>, brightness: real, c: Cell)
    requires Hits(ls, c) == Hits(ms, c)
    ensures Deposited(ls, brightness, c) == Deposited(ms, brightness, c)
  {
    DepositedIsScaledHits(ls, brightness, c);
    DepositedIsScaledHits(ms, brightness, c);
  }

  /** Hence the deposits into a cell add up to the same value in any order. */
  lemma DepositedOrderFree(ls: seq<Option<Cell>>, ms: seq<Option<Cell>>, brightness: real, c: Cell)
    requires multiset(ls) == multiset(ms)
    ensures Deposited(ls, brightness, c) == Deposited(ms, brightness, c)
  {
    HitsPermutation(ls, ms, c);
    SameHitsSameValue(ls, ms, brightness, c);
  }

  /** The final buffer does not depend on the order in which the particle
      set is visited. */
  lemma DepositedPermutation(ps: seq<Particle>, qs: seq<Particle>, v: View, brightness: real, c: Cell)
    requires Drawable(v) && multiset(ps) == multiset(qs)
    ensures Deposited(Landings(ps, v), brightness, c) == Deposited(Landings(qs, v), brightness, c)
  {
    MapPermutation(ps, qs, p => Landing(p, v));
    DepositedOrderFree(Landings(ps, v), Landings(qs, v), brightness, c);
  }

  /** The running maximum is never negative, stays 0 when the brightness is
      not positive, and is at least the value of every cell. */
  lemma {:induction false} PeakBoundsCells(ls: seq<Option<Cell>>, brightness: real, c: Cell)
    ensures RunningPeak(ls, brightness) >= 0.0
    ensures brightness <= 0.0 ==> RunningPeak(ls, brightness) == 0.0
    ensures Deposited(ls, brightness, c) <= RunningPeak(ls, brightness)
    decreases |ls|
  {
    if ls != [] {
      var init := ls[..|ls| - 1];
      PeakBoundsCells(init, brightness, c);
      match ls[|ls| - 1]
      case None =>
      case Some(d) =>
        PeakBoundsCells(init, brightness, d);
    }
  }

  /** With a non-negative brightness the running maximum is 0 or the value
      of a cell some particle landed in. */
  lemma {:induction false} PeakAttained(ls: seq<Option<Cell>>, brightness: real)
    requires brightness >= 0.0
    ensures RunningPeak(ls, brightness) == 0.0 ||
            exists c :: Some(c) in ls && Deposited(ls, brightness, c) == RunningPeak(ls, brightness)
    decreases |ls|
  {
    if ls != [] {
      var init := ls[..|ls| - 1];
      PeakAttained(init, brightness);
      var before := RunningPeak(init, brightness);
      match ls[|ls| - 1]
      case None =>
        if before != 0.0 {
          var c :| Some(c) in init && Deposited(init, brightness, c) == before;
          assert Deposited(ls, brightness, c) == before;
        }
      case Some(d) =>
        var value := Deposited(ls, brightness, d);
        if value <= before && before != 0.0 {
          var c :| Some(c) in init && Deposited(init, brightness, c) == before;
          PeakBoundsCells(init, brightness, d);
          assert Deposited(ls, brightness, c) == before;
        }
    }
  }

  /** The running maximum does not depend on the order of the deposits:
      with a positive brightness it is the largest cell value (or 0), and
      otherwise it stays 0. */
  lemma PeakOrderFree(ls: seq<Option<Cell>>, ms: seq<Option<Cell>>, brightness: real)
    requires multiset(ls) == multiset(ms)
    ensures RunningPeak(ls, brightness) == RunningPeak(ms, brightness)
  {
    var p, q := RunningPeak(ls, brightness), RunningPeak(ms, brightness);
    PeakBoundsCells(ls, brightness, Cell(0, 0));
    PeakBoundsCells(ms, brightness, Cell(0, 0));
    if brightness > 0.0 {
      PeakAttained(ls, brightness);
      PeakAttained(ms, brightness);
      if p != 0.0 {
        var c :| Some(c) in ls && Deposited(ls, brightness, c) == p;
        DepositedOrderFree(ls, ms, brightness, c);
        PeakBoundsCells(ms, brightness, c);
      }
      if q != 0.0 {
        var c :| Some(c) in ms && Deposited(ms, brightness, c) == q;
        DepositedOrderFree(ms, ls, brightness, c);
        PeakBoundsCells(ls, brightness, c);
      }
    }
  }

  /** Visiting the particle set in another order gives the same maximum. */
  lemma PeakPermutation(ps: seq<Particle>, qs: seq<Particle>, v: View, brightness: real)
    requires Drawable(v) && multiset(ps) == multiset(qs)
    ensures RunningPeak(Landings(ps, v), brightness) == RunningPeak(Landings(qs, v), brightness)
  {
    MapPermutation(ps, qs, p => Landing(p, v));
    PeakOrderFree(Landings(ps, v), Landings(qs, v), brightness);
  }

  // ---------------------------------------------------------------------
  // The buffer itself

  /** `std::vector<std::vector<datatype>> temp(img_w, ...)` and the loops
      that set every cell to 0. */
  method ZeroGrid(width: nat, height: nat) returns (temp: array2<real>)
    ensures fresh(temp) && temp.Length0 == width && temp.Length1 == height
    ensures forall i, j :: 0 <= i < width && 0 <= j < height ==> temp[i, j] == 0.0
  {
    temp := new real[width, height];
    for i := 0 to width
      invariant forall a, b :: 0 <= a < i && 0 <= b < height ==> temp[a, b] == 0.0
    {
      for j := 0 to height
        invariant forall a, b :: 0 <= a < i && 0 <= b < height ==> temp[a, b] == 0.0
        invariant forall b :: 0 <= b < j ==> temp[i, b] == 0.0
      {
        temp[i, j] := 0.0;
      }
    }
  }

  /** One deposit: adds `amount` to the target cell, leaves every other cell
      alone, and raises the running maximum to the new value if it exceeds it. */
  method Deposit(temp: array2<real>, c: Cell, amount: real, peak: real) returns (newPeak: real)
    requires c.x < temp.Length0 && c.y < temp.Length1
    modifies temp
    ensures temp[c.x, c.y] == old(temp[c.x, c.y]) + amount
    ensures forall i, j :: 0 <= i < temp.Length0 && 0 <= j < temp.Length1 && (i, j) != (c.x, c.y) ==>
      temp[i, j] == old(temp[i, j])
    ensures newPeak == if temp[c.x, c.y] > peak then temp[c.x, c.y] else peak
  {
    temp[c.x, c.y] := temp[c.x, c.y] + amount;
    newPeak := peak;
    if temp[c.x, c.y] > newPeak {
      newPeak := temp[c.x, c.y];
    }
  }

  /** The particle loop of `write_image`: after it, every cell holds what the
      particles landing in it deposited, and `peak` is the running maximum. */
  method Accumulate(ps: seq<Particle>, v: View, brightness: real) returns (temp: array2<real>, peak: real)
    requires Drawable(v)
    ensures fresh(temp) && temp.Length0 == v.width && temp.Length1 == v.height
    ensures forall i, j :: 0 <= i < v.width && 0 <= j < v.height ==>
      temp[i, j] == Deposited(Landings(ps, v), brightness, Cell(i, j))
    ensures peak == RunningPeak(Landings(ps, v), brightness)
  {
    temp := ZeroGrid(v.width, v.height);
    peak := 0.0;
    for k := 0 to |ps|
      invariant forall i, j :: 0 <= i < v.width && 0 <= j < v.height ==>
        temp[i, j] == Deposited(Landings(ps[..k], v), brightness, Cell(i, j))
      invariant peak == RunningPeak(Landings(ps[..k], v), brightness)
    {
      assert ps[..k + 1][..k] == ps[..k];
      assert Landings(ps[..k + 1], v) == Landings(ps[..k], v) + [Landing(ps[k], v)];
      match Landing(ps[k], v)
      case None =>
      case Some(c) =>
        peak := Deposit(temp, c, brightness, peak);
    }
    assert ps[..|ps|] == ps;
  }
}
