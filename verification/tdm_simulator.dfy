/** The four-dimensional τ field stepper: a grid of `T` time slices of
    `X × Y × Z` points, the first slice a given fluctuation, each later
    interior point advanced by a weighted d'Alembertian minus a weighted
    potential force and clamped to [-10, 10]. */
module TdmSimulator {

  import opened Outcomes
  import opened Numerics

  /** Time step and spatial step of the finite differences. */
  const Dt: real := 0.001
  const Dx: real := 0.01

  /** Bound the stepper clamps every new field value to. */
  const FieldBound: real := 10.0

  /** Grid extents and coupling constants. */
  datatype FieldParams = FieldParams(
    t: int, x: int, y: int, z: int,
    mass: real, lambda: real, alpha: real, beta: real)

  const DefaultParams: FieldParams := FieldParams(30, 15, 15, 15, 0.1, 0.05, 0.01, 0.01)

  /** `np.zeros` refuses a negative extent; a grid with no time slice has
      no slice 0 to receive the initial fluctuation. */
  datatype FieldError = NegativeExtent | NoInitialSlice

  /** One time slice, indexed `[x][y][z]`. */
  type Grid = seq<seq<seq<real>>>

  /** The initial fluctuation, one value per spatial point. */
  type Fluctuation = (int, int, int) -> real

  /** The values the d'Alembertian reads around one point: the same point
      one slice later, now and one slice earlier, and its six spatial
      neighbours in the current slice. */
  datatype Stencil = Stencil(
    next: real, here: real, prev: real,
    xUp: real, xDown: real, yUp: real, yDown: real, zUp: real, zDown: real)

  function NegateStencil(s: Stencil): Stencil
  {
    Stencil(-s.next, -s.here, -s.prev, -s.xUp, -s.xDown, -s.yUp, -s.yDown, -s.zUp, -s.zDown)
  }

  /** All nine values equal. */
  predicate Uniform(s: Stencil, v: real)
  {
    s.next == v && s.here == v && s.prev == v && s.xUp == v && s.xDown == v
    && s.yUp == v && s.yDown == v && s.zUp == v && s.zDown == v
  }

  /** The d'Alembertian at `(t, x, y, z)`: second time difference minus the
      spatial Laplacian, where a spatial direction contributes only when the
      point is strictly inside the grid along it. Zero on the first and
      last time slices. */
  function DAlembertian(p: FieldParams, t: int, x: int, y: int, z: int, s: Stencil): (r: real)
    ensures t < 1 || t >= p.t - 1 ==> r == 0.0
  {
    if t < 1 || t >= p.t - 1 then 0.0
    else
      var d2t := (s.next - 2.0 * s.here + s.prev) / (Dt * Dt);
      var d2x := if 0 < x < p.x - 1 then (s.xUp - 2.0 * s.here + s.xDown) / (Dx * Dx) else 0.0;
      var d2y := if 0 < y < p.y - 1 then (s.yUp - 2.0 * s.here + s.yDown) / (Dx * Dx) else 0.0;
      var d2z := if 0 < z < p.z - 1 then (s.zUp - 2.0 * s.here + s.zDown) / (Dx * Dx) else 0.0;
      d2t - (d2x + d2y + d2z)
  }

  /** A field that is locally constant has no d'Alembertian. */
  lemma DAlembertianOfUniform(p: FieldParams, t: int, x: int, y: int, z: int, s: Stencil, v: real)
    requires Uniform(s, v)
    ensures DAlembertian(p, t, x, y, z, s) == 0.0
  {
  }

  /** The d'Alembertian is linear: reflecting the stencil reflects it. */
  lemma DAlembertianOfNegation(p: FieldParams, t: int, x: int, y: int, z: int, s: Stencil)
    ensures DAlembertian(p, t, x, y, z, NegateStencil(s)) == -DAlembertian(p, t, x, y, z, s)
  {
  }

  /** Along a direction in which the point sits on the grid's edge, the
      neighbours are not read. */
  lemma DAlembertianIgnoresEdgeNeighbours(p: FieldParams, t: int, x: int, y: int, z: int,
                                          s: Stencil, a: real, b: real)
    ensures !(0 < x < p.x - 1) ==>
      DAlembertian(p, t, x, y, z, s.(xUp := a, xDown := b)) == DAlembertian(p, t, x, y, z, s)
    ensures !(0 < y < p.y - 1) ==>
      DAlembertian(p, t, x, y, z, s.(yUp := a, yDown := b)) == DAlembertian(p, t, x, y, z, s)
    ensures !(0 < z < p.z - 1) ==>
      DAlembertian(p, t, x, y, z, s.(zUp := a, zDown := b)) == DAlembertian(p, t, x, y, z, s)
  {
  }

  /** The potential force `4 λ c³ - 2 m c` at the field value clamped to
      [-1, 1]. */
  function PotentialDerivative(p: FieldParams, v: real): (r: real)
    ensures v == 0.0 ==> r == 0.0
  {
    var c := Clip(v, -1.0, 1.0);
    4.0 * p.lambda * c * c * c - 2.0 * p.mass * c
  }

  /** The force is an odd function of the field value. */
  lemma PotentialDerivativeOfNegation(p: FieldParams, v: real)
    ensures PotentialDerivative(p, -v) == -PotentialDerivative(p, v)
  {
    assert Clip(-v, -1.0, 1.0) == -Clip(v, -1.0, 1.0);
  }

  /** Scaling a number in [-1, 1] by a non-negative factor `a` lands in
      [-a, a]. */
  lemma ScaleUnit(a: real, b: real)
    requires a >= 0.0 && -1.0 <= b <= 1.0
    ensures -a <= a * b <= a
  {
    if b >= 0.0 {
      assert a * b <= a * 1.0;
    } else {
      assert a * (-b) <= a * 1.0;
    }
  }

  /** The cube of a number in [-1, 1] stays in [-1, 1]. */
  lemma UnitCube(c: real)
    requires -1.0 <= c <= 1.0
    ensures -1.0 <= c * c * c <= 1.0
  {
    if c >= 0.0 {
      ScaleUnit(c, c);
    } else {
      ScaleUnit(-c, -c);
      assert (-c) * (-c) == c * c;
    }
    assert c * c >= 0.0;
    ScaleUnit(c * c, c);
  }

  /** Because the field value is clamped to [-1, 1] first, the force never
      exceeds `4 λ + 2 m` in magnitude, whatever the field value. */
  lemma PotentialDerivativeBound(p: FieldParams, v: real)
    requires p.lambda >= 0.0 && p.mass >= 0.0
    ensures Abs(PotentialDerivative(p, v)) <= 4.0 * p.lambda + 2.0 * p.mass
  {
    var c := Clip(v, -1.0, 1.0);
    UnitCube(c);
    var cube := c * c * c;
    assert 4.0 * p.lambda * c * c * c == (4.0 * p.lambda) * cube;
    ScaleUnit(4.0 * p.lambda, cube);
    ScaleUnit(2.0 * p.mass, c);
    var u, w := (4.0 * p.lambda) * cube, (2.0 * p.mass) * c;
    assert PotentialDerivative(p, v) == u - w;
    DifferenceBound(u, w, 4.0 * p.lambda, 2.0 * p.mass);
  }

  lemma DifferenceBound(u: real, w: real, a: real, b: real)
    requires -a <= u <= a && -b <= w <= b
    ensures Abs(u - w) <= a + b
  {
  }

  /** Beyond the clamp the force no longer grows. */
  lemma PotentialDerivativeSaturates(p: FieldParams, v: real)
    ensures v >= 1.0 ==> PotentialDerivative(p, v) == PotentialDerivative(p, 1.0)
    ensures v <= -1.0 ==> PotentialDerivative(p, v) == PotentialDerivative(p, -1.0)
  {
  }

  /** The unclamped update `here + α □ - β V'`. */
  function Update(p: FieldParams, here: real, box: real, force: real): (r: real)
    ensures box == 0.0 && force == 0.0 ==> r == here
  {
    here + p.alpha * box - p.beta * force
  }

  /** The clamped new value of a point from its current value and its
      d'Alembertian. */
  function StepValue(p: FieldParams, here: real, box: real): (r: real)
    ensures -FieldBound <= r <= FieldBound
  {
    Clip(Update(p, here, box, PotentialDerivative(p, here)), -FieldBound, FieldBound)
  }

  /** A point at rest with no d'Alembertian stays at rest. */
  lemma StepValueAtRest(p: FieldParams)
    ensures StepValue(p, 0.0, 0.0) == 0.0
  {
    assert Update(p, 0.0, 0.0, 0.0) == 0.0;
  }

  /** The step commutes with reflecting the field. */
  lemma StepValueOfNegation(p: FieldParams, here: real, box: real)
    ensures StepValue(p, -here, -box) == -StepValue(p, here, box)
  {
    PotentialDerivativeOfNegation(p, here);
    var force := PotentialDerivative(p, here);
    var push, pull := p.alpha * box, p.beta * force;
    assert p.alpha * (-box) == -push && p.beta * (-force) == -pull;
    assert Update(p, here, box, force) == here + push - pull;
    assert Update(p, -here, -box, -force) == -here - push + pull;
    ClipOdd(Update(p, here, box, force), FieldBound);
  }

  /** The points the main loop updates: strictly inside the grid in every
      spatial direction. */
  predicate Interior(p: FieldParams, x: int, y: int, z: int)
  {
    1 <= x < p.x - 1 && 1 <= y < p.y - 1 && 1 <= z < p.z - 1
  }

  /** Reference definition of the value the stepper leaves at each point.
      Slice 0 is the fluctuation. Slice 1 and every edge point of later
      slices are never written and stay 0. Every other point is one step
      from the slice before, with the d'Alembertian reading the slice two
      back as `prev` and 0 as `next`: at that moment the point's own future
      value has not been written yet. */
  function Field(p: FieldParams, init: Fluctuation, t: nat, x: int, y: int, z: int): (r: real)
    ensures t >= 1 ==> -FieldBound <= r <= FieldBound
    decreases 2 * t + 1
  {
    if t == 0 then init(x, y, z)
    else if t == 1 || !Interior(p, x, y, z) then 0.0
    else
      var s := FieldStencil(p, init, t - 1, x, y, z);
      StepValue(p, s.here, DAlembertian(p, t - 1, x, y, z, s))
  }

  /** The stencil the reference field reads at `(t, x, y, z)` when it
      computes slice `t + 1`: 0 one slice ahead, slices `t` and `t - 1`
      otherwise. */
  function FieldStencil(p: FieldParams, init: Fluctuation, t: nat, x: int, y: int, z: int): Stencil
    requires t >= 1
    decreases 2 * t + 2
  {
    Stencil(0.0, Field(p, init, t, x, y, z), Field(p, init, t - 1, x, y, z),
            Field(p, init, t, x + 1, y, z), Field(p, init, t, x - 1, y, z),
            Field(p, init, t, x, y + 1, z), Field(p, init, t, x, y - 1, z),
            Field(p, init, t, x, y, z + 1), Field(p, init, t, x, y, z - 1))
  }

  /** The fluctuation reflected about 0. */
  function Reflect(init: Fluctuation): Fluctuation
  {
    (x: int, y: int, z: int) => -init(x, y, z)
  }

  /** One reflection step: if the field reflects on slices `u - 1` and
      `u`, it reflects on slice `u + 1`. */
  lemma ReflectionStep(p: FieldParams, init: Fluctuation, u: nat, x: int, y: int, z: int)
    requires u >= 1 && Interior(p, x, y, z)
    requires forall i, j, k :: Field(p, Reflect(init), u, i, j, k) == -Field(p, init, u, i, j, k)
    requires Field(p, Reflect(init), u - 1, x, y, z) == -Field(p, init, u - 1, x, y, z)
    ensures Field(p, Reflect(init), u + 1, x, y, z) == -Field(p, init, u + 1, x, y, z)
  {
    var s := FieldStencil(p, init, u, x, y, z);
    assert FieldStencil(p, Reflect(init), u, x, y, z) == NegateStencil(s);
    assert Field(p, init, u + 1, x, y, z) == StepValue(p, s.here, DAlembertian(p, u, x, y, z, s));
    DAlembertianOfNegation(p, u, x, y, z, s);
    StepValueOfNegation(p, s.here, DAlembertian(p, u, x, y, z, s));
  }

  /** The field has no preferred sign: reflecting the initial fluctuation
      reflects the whole field, because the d'Alembertian is linear, the
      force is odd and the clamp is symmetric. */
  lemma {:induction false} FieldOfReflection(p: FieldParams, init: Fluctuation, t: nat, x: int, y: int, z: int)
    ensures Field(p, Reflect(init), t, x, y, z) == -Field(p, init, t, x, y, z)
    decreases t
  {
    if t >= 2 && Interior(p, x, y, z) {
      var u: nat := t - 1;
      forall i, j, k
        ensures Field(p, Reflect(init), u, i, j, k) == -Field(p, init, u, i, j, k)
      {
        FieldOfReflection(p, init, u, i, j, k);
      }
      FieldOfReflection(p, init, t - 2, x, y, z);
      ReflectionStep(p, init, u, x, y, z);
    }
  }

  /** One step at rest: a point whose stencil is at rest stays at rest. */
  lemma RestStep(p: FieldParams, init: Fluctuation, u: nat, x: int, y: int, z: int)
    requires u >= 1 && Interior(p, x, y, z)
    requires forall i, j, k :: Field(p, init, u, i, j, k) == 0.0
    requires Field(p, init, u - 1, x, y, z) == 0.0
    ensures Field(p, init, u + 1, x, y, z) == 0.0
  {
    var s := FieldStencil(p, init, u, x, y, z);
    assert s.here == Field(p, init, u, x, y, z) == 0.0;
    assert s.xUp == Field(p, init, u, x + 1, y, z) == 0.0;
    assert s.xDown == Field(p, init, u, x - 1, y, z) == 0.0;
    assert s.yUp == Field(p, init, u, x, y + 1, z) == 0.0;
    assert s.yDown == Field(p, init, u, x, y - 1, z) == 0.0;
    assert s.zUp == Field(p, init, u, x, y, z + 1) == 0.0;
    assert s.zDown == Field(p, init, u, x, y, z - 1) == 0.0;
    DAlembertianOfUniform(p, u, x, y, z, s, 0.0);
    StepValueAtRest(p);
  }

  /** A field that starts at rest stays at rest. */
  lemma {:induction false} FieldAtRest(p: FieldParams, init: Fluctuation, t: nat, x: int, y: int, z: int)
    requires forall i, j, k :: init(i, j, k) == 0.0
    ensures Field(p, init, t, x, y, z) == 0.0
    decreases t
  {
    if t >= 2 && Interior(p, x, y, z) {
      var u: nat := t - 1;
      forall i, j, k
        ensures Field(p, init, u, i, j, k) == 0.0
      {
        FieldAtRest(p, init, u, i, j, k);
      }
      FieldAtRest(p, init, t - 2, x, y, z);
      RestStep(p, init, u, x, y, z);
    }
  }

  predicate NonNegativeExtents(p: FieldParams)
  {
    p.t >= 0 && p.x >= 0 && p.y >= 0 && p.z >= 0
  }

  /** `g` has the spatial extents `X × Y × Z`. */
  predicate Shaped(p: FieldParams, g: Grid)
  {
    |g| == p.x
    && (forall a :: 0 <= a < p.x ==> |g[a]| == p.y)
    && (forall a, b :: 0 <= a < p.x && 0 <= b < p.y ==> |g[a][b]| == p.z)
  }

  /** Two slices of the same extents that agree at every point are equal. */
  lemma GridsEqual(p: FieldParams, g: Grid, h: Grid)
    requires Shaped(p, g) && Shaped(p, h)
    requires forall a, b, c :: 0 <= a < p.x && 0 <= b < p.y && 0 <= c < p.z ==> g[a][b][c] == h[a][b][c]
    ensures g == h
  {
    forall a | 0 <= a < p.x
      ensures g[a] == h[a]
    {
      forall b | 0 <= b < p.y
        ensures g[a][b] == h[a][b]
      {
        assert |g[a][b]| == |h[a][b]| == p.z;
      }
    }
  }

  /** Slice `t` of the reference field. */
  function FieldSlice(p: FieldParams, init: Fluctuation, t: nat): (g: Grid)
    requires NonNegativeExtents(p)
    ensures Shaped(p, g)
  {
    seq(p.x, x requires 0 <= x < p.x =>
      seq(p.y, y requires 0 <= y < p.y =>
        seq(p.z, z requires 0 <= z < p.z => Field(p, init, t, x, y, z))))
  }

  /** A slice of zeros, as `np.zeros` allocates it. */
  function ZeroSlice(p: FieldParams): (g: Grid)
    requires NonNegativeExtents(p)
    ensures Shaped(p, g)
    ensures forall a, b, c :: 0 <= a < p.x && 0 <= b < p.y && 0 <= c < p.z ==> g[a][b][c] == 0.0
  {
    seq(p.x, x requires 0 <= x < p.x => seq(p.y, y requires 0 <= y < p.y => seq(p.z, z requires 0 <= z < p.z => 0.0)))
  }

  /** Slice 1 is never written. */
  lemma SliceOneIsZero(p: FieldParams, init: Fluctuation)
    requires NonNegativeExtents(p)
    ensures FieldSlice(p, init, 1) == ZeroSlice(p)
  {
    forall x | 0 <= x < p.x
      ensures FieldSlice(p, init, 1)[x] == ZeroSlice(p)[x]
    {
      forall y | 0 <= y < p.y
        ensures FieldSlice(p, init, 1)[x][y] == ZeroSlice(p)[x][y]
      {
        forall z | 0 <= z < p.z
          ensures FieldSlice(p, init, 1)[x][y][z] == ZeroSlice(p)[x][y][z]
        {
          assert FieldSlice(p, init, 1)[x][y][z] == Field(p, init, 1, x, y, z);
        }
      }
    }
  }

  /** The assignment `tau[t+1, x, y, z] = v` on one slice: the point
      `(x, y, z)` takes the value `v` and every other point keeps its own. */
  function Put(g: Grid, x: int, y: int, z: int, v: real): (r: Grid)
    requires 0 <= x < |g| && 0 <= y < |g[x]| && 0 <= z < |g[x][y]|
    ensures |r| == |g|
    ensures forall a :: 0 <= a < |g| ==> |r[a]| == |g[a]|
    ensures forall a, b :: 0 <= a < |g| && 0 <= b < |g[a]| ==> |r[a][b]| == |g[a][b]|
    ensures forall a, b, c :: 0 <= a < |g| && 0 <= b < |g[a]| && 0 <= c < |g[a][b]| ==>
      r[a][b][c] == (if a == x && b == y && c == z then v else g[a][b][c])
  {
    g[x := g[x][y := g[x][y][z := v]]]
  }

  /** `(a, b, c)` is a point the loops visit, and they visit it before
      `(x, y, z)`: x outermost, z innermost. */
  predicate Swept(p: FieldParams, a: int, b: int, c: int, x: int, y: int, z: int)
  {
    Interior(p, a, b, c) && (a < x || (a == x && (b < y || (b == y && c < z))))
  }

  /** Slice `t + 1` as the loops leave it just before they visit
      `(x, y, z)`: the points already visited hold the reference field, all
      others still hold the zero they were allocated with. */
  function Partial(p: FieldParams, init: Fluctuation, t: nat, x: int, y: int, z: int): (g: Grid)
    requires NonNegativeExtents(p)
    ensures Shaped(p, g)
  {
    seq(p.x, a requires 0 <= a < p.x =>
      seq(p.y, b requires 0 <= b < p.y =>
        seq(p.z, c requires 0 <= c < p.z =>
          if Swept(p, a, b, c, x, y, z) then Field(p, init, t + 1, a, b, c) else 0.0)))
  }

  /** Before the first interior point nothing has been written. */
  lemma PartialAtStart(p: FieldParams, init: Fluctuation, t: nat)
    requires NonNegativeExtents(p)
    ensures Partial(p, init, t, 1, 1, 1) == ZeroSlice(p)
  {
    GridsEqual(p, Partial(p, init, t, 1, 1, 1), ZeroSlice(p));
  }

  /** Writing the reference value at the point being visited moves the
      sweep one point on. */
  lemma PartialStep(p: FieldParams, init: Fluctuation, t: nat, x: int, y: int, z: int)
    requires NonNegativeExtents(p) && Interior(p, x, y, z)
    ensures Put(Partial(p, init, t, x, y, z), x, y, z, Field(p, init, t + 1, x, y, z))
         == Partial(p, init, t, x, y, z + 1)
  {
    var g := Partial(p, init, t, x, y, z);
    var h := Put(g, x, y, z, Field(p, init, t + 1, x, y, z));
    GridsEqual(p, h, Partial(p, init, t, x, y, z + 1));
  }

  /** The end of a row is the start of the next one. */
  lemma PartialRowDone(p: FieldParams, init: Fluctuation, t: nat, x: int, y: int, z: int)
    requires NonNegativeExtents(p) && z >= p.z - 1
    ensures Partial(p, init, t, x, y, z) == Partial(p, init, t, x, y + 1, 1)
  {
    GridsEqual(p, Partial(p, init, t, x, y, z), Partial(p, init, t, x, y + 1, 1));
  }

  /** The end of a plane is the start of the next one. */
  lemma PartialPlaneDone(p: FieldParams, init: Fluctuation, t: nat, x: int, y: int)
    requires NonNegativeExtents(p) && y >= p.y - 1
    ensures Partial(p, init, t, x, y, 1) == Partial(p, init, t, x + 1, 1, 1)
  {
    GridsEqual(p, Partial(p, init, t, x, y, 1), Partial(p, init, t, x + 1, 1, 1));
  }

  /** Once every interior point is visited the slice is the reference
      slice: its edge points hold 0, which is the reference value there. */
  lemma PartialSliceDone(p: FieldParams, init: Fluctuation, t: nat, x: int)
    requires NonNegativeExtents(p) && x >= p.x - 1
    ensures Partial(p, init, t, x, 1, 1) == FieldSlice(p, init, t + 1)
  {
    GridsEqual(p, Partial(p, init, t, x, 1, 1), FieldSlice(p, init, t + 1));
  }

  /** While the loops are at `(x, y, z)`, the value one slice ahead that the
      d'Alembertian reads there has not been written yet. */
  lemma NextReadIsUnwritten(p: FieldParams, init: Fluctuation, g: Grid, t: nat, x: int, y: int, z: int)
    requires NonNegativeExtents(p) && Interior(p, x, y, z)
    requires g == Partial(p, init, t, x, y, z)
    ensures g[x][y][z] == 0.0
  {
  }

  /** The stencil at `(t, x, y, z)` as the loop reads it from the grid,
      including the value one slice ahead. */
  function StencilAt(p: FieldParams, tau: seq<Grid>, t: int, x: int, y: int, z: int): Stencil
    requires 1 <= t && t + 1 < |tau| && Interior(p, x, y, z)
    requires Shaped(p, tau[t - 1]) && Shaped(p, tau[t]) && Shaped(p, tau[t + 1])
  {
    Stencil(tau[t + 1][x][y][z], tau[t][x][y][z], tau[t - 1][x][y][z],
            tau[t][x + 1][y][z], tau[t][x - 1][y][z],
            tau[t][x][y + 1][z], tau[t][x][y - 1][z],
            tau[t][x][y][z + 1], tau[t][x][y][z - 1])
  }

  /** Writing any other point of slice `t + 1` does not change the stencil
      at `(t, x, y, z)`: the only point of that slice it reads is its own.
      So the value computed at a point does not depend on which other
      points of the slice were written before it, and the order in which
      the loops visit a slice does not matter. */
  lemma WriteElsewhereIsInvisible(p: FieldParams, tau: seq<Grid>, t: int, x: int, y: int, z: int,
                                  a: int, b: int, c: int, v: real)
    requires 1 <= t && t + 1 < |tau| && Interior(p, x, y, z)
    requires Shaped(p, tau[t - 1]) && Shaped(p, tau[t]) && Shaped(p, tau[t + 1])
    requires 0 <= a < p.x && 0 <= b < p.y && 0 <= c < p.z
    requires a != x || b != y || c != z
    ensures Shaped(p, Put(tau[t + 1], a, b, c, v))
    ensures StencilAt(p, tau[t + 1 := Put(tau[t + 1], a, b, c, v)], t, x, y, z) == StencilAt(p, tau, t, x, y, z)
  {
  }

  /** A point of a stored slice that holds the reference field. */
  lemma FieldSliceAt(p: FieldParams, init: Fluctuation, tau: seq<Grid>, k: nat, x: int, y: int, z: int)
    requires NonNegativeExtents(p)
    requires k < |tau| && tau[k] == FieldSlice(p, init, k)
    requires 0 <= x < p.x && 0 <= y < p.y && 0 <= z < p.z
    ensures |tau[k][x]| == p.y && |tau[k][x][y]| == p.z
    ensures tau[k][x][y][z] == Field(p, init, k, x, y, z)
  {
  }

  /** What the loop reads is the reference field's stencil, provided the
      point one slice ahead is still unwritten. */
  lemma StencilAtIsReference(p: FieldParams, init: Fluctuation, tau: seq<Grid>, t: nat, x: int, y: int, z: int)
    requires NonNegativeExtents(p) && 1 <= t && t + 1 < |tau| && Interior(p, x, y, z)
    requires tau[t - 1] == FieldSlice(p, init, t - 1) && tau[t] == FieldSlice(p, init, t)
    requires Shaped(p, tau[t + 1]) && tau[t + 1][x][y][z] == 0.0
    ensures StencilAt(p, tau, t, x, y, z) == FieldStencil(p, init, t, x, y, z)
  {
    var a, b := StencilAt(p, tau, t, x, y, z), FieldStencil(p, init, t, x, y, z);
    assert a.next == b.next;
    FieldSliceAt(p, init, tau, t, x, y, z);
    assert a.here == b.here;
    FieldSliceAt(p, init, tau, t - 1, x, y, z);
    assert a.prev == b.prev;
    FieldSliceAt(p, init, tau, t, x + 1, y, z);
    assert a.xUp == b.xUp;
    FieldSliceAt(p, init, tau, t, x - 1, y, z);
    assert a.xDown == b.xDown;
    FieldSliceAt(p, init, tau, t, x, y + 1, z);
    assert a.yUp == b.yUp;
    FieldSliceAt(p, init, tau, t, x, y - 1, z);
    assert a.yDown == b.yDown;
    FieldSliceAt(p, init, tau, t, x, y, z + 1);
    assert a.zUp == b.zUp;
    FieldSliceAt(p, init, tau, t, x, y, z - 1);
    assert a.zDown == b.zDown;
  }

  /** The value the loop writes at an interior point is the reference
      field one slice ahead. */
  lemma InteriorStepIsField(p: FieldParams, init: Fluctuation, tau: seq<Grid>, t: nat, x: int, y: int, z: int)
    requires NonNegativeExtents(p) && 1 <= t && t + 1 < |tau| && Interior(p, x, y, z)
    requires tau[t - 1] == FieldSlice(p, init, t - 1) && tau[t] == FieldSlice(p, init, t)
    requires Shaped(p, tau[t + 1]) && tau[t + 1][x][y][z] == 0.0
    ensures StepValue(p, tau[t][x][y][z], DAlembertian(p, t, x, y, z, StencilAt(p, tau, t, x, y, z)))
         == Field(p, init, t + 1, x, y, z)
  {
    StencilAtIsReference(p, init, tau, t, x, y, z);
    FieldSliceAt(p, init, tau, t, x, y, z);
  }

  /** What the sweep of slice `t + 1` relies on: slices `t - 1` and `t`
      hold the reference field. */
  predicate Settled(p: FieldParams, init: Fluctuation, tau: seq<Grid>, t: int)
    requires NonNegativeExtents(p)
  {
    1 <= t < p.t - 1 && |tau| == p.t
    && tau[t - 1] == FieldSlice(p, init, t - 1)
    && tau[t] == FieldSlice(p, init, t)
  }

  /** The body of the innermost loop: the new value of `(x, y, z)` in
      slice `t + 1`, read off the grid as it stands. */
  method StepPoint(p: FieldParams, init: Fluctuation, tau: seq<Grid>, t: int, x: int, y: int, z: int)
    returns (v: real)
    requires NonNegativeExtents(p) && Settled(p, init, tau, t) && Interior(p, x, y, z)
    requires Shaped(p, tau[t + 1]) && tau[t + 1][x][y][z] == 0.0
    ensures v == Field(p, init, t + 1, x, y, z)
  {
    InteriorStepIsField(p, init, tau, t, x, y, z);
    var here := tau[t][x][y][z];
    var box := DAlembertian(p, t, x, y, z, StencilAt(p, tau, t, x, y, z));
    var force := PotentialDerivative(p, here);
    v := Clip(Update(p, here, box, force), -FieldBound, FieldBound);
  }

  /** The innermost loop, `z` from 1 to `Z - 2`: each point of row
      `(t + 1, x, y, ·)` is computed from the grid as it stands and written
      into it at once. */
  method StepRow(p: FieldParams, init: Fluctuation, tau: seq<Grid>, t: int, x: int, y: int)
    returns (r: seq<Grid>)
    requires NonNegativeExtents(p) && Settled(p, init, tau, t)
    requires 1 <= x < p.x - 1 && 1 <= y < p.y - 1
    requires tau[t + 1] == Partial(p, init, t, x, y, 1)
    ensures |r| == |tau| && r[t + 1] == Partial(p, init, t, x, y + 1, 1)
    ensures forall k :: 0 <= k < |tau| && k != t + 1 ==> r[k] == tau[k]
  {
    r := tau;
    var z := 1;
    while z < p.z - 1
      invariant 1 <= z && (z <= p.z - 1 || z == 1)
      invariant |r| == |tau| && forall k :: 0 <= k < |tau| && k != t + 1 ==> r[k] == tau[k]
      invariant r[t + 1] == Partial(p, init, t, x, y, z)
    {
      NextReadIsUnwritten(p, init, r[t + 1], t, x, y, z);
      var v := StepPoint(p, init, r, t, x, y, z);
      PartialStep(p, init, t, x, y, z);
      r := r[t + 1 := Put(r[t + 1], x, y, z, v)];
      z := z + 1;
    }
    PartialRowDone(p, init, t, x, y, z);
  }

  /** The middle loop, `y` from 1 to `Y - 2`. */
  method StepPlane(p: FieldParams, init: Fluctuation, tau: seq<Grid>, t: int, x: int)
    returns (r: seq<Grid>)
    requires NonNegativeExtents(p) && Settled(p, init, tau, t)
    requires 1 <= x < p.x - 1
    requires tau[t + 1] == Partial(p, init, t, x, 1, 1)
    ensures |r| == |tau| && r[t + 1] == Partial(p, init, t, x + 1, 1, 1)
    ensures forall k :: 0 <= k < |tau| && k != t + 1 ==> r[k] == tau[k]
  {
    r := tau;
    var y := 1;
    while y < p.y - 1
      invariant 1 <= y && (y <= p.y - 1 || y == 1)
      invariant |r| == |tau| && forall k :: 0 <= k < |tau| && k != t + 1 ==> r[k] == tau[k]
      invariant r[t + 1] == Partial(p, init, t, x, y, 1)
    {
      r := StepRow(p, init, r, t, x, y);
      y := y + 1;
    }
    PartialPlaneDone(p, init, t, x, y);
  }

  /** The outer spatial loop, `x` from 1 to `X - 2`: slice `t + 1`, starting
      from zeros, computed in place from slices `t - 1` and `t`. */
  method StepSlice(p: FieldParams, init: Fluctuation, tau: seq<Grid>, t: int)
    returns (r: seq<Grid>)
    requires NonNegativeExtents(p) && Settled(p, init, tau, t)
    requires tau[t + 1] == ZeroSlice(p)
    ensures |r| == |tau| && r[t + 1] == FieldSlice(p, init, t + 1)
    ensures forall k :: 0 <= k < |tau| && k != t + 1 ==> r[k] == tau[k]
  {
    PartialAtStart(p, init, t);
    r := tau;
    var x := 1;
    while x < p.x - 1
      invariant 1 <= x && (x <= p.x - 1 || x == 1)
      invariant |r| == |tau| && forall k :: 0 <= k < |tau| && k != t + 1 ==> r[k] == tau[k]
      invariant r[t + 1] == Partial(p, init, t, x, 1, 1)
    {
      r := StepPlane(p, init, r, t, x);
      x := x + 1;
    }
    PartialSliceDone(p, init, t, x);
  }

  /** Allocates the grid, seeds slice 0 with the fluctuation `init` and
      steps every interior point of slices 2 to `T - 1` in time order. */
  method SimulateTdmField4D(p: FieldParams, init: Fluctuation) returns (r: Result<seq<Grid>, FieldError>)
    ensures r == Err(NegativeExtent) <==> !NonNegativeExtents(p)
    ensures r == Err(NoInitialSlice) <==> NonNegativeExtents(p) && p.t == 0
    ensures r.Ok? ==> NonNegativeExtents(p) && |r.value| == p.t
    ensures r.Ok? ==> forall t :: 0 <= t < p.t ==> r.value[t] == FieldSlice(p, init, t)
  {
    if !NonNegativeExtents(p) {
      return Err(NegativeExtent);
    }
    if p.t == 0 {
      return Err(NoInitialSlice);
    }
    var tau := seq(p.t, k => ZeroSlice(p));
    tau := tau[0 := FieldSlice(p, init, 0)];
    SliceOneIsZero(p, init);
    var t := 1;
    while t < p.t - 1
      invariant 1 <= t && (t <= p.t - 1 || t == 1)
      invariant |tau| == p.t
      invariant forall k :: 0 <= k <= t && k < p.t ==> tau[k] == FieldSlice(p, init, k)
      invariant forall k :: t < k < p.t ==> tau[k] == ZeroSlice(p)
    {
      tau := StepSlice(p, init, tau, t);
      t := t + 1;
    }
    return Ok(tau);
  }

  /** With the default couplings the force never exceeds 0.4 in magnitude. */
  lemma DefaultForceBound(v: real)
    ensures NonNegativeExtents(DefaultParams)
    ensures Abs(PotentialDerivative(DefaultParams, v)) <= 0.4
  {
    PotentialDerivativeBound(DefaultParams, v);
  }
}
