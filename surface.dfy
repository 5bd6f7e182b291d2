/** Which elements of a tube lie on its inner or outer wall, and their normals:
    `Tube.surface_elements` in srlife/receiver.py.

    Elements are flattened in numpy's row-major order over (radial, theta, axial)
    element counts: (nr - 1, 1, 1) in 1D, (nr - 1, nt, 1) in 2D and
    (nr - 1, nt, nz - 1) in 3D. */
module Surface {

  /** A surface normal. `Outward(j)` is (cos t_j, sin t_j, 0) and `Inward(j)` its
      negation, where t_j is entry j of `np.linspace(0, 2 * np.pi, nt)`; in 1D
      j is always 0, so these are exactly [1, 0, 0] and [-1, 0, 0]. */
  datatype Normal = Zero | Inward(theta: nat) | Outward(theta: nat)

  /** Element counts in the radial, circumferential and axial directions. */
  datatype Grid = Grid(nrad: nat, ntheta: nat, naxial: nat)

  function Size(g: Grid): nat {
    g.nrad * g.ntheta * g.naxial
  }

  /** The element grid of a tube of dimension `ndim` with nr, nt, nz nodes. */
  function ElementGrid(ndim: nat, nr: nat, nt: nat, nz: nat): Grid
    requires 1 <= ndim <= 3 && nr >= 1 && (ndim == 3 ==> nz >= 1)
  {
    if ndim == 1 then Grid(nr - 1, 1, 1)
    else if ndim == 2 then Grid(nr - 1, nt, 1)
    else Grid(nr - 1, nt, nz - 1)
  }

  /** The radial index of flattened element e. */
  function RadialIndex(e: nat, g: Grid): nat {
    if g.ntheta == 0 || g.naxial == 0 then 0 else (e / g.naxial) / g.ntheta
  }

  /** The circumferential index of flattened element e. */
  function ThetaIndex(e: nat, g: Grid): nat {
    if g.ntheta == 0 || g.naxial == 0 then 0 else (e / g.naxial) % g.ntheta
  }

  /** An element is on the surface when it is in the innermost or outermost layer. */
  predicate OnSurface(e: nat, g: Grid) {
    RadialIndex(e, g) == 0 || RadialIndex(e, g) == g.nrad - 1
  }

  function Facing(outward: bool, j: nat): Normal {
    if outward then Outward(j) else Inward(j)
  }

  /** The outermost layer faces out, the innermost faces in, and when the two are
      one layer (nr = 2) the outward normal, written last, wins. */
  function SurfaceNormal(e: nat, g: Grid): Normal {
    if RadialIndex(e, g) == g.nrad - 1 then Outward(ThetaIndex(e, g))
    else if RadialIndex(e, g) == 0 then Inward(ThetaIndex(e, g))
    else Zero
  }

  /** What `surface_elements` returns: the surface mask and the normals. */
  datatype Layout = Layout(surface: seq<bool>, normals: seq<Normal>)

  predicate IsLayoutOf(l: Layout, g: Grid) {
    && |l.surface| == Size(g)
    && |l.normals| == Size(g)
    && (forall e :: 0 <= e < |l.surface| ==> l.surface[e] == OnSurface(e, g))
    && (forall e :: 0 <= e < |l.normals| ==> l.normals[e] == SurfaceNormal(e, g))
  }

  /** The exact components of a normal at theta = 0, as the 1D branch writes them. */
  function AxisVector(n: Normal): seq<int>
    requires n.Zero? || n.theta == 0
  {
    match n
    case Zero => [0, 0, 0]
    case Inward(_) => [-1, 0, 0]
    case Outward(_) => [1, 0, 0]
  }

  /** In 1D the first element's normal is [-1, 0, 0], the last one's [1, 0, 0]
      (also when they are the same element), and every other normal is zero. */
  lemma {:induction false} OneDimensionalNormals(l: Layout, nrad: nat)
    requires nrad >= 1 && IsLayoutOf(l, Grid(nrad, 1, 1))
    ensures |l.normals| == nrad
    ensures forall e :: 0 <= e < nrad ==>
      var n := l.normals[e];
      && (n.Zero? || n.theta == 0)
      && AxisVector(n) == if e == nrad - 1 then [1, 0, 0] else if e == 0 then [-1, 0, 0] else [0, 0, 0]
    ensures forall e :: 0 <= e < nrad ==> l.surface[e] == (e == 0 || e == nrad - 1)
  {
    assert Size(Grid(nrad, 1, 1)) == nrad;
    forall e | 0 <= e < nrad ensures RadialIndex(e, Grid(nrad, 1, 1)) == e && ThetaIndex(e, Grid(nrad, 1, 1)) == 0 {
    }
  }

  // ---- numpy building blocks ----

  /** `np.ones((n,), dtype=bool)`. */
  function Ones(n: nat): seq<bool> {
    seq(n, _ => true)
  }

  /** `np.ones((n,))` has n entries, all true. */
  lemma {:induction false} OnesAllTrue(n: nat)
    ensures |Ones(n)| == n && false !in Ones(n)
  {
  }

  /** `np.outer(a, b).flatten()` for boolean vectors. */
  function Outer(a: seq<bool>, b: seq<bool>): (r: seq<bool>)
    ensures |r| == |a| * |b|
  {
    if a == [] then [] else seq(|b|, j requires 0 <= j < |b| => a[0] && b[j]) + Outer(a[1..], b)
  }

  /** Row i, column j of `np.outer(a, b)` sits at i * |b| + j once flattened. */
  lemma {:induction false} OuterRowCol(a: seq<bool>, b: seq<bool>, i: nat, j: nat)
    requires i < |a| && j < |b|
    ensures i * |b| + j < |Outer(a, b)| && Outer(a, b)[i * |b| + j] == (a[i] && b[j])
  {
    var row := seq(|b|, c requires 0 <= c < |b| => a[0] && b[c]);
    assert Outer(a, b) == row + Outer(a[1..], b);
    if i > 0 {
      OuterRowCol(a[1..], b, i - 1, j);
      assert i * |b| + j == |b| + ((i - 1) * |b| + j);
    }
  }

  lemma {:induction false} OuterAt(a: seq<bool>, b: seq<bool>, e: nat)
    requires e < |a| * |b|
    ensures |b| > 0 && e / |b| < |a| && Outer(a, b)[e] == (a[e / |b|] && b[e % |b|])
  {
    var n := |b|;
    assert n == 0 ==> |a| * n == 0;
    DivAtLeast(e, n, |a|);
    var q, r := e / n, e % n;
    assert e == q * n + r;
    OuterRowCol(a, b, q, r);
  }

  // ---- Euclidean division facts ----

  lemma {:induction false} MulAtLeast(k: int, d: int)
    requires k >= 1 && d > 0
    ensures k * d >= d
  {
    if k > 1 {
      MulAtLeast(k - 1, d);
      assert k * d == (k - 1) * d + d;
    }
  }

  lemma {:induction false} MulMono(a: int, b: int, d: int)
    requires d > 0 && a <= b
    ensures a * d <= b * d
  {
    if a < b {
      assert b * d == a * d + (b - a) * d;
      MulAtLeast(b - a, d);
    }
  }

  lemma {:induction false} DivUnique(x: int, d: int, q: int, r: int)
    requires d > 0 && 0 <= r < d && x == q * d + r
    ensures x / d == q && x % d == r
  {
    var q', r' := x / d, x % d;
    assert x == q' * d + r';
    if q' < q {
      MulMono(q' + 1, q, d);
    } else if q < q' {
      MulMono(q + 1, q', d);
    }
  }

  /** x / d >= m exactly when x >= m * d. */
  lemma {:induction false} DivAtLeast(x: int, d: int, m: int)
    requires d > 0
    ensures x / d >= m <==> x >= m * d
  {
    var q := x / d;
    assert x == q * d + x % d;
    if q >= m {
      MulMono(m, q, d);
    } else {
      MulMono(q + 1, m, d);
      assert (q + 1) * d == q * d + d;
    }
  }

  /** e = (i * nt + j) * na + k lies in layer i at theta index j. */
  lemma {:induction false} FlatIndex(i: nat, j: nat, k: nat, g: Grid)
    requires j < g.ntheta && k < g.naxial
    ensures RadialIndex((i * g.ntheta + j) * g.naxial + k, g) == i
    ensures ThetaIndex((i * g.ntheta + j) * g.naxial + k, g) == j
  {
    var e := (i * g.ntheta + j) * g.naxial + k;
    DivUnique(e, g.naxial, i * g.ntheta + j, k);
    DivUnique(i * g.ntheta + j, g.ntheta, i, j);
  }

  /** Where row j of layer i starts in the flattened array, and that it lies inside the layer. */
  lemma {:induction false} RowStart(i: nat, j: nat, g: Grid)
    requires j < g.ntheta && g.naxial > 0
    ensures (i * g.ntheta + j) * g.naxial == i * g.ntheta * g.naxial + j * g.naxial
    ensures (j + 1) * g.naxial == j * g.naxial + g.naxial
    ensures j * g.naxial + g.naxial <= g.ntheta * g.naxial
  {
    MulMono(j + 1, g.ntheta, g.naxial);
  }

  /** Every element of row j of layer i has theta index j. */
  lemma {:induction false} RowTheta(e: nat, i: nat, j: nat, g: Grid)
    requires j < g.ntheta && g.naxial > 0
    requires (i * g.ntheta + j) * g.naxial <= e < (i * g.ntheta + j) * g.naxial + g.naxial
    ensures ThetaIndex(e, g) == j
  {
    var start := (i * g.ntheta + j) * g.naxial;
    FlatIndex(i, j, e - start, g);
  }

  /** The elements of layer i are exactly those in [i * nt * na, (i + 1) * nt * na). */
  lemma {:induction false} LayerRange(e: nat, i: nat, g: Grid)
    requires g.ntheta > 0 && g.naxial > 0
    ensures RadialIndex(e, g) == i <==>
      i * g.ntheta * g.naxial <= e < i * g.ntheta * g.naxial + g.ntheta * g.naxial
  {
    var c := e / g.naxial;
    DivAtLeast(c, g.ntheta, i);
    DivAtLeast(c, g.ntheta, i + 1);
    DivAtLeast(e, g.naxial, i * g.ntheta);
    DivAtLeast(e, g.naxial, (i + 1) * g.ntheta);
    assert (i + 1) * g.ntheta == i * g.ntheta + g.ntheta;
    assert (i * g.ntheta + g.ntheta) * g.naxial == i * g.ntheta * g.naxial + g.ntheta * g.naxial;
  }

  /** The radial index is the flat index divided by the size of one layer. */
  lemma {:induction false} RadialIndexIsQuotient(e: nat, g: Grid)
    requires g.ntheta > 0 && g.naxial > 0
    ensures RadialIndex(e, g) == e / (g.ntheta * g.naxial)
  {
    var q1, r1 := e / g.naxial, e % g.naxial;
    var q2, r2 := q1 / g.ntheta, q1 % g.ntheta;
    MulMono(r2, g.ntheta - 1, g.naxial);
    assert e == q2 * (g.ntheta * g.naxial) + (r2 * g.naxial + r1);
    DivUnique(e, g.ntheta * g.naxial, q2, r2 * g.naxial + r1);
  }

  /** An element of a non-empty grid has non-empty theta and axial extents. */
  lemma {:induction false} InsideGrid(e: nat, g: Grid)
    requires e < Size(g)
    ensures g.ntheta > 0 && g.naxial > 0
  {
    assert g.ntheta == 0 ==> g.nrad * g.ntheta == 0;
    assert g.naxial == 0 ==> g.nrad * g.ntheta * g.naxial == 0;
  }

  /** The surface mask of each abstraction, stated on the flat index: there are
      nr - 1, (nr - 1) * nt or (nr - 1) * nt * (nz - 1) elements, and element e is
      on the surface exactly when e, e / nt or e / (nt * (nz - 1)) is 0 or nr - 2. */
  lemma {:induction false} SurfaceMaskByDimension(l: Layout, ndim: nat, nr: nat, nt: nat, nz: nat)
    requires 1 <= ndim <= 3 && nr >= 1 && (ndim == 3 ==> nz >= 1)
    requires IsLayoutOf(l, ElementGrid(ndim, nr, nt, nz))
    ensures ndim == 1 ==> |l.surface| == nr - 1
    ensures ndim == 2 ==> |l.surface| == (nr - 1) * nt
    ensures ndim == 3 ==> |l.surface| == (nr - 1) * nt * (nz - 1)
    ensures forall e :: 0 <= e < |l.surface| ==>
      var q := if ndim == 1 then e else if ndim == 2 then e / nt else e / (nt * (nz - 1));
      l.surface[e] == (q == 0 || q == nr - 2)
  {
    var g := ElementGrid(ndim, nr, nt, nz);
    forall e | 0 <= e < |l.surface|
      ensures var q := if ndim == 1 then e else if ndim == 2 then e / nt else e / (nt * (nz - 1));
        l.surface[e] == (q == 0 || q == nr - 2)
    {
      InsideGrid(e, g);
      RadialIndexIsQuotient(e, g);
      assert g.ntheta * g.naxial == if ndim == 1 then 1 else if ndim == 2 then nt else nt * (nz - 1);
    }
  }

  /** The radial mask `r` of the source: `nrad` entries, true at the first and the
      last. */
  method RadialMask(nrad: nat) returns (mask: seq<bool>)
    requires nrad >= 1
    ensures |mask| == nrad && forall i :: 0 <= i < nrad ==> mask[i] == (i == 0 || i == nrad - 1)
  {
    var r := new bool[nrad](_ => false);
    r[0] := true;
    r[nrad - 1] := true;
    mask := r[..];
  }

  /** One row of a layer: the naxial elements of layer i at theta index j get the
      normal of that theta index. */
  method FillRow(normals: array<Normal>, i: nat, j: nat, g: Grid, outward: bool)
    requires j < g.ntheta && g.naxial > 0
    requires (i * g.ntheta + j) * g.naxial + g.naxial <= normals.Length
    modifies normals
    ensures forall e :: 0 <= e < normals.Length ==>
      normals[e] ==
        if (i * g.ntheta + j) * g.naxial <= e < (i * g.ntheta + j) * g.naxial + g.naxial
        then Facing(outward, j) else old(normals[e])
  {
    var start := (i * g.ntheta + j) * g.naxial;
    for k := 0 to g.naxial
      invariant forall e :: 0 <= e < normals.Length ==>
        normals[e] == if start <= e < start + k then Facing(outward, j) else old(normals[e])
    {
      normals[start + k] := Facing(outward, j);
    }
  }

  /** Rows 0 .. ntheta-1 of layer i, one after another: the block of the flattened
      array that starts at i * ntheta * naxial gets the normals of its theta indices. */
  method FillRows(normals: array<Normal>, i: nat, g: Grid, outward: bool)
    requires g.ntheta > 0 && g.naxial > 0
    requires i * g.ntheta * g.naxial + g.ntheta * g.naxial <= normals.Length
    modifies normals
    ensures forall e :: 0 <= e < normals.Length ==>
      normals[e] ==
        if i * g.ntheta * g.naxial <= e < i * g.ntheta * g.naxial + g.ntheta * g.naxial
        then Facing(outward, ThetaIndex(e, g)) else old(normals[e])
  {
    var base := i * g.ntheta * g.naxial;
    for j := 0 to g.ntheta
      invariant forall e :: 0 <= e < normals.Length ==>
        normals[e] == if base <= e < base + j * g.naxial then Facing(outward, ThetaIndex(e, g)) else old(normals[e])
    {
      RowStart(i, j, g);
      var start := base + j * g.naxial;
      ghost var before := normals[..];
      FillRow(normals, i, j, g, outward);
      forall e | 0 <= e < normals.Length
        ensures normals[e] ==
          if base <= e < base + (j + 1) * g.naxial then Facing(outward, ThetaIndex(e, g)) else old(normals[e])
      {
        if start <= e < start + g.naxial {
          RowTheta(e, i, j, g);
        } else {
          assert normals[e] == before[e];
        }
      }
    }
  }

  /** `normals[i] = ns` (outward) or `normals[i] = -ns` (inward) on the flattened
      array: every element of layer i gets the normal of its theta index. */
  method FillLayer(normals: array<Normal>, i: nat, g: Grid, outward: bool)
    requires g.ntheta > 0 && g.naxial > 0
    requires (i + 1) * g.ntheta * g.naxial <= normals.Length
    modifies normals
    ensures forall e :: 0 <= e < normals.Length ==>
      normals[e] == if RadialIndex(e, g) == i then Facing(outward, ThetaIndex(e, g)) else old(normals[e])
  {
    assert i * g.ntheta * g.naxial + g.ntheta * g.naxial == (i + 1) * g.ntheta * g.naxial;
    FillRows(normals, i, g, outward);
    forall e | 0 <= e < normals.Length
      ensures RadialIndex(e, g) == i <==> i * g.ntheta * g.naxial <= e < i * g.ntheta * g.naxial + g.ntheta * g.naxial
    {
      LayerRange(e, i, g);
    }
  }

  /** The normals of a grid with at least one radial layer: zeros, then the
      innermost layer facing in, then the outermost facing out. */
  method LayerNormals(g: Grid) returns (normals: seq<Normal>)
    requires g.nrad >= 1
    ensures |normals| == Size(g)
    ensures forall e :: 0 <= e < |normals| ==> normals[e] == SurfaceNormal(e, g)
  {
    var a := new Normal[Size(g)](_ => Zero);
    if g.ntheta > 0 && g.naxial > 0 {
      MulMono(1, g.nrad, g.ntheta * g.naxial);
      assert g.nrad * (g.ntheta * g.naxial) == Size(g);
      FillLayer(a, 0, g, false);
      FillLayer(a, g.nrad - 1, g, true);
    }
    normals := a[..];
  }

  /** The 1D branch: one element per radial layer, the first facing in and the
      last facing out. */
  method RadialLayout(nrad: nat) returns (l: Layout)
    requires nrad >= 1
    ensures IsLayoutOf(l, Grid(nrad, 1, 1))
  {
    var surface := RadialMask(nrad);
    var normals := new Normal[nrad](_ => Zero);
    normals[0] := Inward(0);
    normals[nrad - 1] := Outward(0);
    forall e | 0 <= e < nrad ensures RadialIndex(e, Grid(nrad, 1, 1)) == e && ThetaIndex(e, Grid(nrad, 1, 1)) == 0 {
    }
    l := Layout(surface, normals[..]);
  }

  /** The 2D branch: the radial mask repeated over the nt circumferential
      elements. */
  method PlaneLayout(nrad: nat, nt: nat) returns (l: Layout)
    requires nrad >= 1
    ensures IsLayoutOf(l, Grid(nrad, nt, 1))
  {
    var g := Grid(nrad, nt, 1);
    var mask := RadialMask(nrad);
    var surface := Outer(mask, Ones(nt));
    forall e | 0 <= e < |surface| ensures surface[e] == OnSurface(e, g) {
      OuterAt(mask, Ones(nt), e);
    }
    var normals := LayerNormals(g);
    l := Layout(surface, normals);
  }

  /** The 3D branch: the radial mask repeated over the nt circumferential and the
      naxial axial elements. */
  method SolidLayout(nrad: nat, nt: nat, naxial: nat) returns (l: Layout)
    requires nrad >= 1
    ensures IsLayoutOf(l, Grid(nrad, nt, naxial))
  {
    var g := Grid(nrad, nt, naxial);
    var mask := RadialMask(nrad);
    var surface := Outer(Outer(mask, Ones(nt)), Ones(naxial));
    forall e | 0 <= e < |surface| ensures surface[e] == OnSurface(e, g) {
      SolidMaskAt(mask, nt, naxial, e);
    }
    var normals := LayerNormals(g);
    l := Layout(surface, normals);
  }

  /** Entry e of the flattened outer product of a with n ones is a[e / n]. */
  lemma {:induction false} OuterOnesAt(a: seq<bool>, n: nat, e: nat)
    requires e < |Outer(a, Ones(n))|
    ensures n > 0 && e / n < |a| && Outer(a, Ones(n))[e] == a[e / n]
  {
    OuterAt(a, Ones(n), e);
  }

  /** Entry e of the flattened `np.outer(np.outer(r, theta), z)` is the radial
      mask at the radial index of e. */
  lemma {:induction false} SolidMaskAt(mask: seq<bool>, nt: nat, naxial: nat, e: nat)
    requires |mask| >= 1 && forall i :: 0 <= i < |mask| ==> mask[i] == (i == 0 || i == |mask| - 1)
    requires e < |Outer(Outer(mask, Ones(nt)), Ones(naxial))|
    ensures Outer(Outer(mask, Ones(nt)), Ones(naxial))[e] == OnSurface(e, Grid(|mask|, nt, naxial))
  {
    var rows := Outer(mask, Ones(nt));
    OuterOnesAt(rows, naxial, e);
    var c := e / naxial;
    OuterOnesAt(mask, nt, c);
    var i := c / nt;
    assert RadialIndex(e, Grid(|mask|, nt, naxial)) == i;
  }

}
