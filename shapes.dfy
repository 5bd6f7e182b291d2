/** The tube's abstraction ("3D", "2D", "1D") and the shapes of its result arrays:
    `Tube.ndim`, `Tube.dim` and `Tube._check_rdim` in srlife/receiver.py. */
module Shapes {
  import opened Wrappers
  import opened Errors

  /** A numpy array of floats: its shape and its entries in row-major order. A
      numpy array always has `Product(shape)` entries (`WellFormed`); the datatype
      does not enforce it, and every array the model builds satisfies it. */
  datatype NdArray = NdArray(shape: seq<nat>, data: seq<real>)

  predicate WellFormed(a: NdArray) {
    |a.data| == Product(a.shape)
  }

  /** The number of entries of an array of the given shape. */
  function Product(shape: seq<nat>): nat {
    if shape == [] then 1 else shape[0] * Product(shape[1..])
  }

  /** `np.zeros(shape)`: the storage `_setup_memmap` hands out when paging is off. */
  function Zeros(shape: seq<nat>): (a: NdArray)
    ensures a.shape == shape && WellFormed(a)
    ensures forall i :: 0 <= i < |a.data| ==> a.data[i] == 0.0
  {
    NdArray(shape, seq(Product(shape), _ => 0.0))
  }

  /** `shape[0] == n`, where a shape without a first axis fails the test (numpy
      raises `IndexError` there). An array that passes holds n slices of the shape
      that follows its first axis. */
  function LeadingDim(shape: seq<nat>, n: nat): (r: bool)
    ensures |shape| == 0 ==> !r
    ensures r ==> shape == [n] + shape[1..] && Product(shape) == n * Product(shape[1..])
  {
    |shape| > 0 && shape[0] == n
  }

  /** The abstraction named after a dimension count: "1D", "2D" or "3D". */
  function AbstractionName(n: nat): string
    requires 1 <= n <= 3
  {
    [('0' as int + n) as char, 'D']
  }

  /** `Tube.ndim`. */
  function Ndim(abstraction: string): (r: Result<nat, Error>)
    ensures r.Ok? <==> abstraction in {"3D", "2D", "1D"}
    ensures r.Ok? ==> 1 <= r.value <= 3 && AbstractionName(r.value) == abstraction
    ensures r.Err? ==> r.error == UnknownAbstraction(abstraction)
  {
    if abstraction == "3D" then Ok(3)
    else if abstraction == "2D" then Ok(2)
    else if abstraction == "1D" then Ok(1)
    else Err(UnknownAbstraction(abstraction))
  }

  /** `Tube.dim`: the grid actually discretized, with a 1 for each direction the
      abstraction drops. */
  function Dim(abstraction: string, nr: nat, nt: nat, nz: nat): (r: Result<seq<nat>, Error>)
    ensures r.Ok? <==> Ndim(abstraction).Ok?
    ensures r.Ok? ==>
      var n := Ndim(abstraction).value;
      && |r.value| == 3
      && r.value[..n] == [nr, nt, nz][..n]
      && forall i :: n <= i < 3 ==> r.value[i] == 1
    ensures r.Err? ==> r.error == UnknownAbstraction(abstraction)
  {
    if abstraction == "3D" then Ok([nr, nt, nz])
    else if abstraction == "2D" then Ok([nr, nt, 1])
    else if abstraction == "1D" then Ok([nr, 1, 1])
    else Err(UnknownAbstraction(abstraction))
  }

  /** `Tube._check_rdim`: a node result must have a time axis of length ntime
      followed by the first ndim of (nr, nt, nz). */
  function CheckRdim(abstraction: string, ntime: nat, nr: nat, nt: nat, nz: nat, shape: seq<nat>)
    : (r: Outcome<Error>)
    ensures r.Pass? <==>
      Ndim(abstraction).Ok? && shape == [ntime] + [nr, nt, nz][..Ndim(abstraction).value]
    ensures r.Fail? ==>
      r.error == if Ndim(abstraction).Ok? then ResultShapeMismatch else UnknownAbstraction(abstraction)
  {
    if abstraction == "3D" then
      if shape != [ntime, nr, nt, nz] then Fail(ResultShapeMismatch) else Pass
    else if abstraction == "2D" then
      if shape != [ntime, nr, nt] then Fail(ResultShapeMismatch) else Pass
    else if abstraction == "1D" then
      if shape != [ntime, nr] then Fail(ResultShapeMismatch) else Pass
    else
      Fail(UnknownAbstraction(abstraction))
  }

  /** A node result that passes `_check_rdim` holds exactly one value per time step
      and per node of the grid that `dim` describes. */
  lemma {:induction false} CheckedShapeMatchesDim(abstraction: string, ntime: nat, nr: nat, nt: nat, nz: nat, shape: seq<nat>)
    requires CheckRdim(abstraction, ntime, nr, nt, nz, shape).Pass?
    ensures LeadingDim(shape, ntime) && |shape| == Ndim(abstraction).value + 1
    ensures Product(shape) == ntime * Product(Dim(abstraction, nr, nt, nz).value)
  {
    var d := Dim(abstraction, nr, nt, nz).value;
    ProductOfThree(d[0], d[1], d[2]);
    assert d == [d[0], d[1], d[2]];
    assert Product(shape) == ntime * Product(shape[1..]);
    if abstraction == "3D" {
      ProductOfThree(nr, nt, nz);
      assert shape[1..] == [nr, nt, nz];
    } else if abstraction == "2D" {
      ProductOfTwo(nr, nt);
      assert shape[1..] == [nr, nt];
    } else {
      assert shape[1..] == [nr];
      assert Product([nr]) == nr * Product([]);
    }
  }

  lemma {:induction false} ProductOfTwo(a: nat, b: nat)
    ensures Product([a, b]) == a * b
  {
    assert [a, b][1..] == [b];
    assert Product([b]) == b * Product([]);
  }

  lemma {:induction false} ProductOfThree(a: nat, b: nat, c: nat)
    ensures Product([a, b, c]) == a * b * c
  {
    assert [a, b, c][1..] == [b, c];
    ProductOfTwo(b, c);
  }
}
