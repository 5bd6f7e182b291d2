/** The receiver data model of srlife/receiver.py: a `Receiver` holds named
    `Panel`s and flow paths, a `Panel` holds named `Tube`s, and a `Tube` holds its
    grid, its abstraction, its result fields and its thermal boundary conditions.
    Geometry and results are carried as values; the numerical fields are not
    interpreted. */
module Receivers {
  import opened Wrappers
  import opened Errors
  import opened Names
  import opened OrderedDicts
  import opened Shapes
  import opened Surface
  import opened ThermalBCs

  /** A stiffness as the source accepts it: a number, or a string such as "rigid"
      or "disconnect". */
  datatype Stiffness = Numeric(value: real) | Named(name: string)

  /** One flow path: the names of the panels it runs through, and its histories. */
  datatype Flowpath = Flowpath(panels: seq<string>, times: seq<real>, massFlow: seq<real>, inletTemp: seq<real>)

  /** The key an entry is stored under: the given name, or the next default name
      when none is given (Python's `if not name`: `None` and "" alike). */
  function KeyFor(name: string, existing: seq<string>): (k: string)
    ensures name != "" ==> k == name
    ensures name == "" ==> k !in existing && ParseInt(k).Some?
  {
    if name == "" then NextNameFresh(existing); NextNameValue(existing); NextNameSpec(existing) else name
  }

  class Tube {
    const r: real
    const t: real
    const h: real
    const nr: nat
    const nt: nat
    const nz: nat
    const T0: real
    const multiplier: int

    var abstraction: string
    var plane: Option<real>
    var angle: Option<real>
    var times: seq<real>
    var results: map<string, NdArray>
    var quadratureResults: map<string, NdArray>
    var axialResults: map<string, NdArray>
    var outerBC: Option<ThermalBC>
    var innerBC: Option<ThermalBC>
    var page: bool
    var pagePrefix: string

    constructor (outerRadius: real, thickness: real, height: real, nr: nat, nt: nat, nz: nat,
                 T0: real, page: bool, multiplier: int)
      ensures this.r == outerRadius && this.t == thickness && this.h == height
      ensures this.nr == nr && this.nt == nt && this.nz == nz
      ensures this.T0 == T0 && this.page == page && this.multiplier == multiplier
      ensures abstraction == "3D" && plane == None && angle == None
      ensures times == [] && results == map[] && quadratureResults == map[] && axialResults == map[]
      ensures outerBC == None && innerBC == None && pagePrefix == ""
    {
      this.r, this.t, this.h := outerRadius, thickness, height;
      this.nr, this.nt, this.nz := nr, nt, nz;
      abstraction := "3D";
      plane, angle := None, None;
      times := [];
      results, quadratureResults, axialResults := map[], map[], map[];
      outerBC, innerBC := None, None;
      this.T0 := T0;
      this.page := page;
      pagePrefix := "";
      this.multiplier := multiplier;
    }

    /** `ntime`. */
    function NTime(): (n: nat)
      reads this
      ensures n == |times|
    {
      |times|
    }

    /** Every node result has one entry per time step along its first axis. */
    predicate ResultsAligned()
      reads this
    {
      forall k :: k in results ==> LeadingDim(results[k].shape, NTime())
    }

    /** `set_paging`: page results to disk, under file names prefixed by the
        tube's number. */
    method SetPaging(page: bool, i: int)
      modifies this`page, this`pagePrefix
      ensures this.page == page && pagePrefix == IntToString(i) + "_"
    {
      this.page := page;
      pagePrefix := IntToString(i) + "_";
    }

    /** `make_2D`: slice the tube at a height within [0, h]. */
    method Make2D(height: real) returns (o: Outcome<Error>)
      modifies this`abstraction, this`plane
      ensures o.Pass? <==> 0.0 <= height <= h
      ensures o.Pass? ==> abstraction == "2D" && plane == Some(height)
      ensures o.Fail? ==> o.error == HeightOutOfRange
      ensures o.Fail? ==> abstraction == old(abstraction) && plane == old(plane)
    {
      if height < 0.0 || height > h {
        return Fail(HeightOutOfRange);
      }
      abstraction := "2D";
      plane := Some(height);
      return Pass;
    }

    /** `make_1D`: reduce the tube to the ray at a height within [0, h] and an angle. */
    method Make1D(height: real, angle: real) returns (o: Outcome<Error>)
      modifies this`abstraction, this`plane, this`angle
      ensures o.Pass? <==> 0.0 <= height <= h
      ensures o.Pass? ==> abstraction == "1D" && plane == Some(height) && this.angle == Some(angle)
      ensures o.Fail? ==> o.error == HeightOutOfRange
      ensures o.Fail? ==> abstraction == old(abstraction) && plane == old(plane) && this.angle == old(this.angle)
    {
      if height < 0.0 || height > h {
        return Fail(HeightOutOfRange);
      }
      abstraction := "1D";
      plane := Some(height);
      this.angle := Some(angle);
      return Pass;
    }

    /** `set_times`: refuse new times that some node result does not have along its
        first axis. Quadrature and axial results are not checked. */
    method SetTimes(newTimes: seq<real>) returns (o: Outcome<Error>)
      modifies this`times
      ensures o.Pass? <==> forall k :: k in results ==> LeadingDim(results[k].shape, |newTimes|)
      ensures o.Fail? ==> o.error == IncompatibleTimes
      ensures times == if o.Pass? then newTimes else old(times)
      ensures o.Pass? ==> ResultsAligned()
    {
      var unchecked := results.Keys;
      while unchecked != {}
        invariant unchecked <= results.Keys
        invariant forall k :: k in results && k !in unchecked ==> LeadingDim(results[k].shape, |newTimes|)
        decreases unchecked
      {
        var k :| k in unchecked;
        if !LeadingDim(results[k].shape, |newTimes|) {
          return Fail(IncompatibleTimes);
        }
        unchecked := unchecked - {k};
      }
      times := newTimes;
      return Pass;
    }

    /** `add_results`: store a node result whose shape `_check_rdim` accepts. */
    method AddResults(name: string, data: NdArray) returns (o: Outcome<Error>)
      modifies this`results
      ensures o == CheckRdim(abstraction, NTime(), nr, nt, nz, data.shape)
      ensures results == if o.Pass? then old(results)[name := data] else old(results)
      ensures old(ResultsAligned()) ==> ResultsAligned()
    {
      o := CheckRdim(abstraction, NTime(), nr, nt, nz, data.shape);
      if o.Pass? {
        results := results[name := data];
      }
    }

    /** `add_blank_results`: store zeros of a shape `_check_rdim` accepts. */
    method AddBlankResults(name: string, shape: seq<nat>) returns (o: Outcome<Error>)
      modifies this`results
      ensures o == CheckRdim(abstraction, NTime(), nr, nt, nz, shape)
      ensures results == if o.Pass? then old(results)[name := Zeros(shape)] else old(results)
      ensures old(ResultsAligned()) ==> ResultsAligned()
    {
      o := CheckRdim(abstraction, NTime(), nr, nt, nz, shape);
      if o.Pass? {
        results := results[name := Zeros(shape)];
      }
    }

    /** `add_quadrature_results`: the time axis must come first. */
    method AddQuadratureResults(name: string, data: NdArray) returns (o: Outcome<Error>)
      modifies this`quadratureResults
      ensures o.Pass? <==> LeadingDim(data.shape, NTime())
      ensures o.Fail? ==> o.error == QuadratureTimeAxis
      ensures quadratureResults == if o.Pass? then old(quadratureResults)[name := data] else old(quadratureResults)
    {
      if !LeadingDim(data.shape, NTime()) {
        return Fail(QuadratureTimeAxis);
      }
      quadratureResults := quadratureResults[name := data];
      return Pass;
    }

    /** `add_blank_quadrature_results`. */
    method AddBlankQuadratureResults(name: string, shape: seq<nat>) returns (o: Outcome<Error>)
      modifies this`quadratureResults
      ensures o.Pass? <==> LeadingDim(shape, NTime())
      ensures o.Fail? ==> o.error == QuadratureTimeAxis
      ensures quadratureResults == if o.Pass? then old(quadratureResults)[name := Zeros(shape)] else old(quadratureResults)
    {
      if !LeadingDim(shape, NTime()) {
        return Fail(QuadratureTimeAxis);
      }
      quadratureResults := quadratureResults[name := Zeros(shape)];
      return Pass;
    }

    /** `add_axial_results`: the shape must be exactly (ntime, nz). */
    method AddAxialResults(name: string, data: NdArray) returns (o: Outcome<Error>)
      modifies this`axialResults
      ensures o.Pass? <==> data.shape == [NTime(), nz]
      ensures o.Fail? ==> o.error == AxialShapeMismatch
      ensures axialResults == if o.Pass? then old(axialResults)[name := data] else old(axialResults)
    {
      if data.shape != [NTime(), nz] {
        return Fail(AxialShapeMismatch);
      }
      axialResults := axialResults[name := data];
      return Pass;
    }

    /** `add_blank_axial_results`: zeros of shape (ntime, nz). */
    method AddBlankAxialResults(name: string)
      modifies this`axialResults
      ensures axialResults == old(axialResults)[name := Zeros([old(NTime()), nz])]
    {
      axialResults := axialResults[name := Zeros([NTime(), nz])];
    }

    /** `set_bc`: install a thermal BC on the inner or outer wall, provided its
        radius and height match that wall; `isClose` stands for `np.isclose`. */
    method SetBC(bc: ThermalBC, loc: string, isClose: (real, real) -> bool) returns (o: Outcome<Error>)
      modifies this`innerBC, this`outerBC
      ensures o.Pass? <==>
        || (loc == "inner" && isClose(bc.r, r - t) && isClose(bc.h, h))
        || (loc == "outer" && isClose(bc.r, r) && isClose(bc.h, h))
      ensures o.Fail? ==>
        o.error == if loc == "inner" || loc == "outer" then BCGeometryMismatch(loc) else UnknownWallLocation(loc)
      ensures innerBC == if o.Pass? && loc == "inner" then Some(bc) else old(innerBC)
      ensures outerBC == if o.Pass? && loc == "outer" then Some(bc) else old(outerBC)
    {
      if loc == "inner" {
        if !isClose(bc.r, r - t) || !isClose(bc.h, h) {
          return Fail(BCGeometryMismatch(loc));
        }
        innerBC := Some(bc);
      } else if loc == "outer" {
        if !isClose(bc.r, r) || !isClose(bc.h, h) {
          return Fail(BCGeometryMismatch(loc));
        }
        outerBC := Some(bc);
      } else {
        return Fail(UnknownWallLocation(loc));
      }
      return Pass;
    }

    /** `surface_elements`: the surface mask and the normals over the flattened
        element grid of the tube's abstraction. */
    method SurfaceElements() returns (res: Result<Layout, Error>)
      ensures res.Ok? <==>
        Ndim(abstraction).Ok? && nr >= 2 && (Ndim(abstraction).value == 3 ==> nz >= 1)
      ensures res.Err? ==>
        res.error == if Ndim(abstraction).Err? then Ndim(abstraction).error else DegenerateGrid
      ensures res.Ok? ==> IsLayoutOf(res.value, ElementGrid(Ndim(abstraction).value, nr, nt, nz))
    {
      var ndim := Ndim(abstraction);
      if ndim.Err? {
        return Err(ndim.error);
      }
      if nr < 2 || (ndim.value == 3 && nz < 1) {
        return Err(DegenerateGrid);
      }
      var l: Layout;
      if ndim.value == 1 {
        l := RadialLayout(nr - 1);
      } else if ndim.value == 2 {
        l := PlaneLayout(nr - 1, nt);
      } else {
        l := SolidLayout(nr - 1, nt, nz - 1);
      }
      return Ok(l);
    }
  }

  /** The sum of the multipliers of a sequence of tubes. */
  function SumMultipliers(ts: seq<Tube>): int {
    if ts == [] then 0 else SumMultipliers(ts[..|ts| - 1]) + ts[|ts| - 1].multiplier
  }

  /** When every tube stands for itself alone (the default multiplier 1), the
      number of actual tubes is the number of modelled tubes. */
  lemma {:induction false} SumOfUnitMultipliers(ts: seq<Tube>)
    requires forall i :: 0 <= i < |ts| ==> ts[i].multiplier == 1
    ensures SumMultipliers(ts) == |ts|
  {
    if ts != [] {
      SumOfUnitMultipliers(ts[..|ts| - 1]);
    }
  }

  class Panel {
    const stiffness: Stiffness
    var tubes: OrderedDict<Tube>

    constructor (stiffness: Stiffness)
      ensures this.stiffness == stiffness && tubes == []
    {
      this.stiffness := stiffness;
      tubes := [];
    }

    /** `ntubes`: the number of modelled tubes. */
    function NTubes(): (n: nat)
      reads this
      ensures n == |Keys(tubes)| == |Values(tubes)|
    {
      |tubes|
    }

    /** `ntubes_actual`: the number of real tubes the panel's tubes stand for. */
    method NTubesActual() returns (total: int)
      ensures total == SumMultipliers(Values(tubes))
      ensures (forall tb :: tb in Values(tubes) ==> tb.multiplier == 1) ==> total == NTubes()
    {
      var ts := Values(tubes);
      total := 0;
      for i := 0 to |ts|
        invariant total == SumMultipliers(ts[..i])
      {
        assert ts[..i + 1][..i] == ts[..i];
        total := total + ts[i].multiplier;
      }
      assert ts[..|ts|] == ts;
      if forall tb :: tb in ts ==> tb.multiplier == 1 {
        SumOfUnitMultipliers(ts);
      }
    }

    /** `add_tube`: store a tube under its name, or under the next default name. */
    method AddTube(tube: Tube, name: string)
      modifies this`tubes
      ensures tubes == Put(old(tubes), KeyFor(name, Keys(old(tubes))), tube)
      ensures name == "" ==> Keys(tubes) == Keys(old(tubes)) + [NextNameSpec(Keys(old(tubes)))]
      ensures name == "" ==>
        SumMultipliers(Values(tubes)) == SumMultipliers(Values(old(tubes))) + tube.multiplier
      ensures DistinctKeys(old(tubes)) ==> DistinctKeys(tubes)
    {
      var key := name;
      if key == "" {
        key := NextName(Keys(tubes));
        assert (Values(tubes) + [tube])[..|Values(tubes)|] == Values(tubes);
      }
      tubes := Put(tubes, key, tube);
    }
  }

  /** All tubes of a sequence of panels, panel by panel (`Receiver.tubes`). */
  function AllTubes(ps: seq<Panel>): seq<Tube>
    reads ps
  {
    if ps == [] then [] else AllTubes(ps[..|ps| - 1]) + Values(ps[|ps| - 1].tubes)
  }

  /** The sum of the panels' tube counts. */
  function TubeCount(ps: seq<Panel>): nat
    reads ps
  {
    if ps == [] then 0 else TubeCount(ps[..|ps| - 1]) + ps[|ps| - 1].NTubes()
  }

  lemma {:induction false} AllTubesCount(ps: seq<Panel>)
    ensures |AllTubes(ps)| == TubeCount(ps)
  {
    if ps != [] {
      AllTubesCount(ps[..|ps| - 1]);
    }
  }

  /** A tube is in the chain exactly when it is a tube of one of the panels. */
  lemma {:induction false} AllTubesMembers(ps: seq<Panel>)
    ensures forall j :: 0 <= j < |AllTubes(ps)| ==>
      exists i :: 0 <= i < |ps| && AllTubes(ps)[j] in Values(ps[i].tubes)
    ensures forall i, k :: 0 <= i < |ps| && 0 <= k < |ps[i].tubes| ==>
      ps[i].tubes[k].value in AllTubes(ps)
  {
    if ps != [] {
      var init, last := ps[..|ps| - 1], ps[|ps| - 1];
      AllTubesMembers(init);
      var front := AllTubes(init);
      assert AllTubes(ps) == front + Values(last.tubes);
      forall j | 0 <= j < |AllTubes(ps)|
        ensures exists i :: 0 <= i < |ps| && AllTubes(ps)[j] in Values(ps[i].tubes)
      {
        if j < |front| {
          assert AllTubes(ps)[j] == front[j];
          var i :| 0 <= i < |init| && front[j] in Values(init[i].tubes);
          assert ps[i] == init[i];
          assert 0 <= i < |ps| && AllTubes(ps)[j] in Values(ps[i].tubes);
        } else {
          assert AllTubes(ps)[j] == Values(last.tubes)[j - |front|];
          assert AllTubes(ps)[j] in Values(ps[|ps| - 1].tubes);
        }
      }
      forall i, k | 0 <= i < |ps| && 0 <= k < |ps[i].tubes|
        ensures ps[i].tubes[k].value in AllTubes(ps)
      {
        if i < |ps| - 1 {
          assert init[i] == ps[i];
        } else {
          assert Values(last.tubes)[k] == ps[i].tubes[k].value;
        }
      }
    } else {
      assert |AllTubes(ps)| == 0;
    }
  }

  /** The last position of x in s. */
  function LastIndexOf<T(==)>(s: seq<T>, x: T): (i: nat)
    requires x in s
    ensures i < |s| && s[i] == x && forall j :: i < j < |s| ==> s[j] != x
  {
    if s[|s| - 1] == x then |s| - 1 else LastIndexOf(s[..|s| - 1], x)
  }

  /** Extending a prefix of s by s[i] makes i the last position of s[i] and keeps
      the last position of every other element. */
  lemma {:induction false} LastIndexOfPrefix<T>(s: seq<T>, i: nat, j: nat)
    requires j <= i < |s|
    ensures LastIndexOf(s[..i + 1], s[j]) == if s[j] == s[i] then i else LastIndexOf(s[..i], s[j])
  {
    assert s[..i + 1][i] == s[i];
    if s[j] != s[i] {
      assert s[..i + 1][..i] == s[..i];
      assert s[..i][j] == s[j];
    }
  }

  /** When no element occurs twice, every element's last position is its position. */
  lemma {:induction false} LastIndexOfEachDistinct<T>(s: seq<T>)
    ensures (forall a, b :: 0 <= a < b < |s| ==> s[a] != s[b]) ==>
      forall j :: 0 <= j < |s| ==> LastIndexOf(s, s[j]) == j
  {
  }

  /** The loop of `Receiver.set_paging`: tube number i of the list gets prefix "i_";
      a tube listed twice keeps the number of its last occurrence. */
  method PageAll(ts: seq<Tube>, page: bool)
    modifies ts`page, ts`pagePrefix
    ensures forall j :: 0 <= j < |ts| ==>
      ts[j].page == page && ts[j].pagePrefix == IntToString(LastIndexOf(ts, ts[j])) + "_"
  {
    for i := 0 to |ts|
      invariant forall j :: 0 <= j < i ==>
        ts[j].page == page && ts[j].pagePrefix == IntToString(LastIndexOf(ts[..i], ts[j])) + "_"
    {
      label before:
      ts[i].SetPaging(page, i);
      forall j | 0 <= j < i + 1
        ensures ts[j].page == page && ts[j].pagePrefix == IntToString(LastIndexOf(ts[..i + 1], ts[j])) + "_"
      {
        LastIndexOfPrefix(ts, i, j);
        if ts[j] != ts[i] {
          assert ts[j].page == old@before(ts[j].page) && ts[j].pagePrefix == old@before(ts[j].pagePrefix);
        }
      }
    }
    assert ts[..|ts|] == ts;
  }

  class Receiver {
    const period: real
    const days: int
    const stiffness: Stiffness
    var panels: OrderedDict<Panel>
    var flowpaths: OrderedDict<Flowpath>

    constructor (period: real, days: int, stiffness: Stiffness)
      ensures this.period == period && this.days == days && this.stiffness == stiffness
      ensures panels == [] && flowpaths == []
    {
      this.period, this.days, this.stiffness := period, days, stiffness;
      panels, flowpaths := [], [];
    }

    /** `tubes`: every tube of every panel, in panel order then tube order. */
    function Tubes(): (ts: seq<Tube>)
      reads this, Values(panels)
      ensures |ts| == TubeCount(Values(panels))
    {
      AllTubesCount(Values(panels));
      AllTubes(Values(panels))
    }

    /** `tb` is one of the tubes of one of the panels. */
    predicate InSomePanel(tb: Tube)
      reads this, Values(panels)
    {
      exists p :: p in Values(panels) && tb in Values(p.tubes)
    }

    /** Every tube in `tubes` belongs to some panel, and every tube of every panel
        is in `tubes`. */
    lemma TubesMembers()
      ensures forall j :: 0 <= j < |Tubes()| ==> InSomePanel(Tubes()[j])
      ensures forall i, k :: 0 <= i < |Values(panels)| && 0 <= k < |Values(panels)[i].tubes| ==>
        Values(panels)[i].tubes[k].value in Tubes()
    {
      var ps := Values(panels);
      AllTubesMembers(ps);
      forall j | 0 <= j < |Tubes()|
        ensures InSomePanel(Tubes()[j])
      {
        var i :| 0 <= i < |ps| && Tubes()[j] in Values(ps[i].tubes);
        assert ps[i] in ps;
      }
    }

    /** `ntubes`: the number of tubes over all panels. */
    function NTubes(): (n: nat)
      reads this, Values(panels)
      ensures n == TubeCount(Values(panels))
    {
      AllTubesCount(Values(panels));
      |Tubes()|
    }

    /** `add_flowpath`: every panel of the path must be in the receiver; the first
        one that is not is reported and nothing is stored. */
    method AddFlowpath(panelsInPath: seq<string>, times: seq<real>, massRate: seq<real>,
                       inletTemp: seq<real>, name: string)
      returns (o: Outcome<Error>)
      modifies this`flowpaths
      ensures o.Pass? <==> forall p :: p in panelsInPath ==> p in Keys(panels)
      ensures o.Fail? ==>
        exists i :: 0 <= i < |panelsInPath| && o.error == PanelMissing(panelsInPath[i])
          && panelsInPath[i] !in Keys(panels)
          && forall j :: 0 <= j < i ==> panelsInPath[j] in Keys(panels)
      ensures flowpaths == if o.Fail? then old(flowpaths) else
        Put(old(flowpaths), KeyFor(name, Keys(old(flowpaths))),
            Flowpath(panelsInPath, times, massRate, inletTemp))
    {
      var key := name;
      if key == "" {
        key := NextName(Keys(flowpaths));
      }
      for i := 0 to |panelsInPath|
        invariant forall j :: 0 <= j < i ==> panelsInPath[j] in Keys(panels)
      {
        if panelsInPath[i] !in Keys(panels) {
          return Fail(PanelMissing(panelsInPath[i]));
        }
      }
      flowpaths := Put(flowpaths, key, Flowpath(panelsInPath, times, massRate, inletTemp));
      return Pass;
    }

    /** `add_panel`: store a panel under its name, or under the next default name. */
    method AddPanel(panel: Panel, name: string)
      modifies this`panels
      ensures panels == Put(old(panels), KeyFor(name, Keys(old(panels))), panel)
      ensures name == "" ==> Keys(panels) == Keys(old(panels)) + [NextNameSpec(Keys(old(panels)))]
      ensures name == "" ==> NTubes() == old(NTubes()) + panel.NTubes()
      ensures DistinctKeys(old(panels)) ==> DistinctKeys(panels)
    {
      var key := name;
      if key == "" {
        key := NextName(Keys(panels));
        ghost var ps := Values(panels);
        assert (ps + [panel])[..|ps|] == ps;
        assert TubeCount(ps + [panel]) == TubeCount(ps) + panel.NTubes();
        panels := Put(panels, key, panel);
        assert Values(panels) == ps + [panel];
      } else {
        panels := Put(panels, key, panel);
      }
    }

    /** `set_paging`: number the tubes in order and tell each to page. A tube that
        occurs more than once keeps the number of its last occurrence. */
    method SetPaging(page: bool)
      modifies Tubes()`page, Tubes()`pagePrefix
      ensures Tubes() == old(Tubes())
      ensures var ts := Tubes(); forall j :: 0 <= j < |ts| ==>
        ts[j].page == page && ts[j].pagePrefix == IntToString(LastIndexOf(ts, ts[j])) + "_"
      ensures var ts := Tubes(); (forall a, b :: 0 <= a < b < |ts| ==> ts[a] != ts[b]) ==>
        forall j :: 0 <= j < |ts| ==> ts[j].pagePrefix == IntToString(j) + "_"
    {
      var ts := Tubes();
      ghost var ps := Values(panels);
      PageAll(ts, page);
      assert unchanged(this) && unchanged(ps);
      assert Tubes() == ts;
      LastIndexOfEachDistinct(ts);
    }
  }
}
