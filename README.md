# srlife receiver data model in Dafny

This project models the receiver data model of srlife, a package for the life estimation of
tubular solar receivers (`srlife/receiver.py`). A `Receiver` holds named `Panel`s and named
flow paths. A `Panel` holds named `Tube`s, each with a multiplier saying how many real tubes it
stands for. A `Tube` holds:

- its grid (nr radial, nt circumferential and nz axial nodes)
- an abstraction ("3D", "2D" or "1D") and the slice height and angle that go with it
- its time steps
- three families of named result arrays (node, quadrature and axial)
- its inner and outer thermal boundary conditions

The model covers the following:

- **Default names** (`next_name`). The next name is one more than the largest integer among the
  existing names, or "0" when none is an integer. It is proved never to clash with an existing
  name.
- **Insertion-ordered dictionaries** (`OrderedDict`). They are a sequence of key/value entries.
  Assigning a key replaces its value in place when the key is already present, and appends
  otherwise. No other entry changes.
- **Counting.** This covers the tubes of a receiver and the multiplier sum of a panel.
- **The abstraction state machine and its guards.** This covers `ndim`, `dim`, `make_2D` and
  `make_1D`.
- **Result-shape validation.** This covers `_check_rdim`, the quadrature and axial shape checks,
  and the `set_times` guard. Arrays are a shape (`seq<nat>`) plus flat data.
- **The surface-element layout** (`surface_elements`). This is the boolean surface mask over the
  flattened (radial, theta, axial) element grid, and the surface normals.
- **Thermal BC dispatch and location checks.** `ThermalBC.load` dispatches on a type tag, each
  `save` writes a tag, and `set_bc` checks the wall location and geometry.

Every `ValueError` the source raises becomes an `Err`/`Fail` value carrying an `Errors.Error`.
The methods that raise leave the state unchanged on that path, as the source does, because the
source raises before assigning.

Module layout:

| file | module | contents |
|---|---|---|
| wrappers.dfy | `Wrappers` | `Option`, `Result`, `Outcome` |
| errors.dfy | `Errors` | one constructor per error the source raises |
| names.dfy | `Names` | integer parsing and printing, `next_name` |
| ordered_dict.dfy | `OrderedDicts` | insertion-ordered dictionary |
| shapes.dfy | `Shapes` | `ndim`, `dim`, `_check_rdim` |
| surface.dfy | `Surface` | `surface_elements` |
| thermal_bc.dfy | `ThermalBCs` | BC kinds and type tags |
| receiver.dfy | `Receivers` | classes `Tube`, `Panel`, `Receiver` |

Modelling choices:

- **No name.** The source tests `if not name`, so `None` and `""` behave alike. The model passes
  `""` for "no name".
- **Surface normals.** They are symbolic. `Outward(j)` is (cos t_j, sin t_j, 0) and
  `Inward(j)` is its negation, where t_j is entry j of `np.linspace(0, 2 * np.pi, nt)`. In 1D,
  j is 0, and `AxisVector` gives the exact integer vectors [1, 0, 0] and [-1, 0, 0].
- **`np.isclose`.** `Tube.SetBC` takes it as the parameter `isClose`.

## Model

| member | source | states |
|---|---|---|
| `Names.NextName` | srlife/receiver.py:359-374 | The loop that collects the names that parse as integers computes the default name (`NextNameSpec`), and the result is not among the names. |
| `Names.NextNameValue` | srlife/receiver.py:365-374 | The result parses to an integer v. When no name parses, v is 0. Otherwise every parsed name is below v, and some name parses to v - 1 (v is the maximum plus one). |
| `Names.NextNameFresh` | srlife/receiver.py:359-374 | The default name never equals an existing name, so a default key never overwrites an entry. |
| `Names.ParseIntToString` | srlife/receiver.py:368-374 | Parsing the printed form of any integer gives back that integer (`int(str(n)) == n`). |
| `Names.ParseInt` | srlife/receiver.py:368 | `int(name)` succeeds exactly on an optional '-' followed by at least one decimal digit. A parsed value is at most 0 after a '-' and at least 0 otherwise; everything else is the `ValueError` that `next_name` skips. |
| `Names.IntToString` | srlife/receiver.py:373-374 | `str(n)` is non-empty, starts with '-' exactly when n is negative, and the rest is decimal digits without a leading zero unless it is the single digit "0". |
| `Names.ParsedIntsMembers` | srlife/receiver.py:365-370 | An integer is collected exactly when some name parses to it. |
| `Names.ParsedIntsEmpty` | srlife/receiver.py:372-373 | Nothing is collected exactly when no name parses as an integer. |
| `Names.Max` | srlife/receiver.py:374 | `max` of a non-empty list is an element of it and at least every element. |
| `OrderedDicts.Keys` | srlife/receiver.py:155 | `keys()` lists one key per entry, in insertion order. |
| `OrderedDicts.Values` | srlife/receiver.py:311 | `values()` lists one value per entry, in insertion order. |
| `OrderedDicts.KeysValuesZip` | srlife/receiver.py:117 | `keys()` and `values()` are parallel: entry i of the dictionary is key i paired with value i. |
| `OrderedDicts.Find` | srlife/receiver.py:63-64 | Finds the first entry with the key, and finds none exactly when the key is absent (`n not in self.panels.keys()`). |
| `OrderedDicts.Put` | srlife/receiver.py:157 | `d[k] = v` on an OrderedDict has these effects. Afterwards k maps to v, and every other key keeps its value. An existing key keeps its position with only its value replaced. A new key is appended at the end. Distinct keys stay distinct. |
| `Shapes.Zeros` | srlife/receiver.py:917-918 | `np.zeros(shape)` has the requested shape, holds as many values as the shape's product, and every value is 0. |
| `Shapes.LeadingDim` | srlife/receiver.py:865 | The test `shape[0] == ntime` fails on a shape with no axes (the `IndexError` case). An array that passes has ntime as its first axis and holds ntime slices of the shape that follows. |
| `Shapes.Ndim` | srlife/receiver.py:482-495 | Succeeds exactly for "3D", "2D" and "1D", giving 3, 2 and 1, and reports an unknown abstraction otherwise. |
| `Shapes.Dim` | srlife/receiver.py:498-511 | Gives (nr, nt, nz), (nr, nt, 1) or (nr, 1, 1): the first ndim counts, then ones. It fails exactly when `ndim` fails. |
| `Shapes.CheckRdim` | srlife/receiver.py:920-944 | Accepts exactly (ntime, nr, nt, nz), (ntime, nr, nt) or (ntime, nr) for 3D/2D/1D. It reports a shape mismatch for any other shape, and an unknown abstraction when there is no ndim. |
| `Shapes.CheckedShapeMatchesDim` | srlife/receiver.py:920-944 | An accepted shape has leading dimension ntime and ndim + 1 axes, and holds ntime times as many values as the `dim` grid. |
| `Surface.RadialMask` | srlife/receiver.py:554-556 | The radial mask has nr - 1 entries, true exactly at the first and the last. |
| `Surface.OnesAllTrue` | srlife/receiver.py:557 | `np.ones((n,), dtype=bool)` has n entries and none of them is false. |
| `Surface.Outer` | srlife/receiver.py:558 | `np.outer(a, b).flatten()` has len(a) * len(b) entries; `Surface.OuterAt` gives each entry. |
| `Surface.OuterAt` | srlife/receiver.py:558 | Entry e of the flattened `np.outer(a, b)` is `a[e / len(b)] and b[e % len(b)]`. |
| `Surface.FillRow` | srlife/receiver.py:580-582 | Writing the normal of one theta index in one radial layer sets exactly the nz - 1 axial elements of that row, and leaves every other element unchanged. |
| `Surface.FillRows` | srlife/receiver.py:580-582 | Writing the rows of one radial layer one after another sets exactly the block of elements of that layer to the normal of their theta index. |
| `Surface.FillLayer` | srlife/receiver.py:580-582 | Writing the normals of one radial layer sets exactly the elements of that layer to the normal of their theta index, and leaves every other element unchanged. |
| `Surface.LayerNormals` | srlife/receiver.py:578-582 | The zero-initialised normals with the innermost layer set inward and then the outermost set outward. Each element gets the `SurfaceNormal` of its radial and theta index; when nr = 2 the outward write wins. |
| `Surface.RadialLayout` | srlife/receiver.py:540-550 | The 1D branch builds the layout of the (nr - 1, 1, 1) grid. |
| `Surface.PlaneLayout` | srlife/receiver.py:552-566 | The 2D branch builds the layout of the (nr - 1, nt, 1) grid. |
| `Surface.SolidLayout` | srlife/receiver.py:568-582 | The 3D branch builds the layout of the (nr - 1, nt, nz - 1) grid. |
| `Surface.RadialIndexIsQuotient` | srlife/receiver.py:568-582 | The radial index of a flattened element is the element number divided by the size of one radial layer (nt * (nz - 1) in 3D). |
| `Surface.SurfaceMaskByDimension` | srlife/receiver.py:532-588 | The mask has nr - 1, (nr - 1) * nt or (nr - 1) * nt * (nz - 1) entries. Element e is on the surface exactly when e, e / nt or e / (nt * (nz - 1)) is 0 or nr - 2. |
| `Surface.OneDimensionalNormals` | srlife/receiver.py:540-550 | In 1D the normal is [-1, 0, 0] at element 0 and [1, 0, 0] at the last element (the last write wins when nr = 2), and zero elsewhere. The mask is true only at the two ends. |
| `ThermalBCs.KindOfTag` | srlife/receiver.py:1209-1225 | The class dispatch of `ThermalBC.load`: exactly the four tags that some `save` writes select a class, each the class whose `save` writes it. Any other tag is reported as unknown. What the selected class's `load` then does is not part of this member (see "Left out" for the film coefficient BC). |
| `ThermalBCs.KindOfTypeTag` | srlife/receiver.py:1331 | Round trip of the class dispatch: dispatching on the tag a BC's `save` writes selects that BC's own class. `HeatFluxBC` writes its tag at line 1331; the other three write theirs at lines 1445, 1548 and 1661. |
| `Receivers.KeyFor` | srlife/receiver.py:154-155 | `if not name: name = next_name(keys())`: a given name is kept, and a missing name becomes a default name that parses as an integer and is none of the existing keys. The same rule names flow paths (lines 60-61) and tubes (lines 323-324). |
| `Receivers.Tube.NTime` | srlife/receiver.py:811-818 | `ntime` is the number of time steps, `len(self.times)`. The result checks of `Tube` compare against it. |
| `Receivers.Tube.constructor` | srlife/receiver.py:413-449 | A new tube is 3D, has no times, no results, no BCs and an empty page prefix, and keeps its geometry, T0, page flag and multiplier. |
| `Receivers.Tube.SetPaging` | srlife/receiver.py:471-479 | Sets the page flag and the prefix `str(i) + "_"`. |
| `Receivers.Tube.Make2D` | srlife/receiver.py:728-741 | Succeeds exactly when 0 <= height <= h, and then the tube is 2D sliced at that height. Otherwise it reports the height error and changes nothing. |
| `Receivers.Tube.Make1D` | srlife/receiver.py:743-758 | As `Make2D`, but the tube becomes 1D and also records the angle. |
| `Receivers.Tube.SetTimes` | srlife/receiver.py:820-835 | Succeeds exactly when every node result has the new number of times as its first axis, and then the node results are aligned with the times. Otherwise the times are unchanged. Quadrature and axial results are not consulted. |
| `Receivers.Tube.AddResults` | srlife/receiver.py:837-846 | Stores the data exactly when `_check_rdim` accepts its shape, and keeps node results aligned with the times. |
| `Receivers.Tube.AddBlankResults` | srlife/receiver.py:848-856 | Stores zeros of the shape exactly when `_check_rdim` accepts it, and keeps node results aligned. |
| `Receivers.Tube.AddQuadratureResults` | srlife/receiver.py:858-868 | Stores the data exactly when its first axis is the number of times. |
| `Receivers.Tube.AddBlankQuadratureResults` | srlife/receiver.py:870-879 | Stores zeros exactly when the shape's first axis is the number of times. |
| `Receivers.Tube.AddAxialResults` | srlife/receiver.py:881-891 | Stores the data exactly when its shape is (ntime, nz). |
| `Receivers.Tube.AddBlankAxialResults` | srlife/receiver.py:893-901 | Stores zeros of shape (ntime, nz). |
| `Receivers.Tube.SetBC` | srlife/receiver.py:946-962 | Succeeds exactly for "inner" with radius r - t and height h, or "outer" with radius r and height h. It installs the BC on that wall only. On a geometry mismatch or any other location it reports the error and changes neither BC. |
| `Receivers.Tube.SurfaceElements` | srlife/receiver.py:532-588 | Succeeds exactly when the abstraction is known, nr >= 2 and, in 3D, nz >= 1. It then returns the surface mask and normals of the abstraction's element grid; a grid with no elements (nt = 0, or nz = 1 in 3D) gives empty arrays, as the source does. |
| `Receivers.SumOfUnitMultipliers` | srlife/receiver.py:295-314 | With every multiplier at its default of 1, the number of actual tubes is the number of tubes. |
| `Receivers.Panel.constructor` | srlife/receiver.py:261-264 | A new panel has no tubes and keeps its stiffness. |
| `Receivers.Panel.NTubesActual` | srlife/receiver.py:304-314 | The accumulator loop returns the sum of the tubes' multipliers. This equals `ntubes` when every multiplier is 1. |
| `Receivers.Panel.AddTube` | srlife/receiver.py:316-326 | Assigns the tube under its name, or under `next_name` of the keys when no name is given. A default name appends a new key and adds the tube's multiplier to the sum. Every other entry and the order are unchanged. |
| `Receivers.Panel.NTubes` | srlife/receiver.py:294-301 | `ntubes` of a panel is the number of its tube entries, as many as its keys and its values. |
| `Receivers.AllTubesMembers` | srlife/receiver.py:116-118 | The chained tube sequence holds exactly the tubes of the panels: each of its tubes is a tube of some panel, and every tube of every panel occurs in it. |
| `Receivers.AllTubesCount` | srlife/receiver.py:110-136 | The chained tube sequence has as many tubes as the panels have together. |
| `Receivers.Receiver.constructor` | srlife/receiver.py:41-47 | A new receiver has no panels and no flow paths. |
| `Receivers.Receiver.Tubes` | srlife/receiver.py:109-118 | `tubes` chains the panels' tube values; it has as many tubes as the panels have together. |
| `Receivers.Receiver.TubesMembers` | srlife/receiver.py:109-118 | Every tube of `tubes` belongs to some panel of the receiver, and every tube of every panel is in `tubes`. |
| `Receivers.Receiver.NTubes` | srlife/receiver.py:130-136 | `ntubes` is the sum of the panels' tube counts. |
| `Receivers.Receiver.AddFlowpath` | srlife/receiver.py:50-72 | Succeeds exactly when every listed panel is a panel of the receiver. Otherwise it reports the first missing one and leaves the flow paths unchanged. On success the path is assigned under its name or the default name. |
| `Receivers.Receiver.AddPanel` | srlife/receiver.py:147-157 | Assigns the panel under its name or the default name. A default name appends a new key and adds the panel's tubes to `ntubes`. Every other entry and the order are unchanged. |
| `Receivers.Receiver.SetPaging` | srlife/receiver.py:120-127 | Each tube gets the page flag and the number of its position in the chained tube sequence. A tube listed twice keeps its last number, and when no tube repeats each tube's number is its position. Only the tubes' `page` and `page_prefix` change; the panels and the tube sequence do not. |
| `Receivers.PageAll` | srlife/receiver.py:126-127 | The `enumerate` loop: after it, every tube of the sequence has the page flag and the prefix of the last position at which it occurs. Only `page` and `page_prefix` of those tubes change. |
| `Receivers.LastIndexOfEachDistinct` | srlife/receiver.py:126-127 | When no element repeats, every element's last position is its own position. |

## Left out

- **The damage, reliability and material models** (`srlife.damage`, `srlife.materials`). `srlife.damage` and `srlife.materials` are not part of this model.
- **HDF5 persistence.** The `save`/`load` bodies of `Receiver`, `Panel`, `Tube` and the BCs are left out; only the type tag that selects a BC class is modelled. `Receiver.load` and `Tube.load` re-add flow paths and axial results twice (srlife/receiver.py:210-242, srlife/receiver.py:1063-1071); the second assignment overwrites the first with the same value.
- **VTK output** (`write_vtk`) is file output and is left out.
- **Paging to disk.** `_setup_memmap` creates a zero-filled file-backed array when paging, and a zero array otherwise. Every stored result is therefore modelled as an in-memory value, and the file names are not modelled. One of them is spelt `name + " _axial"` (srlife/receiver.py:890), with a space.
- **The mesh, element surface areas and volumes.** These are trigonometric and square-root arithmetic on floats. `_surfacearea1d` concatenates zero-dimensional arrays (srlife/receiver.py:614), which numpy refuses.
- **Trigonometric normals.** The 2D and 3D normals are stated symbolically (`Inward(j)`, `Outward(j)`), not as cosines and sines.
- Receivers.Tube.Make2D: the height and h are reals, so NaN and the infinities are not modelled. The source's guard `height < 0.0 or height > self.h` is false for a NaN height and so accepts it (srlife/receiver.py:737); the model has no such input.
- Receivers.Tube.Make1D: the same holds for its height guard (srlife/receiver.py:753); the angle is a real and is stored unchecked, as in the source.
- Receivers.Tube.SetBC: radii, heights and times are reals without NaN or infinities. `np.isclose` is a parameter (`isClose`), so the model does not fix its tolerances.
- Names.ParseInt: accepts only an optional '-' followed by one or more ASCII digits. Python's `int()` also accepts a '+' sign, surrounding whitespace, underscores between digits and non-ASCII digits. Names of those forms are counted as integers by the source and ignored by the model. Python (3.11 and later, and the 3.7.14, 3.8.14, 3.9.14 and 3.10.7 security releases) also refuses by default to convert a string of more than 4300 digits, raising `ValueError`; `next_name` then skips that name (srlife/receiver.py:367-370), while the model parses it.
- Names.NextName: integers are unbounded and the 4300-digit limit on `str()` is not modelled. When `max(curr_ints) + 1` has more than 4300 digits, `str()` raises a `ValueError` that nothing catches (srlife/receiver.py:374), for instance for the names `["9" * 4300]`; the model returns the name instead. The default name is fresh in both.
- Names.ParseIntToString: the round trip `int(str(n)) == n` holds in Python only for integers of at most 4300 digits under the same limit; the model states it for every integer.
- **Comparisons.** The `close` methods compare floats with tolerances, for testing; they are left out.
- **Pressure BCs.** `PressureBC` and `Tube.set_pressure_bc` are left out, as are the interpolation helpers (`_make_ifn`, `_generate_ifn`, the scipy interpolators) and the BCs' time and space data. `_make_ifn`'s last branch refers to an undefined `ndata` (srlife/receiver.py:1125-1126).
- **The `FilmCoefficientConvectiveBC` constructor.** Its check `film.shape != (nz)` compares a tuple with an integer and so always raises (srlife/receiver.py:1512). `FilmCoefficientConvectiveBC.load` calls that constructor (srlife/receiver.py:1558-1570), so `ThermalBC.load` of the tag "FilmCoefficientConvective" always ends in its `ValueError`, and no such BC can reach `set_bc`. The BC constructors and their shape checks are not modelled; a `ThermalBC` is its kind plus the radius and height `set_bc` compares. `ThermalBCs.KindOfTag` therefore models only the class dispatch, and `Receivers.Tube.SetBC` accepts a film coefficient BC that the source could never build.
- **`copy_results` and `multiplier`.** `copy_results` makes two tubes share the same dictionaries, an aliasing the value-typed result maps cannot express. The `multiplier` property is the constant field `multiplier`.
- **`Panel(stiffness, ntubes_actual)`.** The second argument is accepted and ignored by the source; the model's constructor omits it.
- **Negative counts.** nr, nt and nz are natural numbers. With nr < 2, or nz < 1 in 3D, the source's `surface_elements` fails with a numpy indexing or dimension error; `Receivers.Tube.SurfaceElements` reports `DegenerateGrid` there.
- **Error classes.** The source's `ValueError` and the `IndexError` of an empty shape in `set_times` and the quadrature checks are both reported as `Err`/`Fail` values, not as distinct exception types.
- **Missing attributes.** A tube's `plane` and `angle` do not exist until `make_2D`/`make_1D` set them; the model starts them as `None`.
