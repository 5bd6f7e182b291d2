/** The exceptions the receiver data model raises, one constructor per distinct
    failure of srlife/receiver.py. */
module Errors {

  datatype Error =
    /** `ndim`, `dim`, `_check_rdim`: the abstraction is not "3D", "2D" or "1D". */
    | UnknownAbstraction(abstraction: string)
    /** `make_2D`, `make_1D`: the slice or ray height is outside [0, h]. */
    | HeightOutOfRange
    /** `_check_rdim`: a node result does not have the shape of the abstraction. */
    | ResultShapeMismatch
    /** `add_quadrature_results`: the leading dimension is not ntime. */
    | QuadratureTimeAxis
    /** `add_axial_results`: the shape is not (ntime, nz). */
    | AxialShapeMismatch
    /** `set_times`: an existing node result has a different number of times. */
    | IncompatibleTimes
    /** `add_flowpath`: a listed panel is not in the receiver. */
    | PanelMissing(panel: string)
    /** `set_bc`: the BC radius or height does not match the chosen wall. */
    | BCGeometryMismatch(location: string)
    /** `set_bc`: the location is neither "inner" nor "outer". */
    | UnknownWallLocation(location: string)
    /** `ThermalBC.load`: the stored type tag names no BC class. */
    | UnknownBCType(tag: string)
    /** `surface_elements`: numpy refuses the element grid (fewer than two radial
        nodes, or no axial nodes in 3D). */
    | DegenerateGrid
}
