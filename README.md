# deepmd-plumed adapter, modelled in Dafny

deepmd-plumed exposes a machine-learned DeePMD model as a collective variable of the
PLUMED molecular-dynamics plugin:
- DEEPPOT is a potential energy;
- DEEPDIPOLE is a dipole vector;
- DEEPPOLAR is a polarizability tensor.

Every timestep, the action's `calculate` does four things:
1. It packs the positions of the selected atoms and the simulation box into the engine's flat
   buffers, in model length units.
2. It evaluates the inference engine.
3. It scatters the engine's flat output, force and virial buffers back into the host's
   components. Each component gets a value, one derivative per atom and a box derivative.
4. It converts every quantity into host units on the way.

Every flat address goes through one addressing law, the `IndexConverter`. Its converter
(nout, natom, ndim) lays triples out row-major, with the channel varying slowest.

This project models that bridge:
- `index_converter.dfy` holds the `IndexConverter` of Common.h / Common.cpp. It uses the
  source's exact 32-bit semantics: `int` indices, `unsigned` extents and addresses, the
  wrap-around of negative indices, and the unchecked channel bound when there is one channel.
- `packing.dfy` holds the packing and unpacking loops of `calculate`, as methods over
  arrays and host components. Each is proved equal to a specification function. The lemmas
  about the specification functions cover:
  - address arithmetic;
  - that no force entry is read twice or left unused;
  - the transposition of the virial blocks;
  - the unit round trip.
- `deep_model_base.dfy` holds `DeepModelBase<DP, ODIM>`:
  - its constructor: the length unit, the `-1` sentinel for the output unit, UNIT_CVT, the
    default "all atoms" list, and the type-list check;
  - both `dp_compute`s: the tensor engine's buffers as they are, or the potential's bare
    energy lifted into a one-element vector;
  - `calculate`: it fails with "Invalid dimension" when there are no atoms, before anything
    is written.
- `deep_potential.dfy`, `deep_dipole.dfy` and `deep_polar.dfy` hold the three
  specializations. Each has its default unit, its registered components and its
  output-dimension check.
- `legacy_polar.dfy` holds the stand-alone `DeepPolar` of the top-level DeepPolar.cpp. It
  differs from the generic action in three ways:
  - a negative UNIT_CVT is kept as it is;
  - the dimension check comes before the type check, and its message names dimension 3;
  - its box derivatives are not multiplied by the unit. A lemma shows this differs from the
    generic action unless the unit is 1 or the virial is zero.
- `legacy_dipole.dfy` holds the mock `DeepDipole` of the top-level DeepDipole.cpp. Its
  dipole is the sum of the positions, and its derivatives are unit vectors.
- `host.dfy` and `engine.dfy` model PLUMED and the DeePMD engine:
  - PLUMED's vectors, tensors and per-action components form a class whose methods update
    its fields;
  - the DeePMD engines are opaque functions with their buffer-length contracts.
- `units.dfy` holds the unit constants of Common.h.
- `wrappers.dfy` holds `Option`, `Result` and the errors the adapter throws.

Every generic virial, the potential's included, is scaled by `output_unit` alone
(deepmd/DeepModelBase.cpp:141-148). Coordinates are addressed with the 2-D `f(i, j)` of the
(ODIM, N, 3) converter, which is `f(0, i, j)` (deepmd/DeepModelBase.cpp:98-103).

## Model

| member | source | states |
|---|---|---|
| IndexConversion.AsUint32 | Common.cpp:45 | an `unsigned` result is the value modulo 2^32; any value already in range is unchanged |
| IndexConversion.AsInt32 | Common.cpp:37-39 | storing an `unsigned` conditional into an `int` keeps the value modulo 2^32 and leaves any `int`-range value unchanged |
| IndexConversion.NewIndexConverter2 | Common.h:43-45 | the 2-D constructor succeeds exactly when both extents are positive and then has one channel; otherwise it throws "Invalid dimension" |
| IndexConversion.NewIndexConverter3 | Common.h:46-48 | the 3-D constructor succeeds exactly when all three extents are positive; otherwise it throws "Invalid dimension" |
| IndexConversion.Flat3 | Common.cpp:29-46 | `f` succeeds exactly when the resolved indices are in range, where the channel bound is skipped when nout is 1; otherwise it throws "Index out of range!" |
| IndexConversion.Flat2 | Common.cpp:19-27 | the 2-D `f` is the 3-D `f` at channel 0: it succeeds exactly when atom and dimension resolve in range, and then yields atom·ndim + dim mod 2^32 |
| IndexConversion.Ravel3 | Common.cpp:61-74 | `r` succeeds exactly when the quotient channel is below nout or nout is 1; the atom and dimension it yields are in range, and re-encoding the triple gives the address back |
| IndexConversion.Ravel2 | Common.cpp:48-59 | the 2-D `r` succeeds exactly when the address lies in channel 0; it agrees with the 3-D `r` and re-encodes to the address |
| IndexConversion.NegativeIndexWraps | Common.cpp:37-39 | a negative index whose wrapped value fits in an `int` is replaced by extent + index |
| IndexConversion.TooNegativeIndexFails | Common.cpp:37-44 | an index below −extent on any axis makes `f` throw |
| IndexConversion.FlatNegativeIndex | Common.cpp:37-45 | `f` at negative indices equals `f` at the wrapped indices, on all axes at once |
| IndexConversion.ResolveIsWrap | Common.cpp:37-39 | the source's unsigned wrap-around of an index agrees with mathematical wrapping and is idempotent |
| IndexConversion.FlatAddress | Common.cpp:40-45 | for in-range indices of a converter that fits in 32 bits, `f` succeeds with the row-major address, which lies inside the buffer |
| IndexConversion.FlatInRange | Common.cpp:40-45 | an in-range triple always encodes to its row-major offset reduced modulo 2^32 |
| IndexConversion.SingletonChannelUnchecked | Common.cpp:40 | with one channel every non-negative channel is accepted, and from channel 1 on the address lies past the end of the buffer |
| IndexConversion.RavelOfFlat | Common.cpp:29-74 | `r(f(o, a, d)) == (o, a, d)` for every in-range triple |
| IndexConversion.FlatOfRavel | Common.cpp:29-74 | `f(r(x)) == x` for every buffer address below 2^31 |
| IndexConversion.FlatOfRavelNeedsInt32 | Common.cpp:33-72 | at address 2^31 the decoded `unsigned` channel turns negative as an `int`, and `f` gives a different address |
| IndexConversion.Ravel2OfFlat2 | Common.cpp:19-59 | the 2-D `r` inverts the 2-D `f` |
| Host.Vector.Plus | DeepDipole.cpp:101-104 | vector addition is componentwise |
| Host.Tensor.Scale | deepmd/DeepModelBase.cpp:143-147 | scaling a tensor scales every entry |
| Host.Components.constructor | deepmd/DeepModelBase.cpp:27-28 | a fresh colvar has no components and no atoms |
| Host.Components.Add | deepmd/DeepDipole.cpp:56-58 | registering a component appends it with value 0, zero derivatives for every atom and a zero box derivative, and keeps every existing entry |
| Host.Components.RequestAtoms | deepmd/DeepPotential.cpp:51 | requesting n atoms resets every component's derivatives to n zero vectors and changes nothing else: components, values and box derivatives stay |
| Host.Components.Set | deepmd/DeepModelBase.cpp:121-123 | setting a value changes only that component's value |
| Host.Components.SetAtomsDerivatives | deepmd/DeepModelBase.cpp:127-134 | setting a derivative changes only that component's entry for that atom |
| Host.Components.SetBoxDerivatives | deepmd/DeepModelBase.cpp:141-148 | setting a box derivative changes only that component's box derivative |
| Host.Components.SetBoxDerivativesNoPbc | DeepDipole.cpp:113-115 | handing a box derivative to the host changes only that component's box derivative |
| Engine.Evaluate | deepmd/DeepModelBase.cpp:152-179 | a well-shaped engine yields ODIM outputs, ODIM·3N forces and ODIM·9 virial entries; a tensor engine's buffers pass through unchanged; a potential's energy becomes the single output, and its force and virial pass through |
| Packing.PackedCoords | deepmd/DeepModelBase.cpp:96 | the coordinate buffer holds 3 entries per atom |
| Packing.PackedCoordsAt | deepmd/DeepModelBase.cpp:101-105 | entry 3i + j is coordinate j of atom i divided by the length unit |
| Packing.CoordinateUnitRoundTrip | deepmd/DeepModelBase.cpp:101-105 | multiplying a coordinate entry by the length unit recovers the host position |
| Packing.PackedBox | deepmd/DeepModelBase.cpp:106-116 | under NOPBC the box buffer is empty; otherwise it holds the nine box entries row by row, in model units |
| Packing.PackCoordinates | deepmd/DeepModelBase.cpp:100-105 | the coordinate loop, writing through `ic.f(i, j)`, yields exactly the coordinate buffer |
| Packing.PackBox | deepmd/DeepModelBase.cpp:106-116 | the box code yields exactly the box buffer |
| Packing.AtomDerivativesAt | deepmd/DeepModelBase.cpp:125-136 | derivative entry (k, i, j) is −force[3N·k + 3i + j]·unit / length unit, and that entry exists |
| Packing.ForceIndexInjective | deepmd/DeepModelBase.cpp:130-132 | no two derivative entries read the same force entry |
| Packing.EveryForceEntryUsed | deepmd/DeepModelBase.cpp:125-136 | every force entry is read by the derivative entry that `ic.r` names for its address |
| Packing.TransposedBlockAt | deepmd/DeepModelBase.cpp:143-146 | entry (a, b) of channel k's box derivative is virial[9k + 3b + a]: the block is transposed |
| Packing.SetValues | deepmd/DeepModelBase.cpp:121-123 | after the value loop, component k holds output[k]·unit |
| Packing.AtomDerivativeAddresses | deepmd/DeepModelBase.cpp:127-134 | the three addresses `ic.f(k, i, 0..2)` are valid and hold the force of derivative (k, i) |
| Packing.SetAtomsDerivatives | deepmd/DeepModelBase.cpp:124-136 | after the force loop, every component's derivatives are the negated, rescaled forces |
| Packing.SetBoxDerivatives | deepmd/DeepModelBase.cpp:137-149 | after the virial loop, every component's box derivative is its transposed block times the unit |
| DeepModel.AllAtoms | deepmd/DeepModelBase.cpp:48-52 | the default atom list is 0, 1, …, n − 1 |
| DeepModel.SelectedAtomsDefault | deepmd/DeepModelBase.cpp:47-56 | an empty ATOMS list selects the whole system in order; any other list is kept exactly |
| DeepModel.ResolvedOutputUnit | deepmd/DeepPotential.cpp:44-46 | starting from the base constructor's UNIT_CVT or −1 sentinel, the unit is UNIT_CVT when it is given and non-negative, and the specialization's default when it is absent or negative |
| DeepModel.DeepModelBase.constructor | deepmd/DeepModelBase.cpp:25-76 | the base constructor sets the length unit, the output unit (UNIT_CVT or the −1 sentinel), the flags, the selected atoms, the engine and the type list |
| DeepModel.DeepModelBase.Create | deepmd/DeepModelBase.cpp:25-85 | construction throws "invalid atom type file" exactly when the type list and the selected atoms differ in length |
| DeepModel.DeepModelBase.DpCompute | deepmd/DeepModelBase.cpp:152-179 | both `dp_compute`s yield the engine's evaluation; for a potential the output is exactly the one energy |
| DeepModel.DeepModelBase.Calculate | deepmd/DeepModelBase.cpp:87-150 | `calculate` throws "Invalid dimension" exactly when there are no atoms and then changes nothing; otherwise values, derivatives and box derivatives are those of one evaluation on the packed buffers |
| DeepPotential.New | deepmd/DeepPotential.cpp:40-52 | a potential action succeeds exactly when the type list matches; its unit defaults to the energy conversion, and it has one unnamed value sized for the atoms |
| DeepDipole.New | deepmd/DeepDipole.cpp:47-65 | a dipole action succeeds exactly when the type list matches and the engine has 3 outputs, with the matching error otherwise; its unit defaults to 1, and its components are x, y, z |
| DeepPolar.New | deepmd/DeepPolar.cpp:51-69 | a polarizability action succeeds exactly when the type list matches and the engine has 9 outputs, with the matching error otherwise; its unit defaults to 1, and its components are the nine names |
| DeepPolar.ChannelOfEntry | deepmd/DeepPolar.cpp:10-14 | channel 3·row + col is named by the axes of row and col |
| LegacyPolar.PolarUnit | DeepPolar.cpp:93-102 | the polar unit is UNIT_CVT when given, even a negative one, and 1 otherwise |
| LegacyPolar.VirialEntry | DeepPolar.cpp:213-219 | every virial entry appears in the box derivative of its channel, transposed |
| LegacyPolar.UnscaledVirialDiffers | DeepPolar.cpp:213-219 | the legacy box derivatives equal the generic action's scaled ones exactly when the unit is 1 or the virial is zero |
| LegacyPolar.SetUnscaledBoxDerivatives | DeepPolar.cpp:209-220 | after the virial loop, every component's box derivative is its transposed block, unscaled |
| LegacyPolar.LegacyDeepPolar.constructor | DeepPolar.cpp:90-145 | the constructor sets the polar and length units, the nine components, the selected atoms, the engine and the type list |
| LegacyPolar.LegacyDeepPolar.Create | DeepPolar.cpp:90-159 | construction succeeds exactly when the engine has 9 outputs and the type list matches; it throws the graph error (naming 3) first, the type error second, and otherwise requests the atoms |
| LegacyPolar.LegacyDeepPolar.Calculate | DeepPolar.cpp:161-221 | `calculate` throws "Invalid dimension" exactly when there are no atoms; otherwise values and derivatives are scaled by the polar unit, and box derivatives are the unscaled transposed blocks |
| LegacyDipole.SumShift | DeepDipole.cpp:101-112 | moving one atom by h moves the summed dipole by h, which is why every derivative is a unit vector |
| LegacyDipole.LegacyDeepDipole.constructor | DeepDipole.cpp:66-80 | the constructor keeps the ATOMS list as given and registers x, y, z |
| LegacyDipole.LegacyDeepDipole.Create | DeepDipole.cpp:66-95 | construction throws the graph error exactly when the engine does not have 3 outputs, and otherwise requests the atoms |
| LegacyDipole.LegacyDeepDipole.Calculate | DeepDipole.cpp:97-119 | the values are the summed x, y, z coordinates, every derivative is the unit vector of its component, and every box derivative is left to the host |

## Left out

- `load_atype` (Common.cpp:4-16) reads the type file. It is I/O, so the type list is a parameter of every constructor.
- `makeWhole()` depends on the host's periodic images, so `calculate` receives positions that are already whole.
- `dp.init(graph_file)` and the engine's own errors (missing or corrupt graph files) are I/O. The engine is a parameter, reduced to its output dimension and the lengths of its buffers.
- The engine's computation itself and the `float`/`double` choice of `FLOAT_PREC` are not modelled. All quantities are exact reals, so rounding is not captured.
- Logging, keyword registration, `componentIsNotPeriodic` and `setNotPeriodic` are left out, because they affect nothing the model states.
- The host's unit registry (`getUnits()`) is left out. Its length and energy units are a parameter and are assumed positive.
- DeepModel.DeepModelBase.Calculate: requires ODIM·N·3 ≤ 2^32, so every buffer address fits in the `unsigned` the converter returns. Overflow of the C++ buffer sizes themselves is not modelled.
- LegacyPolar.LegacyDeepPolar.Calculate: has the same ODIM·N·3 ≤ 2^32 requirement, for the same reason.
- IndexConversion.Ravel3: on failure the C++ has already written its out-parameters before throwing. The model returns only the error, because every caller lets the exception escape.
- The commented-out "DeepWannier" `calculate` in DeepDipole.cpp (121-148) is inactive code and is not modelled.
- `requestAtoms` is modelled only as sizing the derivative arrays (Host.Components.RequestAtoms). The mapping from the ATOMS list to what `getPosition` returns is the host's, so `calculate` takes the positions of the selected atoms as its argument.
- Host.Components.constructor: models only the part of PLUMED's colvar setup that the adapter touches, its empty component list.
