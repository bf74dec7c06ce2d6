/**
 * `DeepModelBase<DP, ODIM>` of deepmd/DeepModelBase.cpp: the collective variable shared by
 * every deep-model action. Its constructor reads the action's configuration; its
 * `calculate` packs the requested atoms into the engine's input buffers, evaluates the
 * engine and scatters the results into the action's components.
 */
module DeepModel {
  import opened Wrappers
  import opened IndexConversion
  import opened Host
  import opened Engine
  import opened Packing
  import Units

  /** What the action line supplies: ATOMS (possibly empty), the NOPBC flag and UNIT_CVT (possibly absent). */
  datatype Config = Config(atoms: seq<nat>, nopbc: bool, unitCvt: Option<real>)

  /** The host's units as multiples of its defaults (nm, kJ/mol). */
  datatype HostUnits = HostUnits(length: real, energy: real)

  /** The value `output_unit` holds until UNIT_CVT or a default replaces it. */
  const UnsetUnit: real := -1.0

  /** The indices 0, 1, ..., n - 1, in order. */
  function AllAtoms(n: nat): (r: seq<nat>)
    ensures |r| == n && forall i :: 0 <= i < n ==> r[i] == i
  {
    seq(n, i requires 0 <= i < n => i)
  }

  /** The atoms an action works on: the ATOMS list, or every atom of the system when it is empty. */
  function SelectedAtoms(atoms: seq<nat>, nmdatoms: nat): seq<nat>
  {
    if |atoms| == 0 then AllAtoms(nmdatoms) else atoms
  }

  /** An empty list selects the whole system in order; any other list is kept exactly. */
  lemma SelectedAtomsDefault(atoms: seq<nat>, nmdatoms: nat)
    ensures |atoms| == 0 ==>
      (|SelectedAtoms(atoms, nmdatoms)| == nmdatoms && forall i :: 0 <= i < nmdatoms ==> SelectedAtoms(atoms, nmdatoms)[i] == i)
    ensures |atoms| > 0 ==> SelectedAtoms(atoms, nmdatoms) == atoms
  {
  }

  /** `output_unit` after the base constructor: UNIT_CVT when supplied, the sentinel otherwise. */
  function InitialOutputUnit(unitCvt: Option<real>): real
  {
    match unitCvt
    case Some(u) => u
    case None => UnsetUnit
  }

  /** `output_unit` after a specialization's `if (output_unit < 0) output_unit = default`. */
  function ResolvedOutputUnit(unitCvt: Option<real>, default: real): (r: real)
    ensures unitCvt.Some? && unitCvt.value >= 0.0 ==> r == unitCvt.value
    ensures unitCvt.None? || unitCvt.value < 0.0 ==> r == default
  {
    var u := InitialOutputUnit(unitCvt);
    if u < 0.0 then default else u
  }

  /** The atom and box buffers of one evaluation, and the engine's answer to them. */
  function Evaluation(model: Model, atype: seq<int>, nopbc: bool, lengthUnit: real, positions: seq<Vector>, box: Tensor): (r: TensorOutput)
    requires lengthUnit != 0.0
  {
    Evaluate(model, PackedCoords(positions, lengthUnit), atype, PackedBox(nopbc, box, lengthUnit))
  }

  class DeepModelBase {
    /** The template parameter ODIM: the number of output channels. */
    const odim: Uint32
    /** `dp`, the engine after `init(graph_file)`. */
    const model: Model
    /** The action's components, as the host stores them. */
    const components: Components
    var atoms: seq<nat>
    var nopbc: bool
    var atype: seq<int>
    var outputUnit: real
    var lengthUnit: real

    /** Everything the base constructor establishes, before a specialization adjusts the unit and components. */
    ghost predicate Configured(odim: Uint32, model: Model, config: Config, units: HostUnits, nmdatoms: nat, typeTable: seq<int>)
      reads this
    {
      this.odim == odim && this.model == model && nopbc == config.nopbc && atype == typeTable &&
      atoms == SelectedAtoms(config.atoms, nmdatoms) && units.length != 0.0 &&
      lengthUnit == Units.GlobalLengthUnit / units.length
    }

    /** A fully built action: one registered component per channel, the engine matching ODIM, one type per atom. */
    ghost predicate Ready()
      reads this, components
    {
      components.Valid() && |components.channels| == odim && components.natoms == |atoms| &&
      odim > 0 && OutputDim(model) == odim && WellShaped(model) && lengthUnit > 0.0 && |atype| == |atoms|
    }

    /** The constructor up to its final check: units, flags, the atom list, the engine and the type list. */
    constructor (odim: Uint32, model: Model, config: Config, units: HostUnits, nmdatoms: nat, typeTable: seq<int>)
      requires units.length > 0.0
      ensures Configured(odim, model, config, units, nmdatoms, typeTable)
      ensures outputUnit == InitialOutputUnit(config.unitCvt) && lengthUnit > 0.0
      ensures fresh(components) && components.Valid() && components.channels == [] && components.natoms == 0
    {
      this.odim := odim;
      lengthUnit := Units.GlobalLengthUnit / units.length;
      outputUnit := UnsetUnit;
      atoms := config.atoms;
      nopbc := config.nopbc;
      if config.unitCvt.Some? {
        outputUnit := config.unitCvt.value;
      }
      if |config.atoms| == 0 {
        var all := new nat[nmdatoms];
        for i := 0 to nmdatoms
          invariant forall j :: 0 <= j < i ==> all[j] == j
        {
          all[i] := i;
        }
        atoms := all[..];
      }
      this.model := model;
      atype := typeTable;
      components := new Components();
    }

    /** The whole base constructor: it throws when the type list and the atom list differ in length. */
    static method Create(odim: Uint32, model: Model, config: Config, units: HostUnits, nmdatoms: nat, typeTable: seq<int>)
      returns (r: Result<DeepModelBase>)
      requires units.length > 0.0
      ensures r.Ok? <==> |typeTable| == |SelectedAtoms(config.atoms, nmdatoms)|
      ensures r.Err? ==> r.error == InvalidTypeFile
      ensures r.Ok? ==> fresh(r.value) && fresh(r.value.components)
      ensures r.Ok? ==> r.value.Configured(odim, model, config, units, nmdatoms, typeTable)
      ensures r.Ok? ==> r.value.outputUnit == InitialOutputUnit(config.unitCvt) && r.value.lengthUnit > 0.0
      ensures r.Ok? ==> r.value.components.Valid() && r.value.components.channels == [] && r.value.components.natoms == 0
    {
      var b := new DeepModelBase(odim, model, config, units, nmdatoms, typeTable);
      if |b.atype| != |b.atoms| {
        return Err(InvalidTypeFile);
      }
      return Ok(b);
    }

    /** Both `dp_compute`s: the tensor engine's buffers as returned, or the potential's energy pushed into an emptied output. */
    method DpCompute(coord: seq<real>, atype: seq<int>, box: seq<real>) returns (output: seq<real>, force: seq<real>, virial: seq<real>)
      ensures TensorOutput(output, force, virial) == Evaluate(model, coord, atype, box)
      ensures model.DeepPot? ==> output == [model.pot(coord, atype, box).energy]
    {
      match model
      case DeepPot(pot) =>
        var res := pot(coord, atype, box);
        output := [];
        output := output + [res.energy];
        force, virial := res.force, res.virial;
      case DeepTensor(_, tensor) =>
        var res := tensor(coord, atype, box);
        output, force, virial := res.output, res.force, res.virial;
    }

    /**
     * `calculate`: the converter (ODIM, N, 3) throws "Invalid dimension" when there are no atoms,
     * before anything is written; otherwise every component's value, per-atom derivatives and
     * box derivative are set from one evaluation of the engine.
     */
    method Calculate(positions: seq<Vector>, box: Tensor) returns (r: Outcome)
      requires Ready() && |positions| == |atoms|
      requires odim * |atoms| * 3 <= TwoTo32
      modifies components`values, components`derivatives, components`boxDerivatives
      ensures Ready()
      ensures r.Fail? <==> |atoms| == 0
      ensures r.Fail? ==> r.error == InvalidDimension && unchanged(components)
      ensures r.Pass? ==>
        var out := Evaluation(model, atype, nopbc, lengthUnit, positions, box);
        components.values == ChannelValues(out.output, outputUnit) &&
        components.derivatives == AtomDerivatives(out.force, odim, |atoms|, outputUnit, lengthUnit) &&
        components.boxDerivatives == BoxDerivatives(out.virial, odim, outputUnit)
    {
      var n := |positions|;
      assert n < TwoTo32 by {
        MulMono(1, odim, n * 3);
      }
      var icr := NewIndexConverter3(odim, n, 3);
      if icr.Err? {
        return Fail(icr.error);
      }
      var ic := icr.value;
      assert ic.Size() <= TwoTo32;
      var coord := PackCoordinates(ic, positions, lengthUnit);
      var boxBuf := PackBox(nopbc, box, lengthUnit);
      var output, force, virial := DpCompute(coord, atype, boxBuf);
      SetValues(components, output, outputUnit);
      SetAtomsDerivatives(components, ic, force, outputUnit, lengthUnit);
      SetBoxDerivatives(components, virial, outputUnit);
      return Pass;
    }
  }
}
