/** `DeepDipole` of deepmd/DeepDipole.cpp: the base action over a tensor model of output dimension 3. */
module DeepDipole {
  import opened Wrappers
  import opened IndexConversion
  import opened Host
  import opened Engine
  import opened DeepModel
  import Units

  /** ODIM of `DeepModelBase<deepmd::DeepTensor, 3>`. */
  const ODim: Uint32 := 3

  /** `cpnts`: the component names, in channel order. */
  const ComponentNames: seq<string> := ["x", "y", "z"]

  /**
   * The constructor: the base setup (which may throw on the type list), the default dipole
   * unit, the components x, y, z, then "invalid graph file" unless the model has 3 outputs.
   */
  method New(tensor: TensorCompute, outputDim: nat, config: Config, units: HostUnits, nmdatoms: nat, typeTable: seq<int>)
    returns (r: Result<DeepModelBase>)
    requires units.length > 0.0 && WellShaped(DeepTensor(outputDim, tensor))
    ensures r.Ok? <==> |typeTable| == |SelectedAtoms(config.atoms, nmdatoms)| && outputDim == 3
    ensures r.Err? ==> r.error == if |typeTable| != |SelectedAtoms(config.atoms, nmdatoms)| then InvalidTypeFile else InvalidGraphFile(3)
    ensures r.Ok? ==> fresh(r.value) && fresh(r.value.components)
    ensures r.Ok? ==> r.value.Ready() && r.value.Configured(ODim, DeepTensor(outputDim, tensor), config, units, nmdatoms, typeTable)
    ensures r.Ok? ==> r.value.outputUnit == ResolvedOutputUnit(config.unitCvt, Units.GlobalDipoleUnit)
    ensures r.Ok? ==> r.value.components.channels == [Named("x"), Named("y"), Named("z")]
  {
    var b := DeepModelBase.Create(ODim, DeepTensor(outputDim, tensor), config, units, nmdatoms, typeTable);
    if b.Err? {
      return Err(b.error);
    }
    var m := b.value;
    if m.outputUnit < 0.0 {
      m.outputUnit := Units.GlobalDipoleUnit;
    }
    for k := 0 to ODim
      invariant m.Configured(ODim, DeepTensor(outputDim, tensor), config, units, nmdatoms, typeTable)
      invariant m.outputUnit == ResolvedOutputUnit(config.unitCvt, Units.GlobalDipoleUnit) && m.lengthUnit > 0.0
      invariant m.components.Valid() && m.components.natoms == 0
      invariant m.components.channels == seq(k, i requires 0 <= i < k => Named(ComponentNames[i]))
    {
      m.components.Add(Named(ComponentNames[k]));
    }
    if m.model.outputDim != ODim {
      return Err(InvalidGraphFile(3));
    }
    m.components.RequestAtoms(|m.atoms|);
    return Ok(m);
  }
}
