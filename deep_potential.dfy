/** `DeepPotential` of deepmd/DeepPotential.cpp: the base action over a potential, with one unnamed value. */
module DeepPotential {
  import opened Wrappers
  import opened Host
  import opened Engine
  import opened DeepModel
  import Units

  /** ODIM of `DeepModelBase<deepmd::DeepPot, 1>`. */
  const ODim: nat := 1

  /** The energy conversion used when UNIT_CVT is absent or negative. */
  function DefaultUnit(units: HostUnits): real
    requires units.energy != 0.0
  {
    Units.GlobalEnergyUnit / units.energy
  }

  /**
   * The constructor: the base setup (which may throw on the type list), then the default
   * energy unit, one unnamed value and the atom request. There is no output-dimension check.
   */
  method New(pot: PotCompute, config: Config, units: HostUnits, nmdatoms: nat, typeTable: seq<int>)
    returns (r: Result<DeepModelBase>)
    requires units.length > 0.0 && units.energy > 0.0 && WellShaped(DeepPot(pot))
    ensures r.Ok? <==> |typeTable| == |SelectedAtoms(config.atoms, nmdatoms)|
    ensures r.Err? ==> r.error == InvalidTypeFile
    ensures r.Ok? ==> fresh(r.value) && fresh(r.value.components)
    ensures r.Ok? ==> r.value.Ready() && r.value.Configured(ODim, DeepPot(pot), config, units, nmdatoms, typeTable)
    ensures r.Ok? ==> r.value.outputUnit == ResolvedOutputUnit(config.unitCvt, DefaultUnit(units))
    ensures r.Ok? ==> r.value.components.channels == [Unnamed]
  {
    var b := DeepModelBase.Create(ODim, DeepPot(pot), config, units, nmdatoms, typeTable);
    if b.Err? {
      return Err(b.error);
    }
    var m := b.value;
    if m.outputUnit < 0.0 {
      m.outputUnit := DefaultUnit(units);
    }
    m.components.Add(Unnamed);
    m.components.RequestAtoms(|m.atoms|);
    return Ok(m);
  }
}
