/** `DeepPolar` of deepmd/DeepPolar.cpp: the base action over a tensor model of output dimension 9. */
module DeepPolar {
  import opened Wrappers
  import opened IndexConversion
  import opened Host
  import opened Engine
  import opened DeepModel
  import Units

  /** ODIM of `DeepModelBase<deepmd::DeepTensor, 9>`. */
  const ODim: Uint32 := 9

  /** `cpnts`: the component names of the 3x3 tensor, row by row. */
  const ComponentNames: seq<string> := ["xx", "xy", "xz", "yx", "yy", "yz", "zx", "zy", "zz"]

  /** The components it registers, in channel order. */
  function Channels(): seq<Channel>
  {
    seq(9, k requires 0 <= k < 9 => Named(ComponentNames[k]))
  }

  /** The names of the three axes. */
  const Axes: string := "xyz"

  /** Channel 3 * row + col is the tensor entry (row, col): its name spells the two axes. */
  lemma ChannelOfEntry(row: nat, col: nat)
    requires row < 3 && col < 3
    ensures 3 * row + col < |ComponentNames|
    ensures ComponentNames[3 * row + col] == [Axes[row], Axes[col]]
  {
    if row == 0 {
      assert ComponentNames[..3] == ["xx", "xy", "xz"];
    } else if row == 1 {
      assert ComponentNames[3..6] == ["yx", "yy", "yz"];
    } else {
      assert ComponentNames[6..] == ["zx", "zy", "zz"];
    }
  }

  /**
   * The constructor: the base setup (which may throw on the type list), the default
   * polarizability unit, the nine components, then "invalid graph file" unless the model has 9 outputs.
   */
  method New(tensor: TensorCompute, outputDim: nat, config: Config, units: HostUnits, nmdatoms: nat, typeTable: seq<int>)
    returns (r: Result<DeepModelBase>)
    requires units.length > 0.0 && WellShaped(DeepTensor(outputDim, tensor))
    ensures r.Ok? <==> |typeTable| == |SelectedAtoms(config.atoms, nmdatoms)| && outputDim == 9
    ensures r.Err? ==> r.error == if |typeTable| != |SelectedAtoms(config.atoms, nmdatoms)| then InvalidTypeFile else InvalidGraphFile(9)
    ensures r.Ok? ==> fresh(r.value) && fresh(r.value.components)
    ensures r.Ok? ==> r.value.Ready() && r.value.Configured(ODim, DeepTensor(outputDim, tensor), config, units, nmdatoms, typeTable)
    ensures r.Ok? ==> r.value.outputUnit == ResolvedOutputUnit(config.unitCvt, Units.GlobalPolarUnit)
    ensures r.Ok? ==> r.value.components.channels == Channels()
  {
    var b := DeepModelBase.Create(ODim, DeepTensor(outputDim, tensor), config, units, nmdatoms, typeTable);
    if b.Err? {
      return Err(b.error);
    }
    var m := b.value;
    if m.outputUnit < 0.0 {
      m.outputUnit := Units.GlobalPolarUnit;
    }
    for k := 0 to ODim
      invariant m.Configured(ODim, DeepTensor(outputDim, tensor), config, units, nmdatoms, typeTable)
      invariant m.outputUnit == ResolvedOutputUnit(config.unitCvt, Units.GlobalPolarUnit) && m.lengthUnit > 0.0
      invariant m.components.Valid() && m.components.natoms == 0
      invariant m.components.channels == seq(k, i requires 0 <= i < k => Named(ComponentNames[i]))
    {
      m.components.Add(Named(ComponentNames[k]));
    }
    if m.model.outputDim != ODim {
      return Err(InvalidGraphFile(9));
    }
    m.components.RequestAtoms(|m.atoms|);
    return Ok(m);
  }
}
