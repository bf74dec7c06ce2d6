/**
 * The stand-alone `DeepPolar` action of DeepPolar.cpp, which predates DeepModelBase. It packs
 * and unpacks exactly as the generic action does, with three observable differences: its unit
 * has no sentinel, its dimension check precedes the type check and misnames the expected
 * dimension, and its box derivatives are not multiplied by the unit.
 */
module LegacyPolar {
  import opened Wrappers
  import opened IndexConversion
  import opened Host
  import opened Engine
  import opened Packing
  import opened DeepModel
  import DeepPolar
  import Units

  /** `odim`. */
  const ODim: Uint32 := 9

  /** `polar_unit`: UNIT_CVT when supplied, `global_polar_unit` otherwise; a negative UNIT_CVT is kept. */
  function PolarUnit(unitCvt: Option<real>): (r: real)
    ensures unitCvt.Some? ==> r == unitCvt.value
    ensures unitCvt.None? ==> r == Units.GlobalPolarUnit
  {
    match unitCvt
    case Some(u) => u
    case None => Units.GlobalPolarUnit
  }

  /** The box derivative of every channel: its transposed virial block, unscaled. */
  function UnscaledBoxDerivatives(virial: seq<real>, odim: nat): seq<BoxDerivative>
    requires |virial| == odim * 9
  {
    seq(odim, k requires 0 <= k < odim => Explicit(TransposedBlock(virial, k)))
  }

  /** Virial entry x sits at entry (x % 3, (x % 9) / 3) of block x / 9. */
  lemma VirialEntry(virial: seq<real>, odim: nat, x: nat)
    requires |virial| == odim * 9 && x < |virial|
    ensures x / 9 < odim && TransposedBlock(virial, x / 9).At(x % 3, (x % 9) / 3) == virial[x]
  {
    var k := x / 9;
    QuotientBound(x, 9, odim);
    TransposedBlockAt(virial, k, x % 3, (x % 9) / 3);
  }

  /**
   * The legacy and the generic box derivatives agree exactly when the unit is 1 or the
   * virial vanishes: with any other unit the two actions report different virials.
   */
  lemma UnscaledVirialDiffers(virial: seq<real>, odim: nat, unit: real)
    requires |virial| == odim * 9
    ensures UnscaledBoxDerivatives(virial, odim) == BoxDerivatives(virial, odim, unit) <==>
      (unit == 1.0 || forall x :: 0 <= x < |virial| ==> virial[x] == 0.0)
  {
    if unit == 1.0 || forall x :: 0 <= x < |virial| ==> virial[x] == 0.0 {
      UnscaledAgrees(virial, odim, unit);
    }
    if UnscaledBoxDerivatives(virial, odim) == BoxDerivatives(virial, odim, unit) && unit != 1.0 {
      forall x | 0 <= x < |virial|
        ensures virial[x] == 0.0
      {
        UnscaledEntry(virial, odim, unit, x);
      }
    }
  }

  /** With unit 1 or a zero virial, scaling a block changes nothing. */
  lemma UnscaledAgrees(virial: seq<real>, odim: nat, unit: real)
    requires |virial| == odim * 9
    requires unit == 1.0 || forall x :: 0 <= x < |virial| ==> virial[x] == 0.0
    ensures UnscaledBoxDerivatives(virial, odim) == BoxDerivatives(virial, odim, unit)
  {
    forall k | 0 <= k < odim
      ensures TransposedBlock(virial, k).Scale(unit) == TransposedBlock(virial, k)
    {
      var t := TransposedBlock(virial, k);
      forall a, b | 0 <= a < 3 && 0 <= b < 3
        ensures t.Scale(unit).At(a, b) == t.At(a, b)
      {
        TransposedBlockAt(virial, k, a, b);
      }
    }
  }

  /** Equal box derivatives with a unit other than 1 fix every virial entry at zero. */
  lemma UnscaledEntry(virial: seq<real>, odim: nat, unit: real, x: nat)
    requires |virial| == odim * 9 && x < |virial| && unit != 1.0
    requires UnscaledBoxDerivatives(virial, odim) == BoxDerivatives(virial, odim, unit)
    ensures virial[x] == 0.0
  {
    VirialEntry(virial, odim, x);
    var t := TransposedBlock(virial, x / 9);
    assert UnscaledBoxDerivatives(virial, odim)[x / 9] == BoxDerivatives(virial, odim, unit)[x / 9];
    assert t.Scale(unit).At(x % 3, (x % 9) / 3) == virial[x] * unit;
    FixedByScale(virial[x], unit);
  }

  /** v * u == v forces v == 0 unless u is 1. */
  lemma FixedByScale(v: real, u: real)
    requires v * u == v && u != 1.0
    ensures v == 0.0
  {
    assert v * (u - 1.0) == 0.0;
  }

  /** The virial loop of this `calculate`: channel k gets its transposed block, as it is. */
  method SetUnscaledBoxDerivatives(sink: Components, virial: seq<real>)
    requires sink.Valid() && |virial| == |sink.channels| * 9
    modifies sink`boxDerivatives
    ensures sink.Valid() && sink.boxDerivatives == UnscaledBoxDerivatives(virial, |sink.channels|)
  {
    for k := 0 to |sink.channels|
      invariant sink.Valid()
      invariant forall k' :: 0 <= k' < k ==> sink.boxDerivatives[k'] == Explicit(TransposedBlock(virial, k'))
    {
      sink.SetBoxDerivatives(k, TransposedBlock(virial, k));
    }
  }

  class LegacyDeepPolar {
    const model: Model
    const components: Components
    var atoms: seq<nat>
    var nopbc: bool
    var atype: seq<int>
    var polarUnit: real
    var lengthUnit: real

    /** Everything the constructor sets up from its inputs. */
    ghost predicate Configured(model: Model, config: Config, units: HostUnits, totAtoms: nat, typeTable: seq<int>)
      reads this
    {
      this.model == model && nopbc == config.nopbc && atype == typeTable &&
      atoms == SelectedAtoms(config.atoms, totAtoms) && polarUnit == PolarUnit(config.unitCvt) &&
      units.length != 0.0 && lengthUnit == Units.GlobalLengthUnit / units.length
    }

    /** A fully built action: nine components sized for the atoms, a 9-output engine, one type per atom. */
    ghost predicate Ready()
      reads this, components
    {
      components.Valid() && components.channels == DeepPolar.Channels() && components.natoms == |atoms| &&
      model.DeepTensor? && model.outputDim == ODim && WellShaped(model) && lengthUnit > 0.0 && |atype| == |atoms|
    }

    /** The constructor up to its checks: units, channels, the atom list, the engine and the type list. */
    constructor (model: Model, config: Config, units: HostUnits, totAtoms: nat, typeTable: seq<int>)
      requires units.length > 0.0
      ensures Configured(model, config, units, totAtoms, typeTable) && lengthUnit > 0.0
      ensures fresh(components) && components.Valid() && components.channels == DeepPolar.Channels() && components.natoms == 0
    {
      var unit, lu := Units.GlobalPolarUnit, Units.GlobalLengthUnit;
      if config.unitCvt.Some? {
        unit := config.unitCvt.value;
      }
      lu := lu / units.length;
      var selected := config.atoms;
      if |config.atoms| == 0 {
        var all := new nat[totAtoms];
        for i := 0 to totAtoms
          invariant forall j :: 0 <= j < i ==> all[j] == j
        {
          all[i] := i;
        }
        selected := all[..];
      }
      var c := new Components();
      for k := 0 to ODim
        invariant fresh(c) && c.Valid() && c.natoms == 0
        invariant c.channels == DeepPolar.Channels()[..k]
      {
        c.Add(Named(DeepPolar.ComponentNames[k]));
      }
      nopbc, polarUnit, lengthUnit, components := config.nopbc, unit, lu, c;
      atoms, this.model, atype := selected, model, typeTable;
    }

    /**
     * The whole constructor: "invalid graph file" (whose message names dimension 3) unless the
     * engine has 9 outputs, then "invalid atom type file" on a length mismatch, then the atom request.
     */
    static method Create(model: Model, config: Config, units: HostUnits, totAtoms: nat, typeTable: seq<int>)
      returns (r: Result<LegacyDeepPolar>)
      requires units.length > 0.0 && model.DeepTensor? && WellShaped(model)
      ensures r.Ok? <==> model.outputDim == 9 && |typeTable| == |SelectedAtoms(config.atoms, totAtoms)|
      ensures r.Err? ==> r.error == if model.outputDim != 9 then InvalidGraphFile(3) else InvalidTypeFile
      ensures r.Ok? ==> fresh(r.value) && fresh(r.value.components)
      ensures r.Ok? ==> r.value.Ready() && r.value.Configured(model, config, units, totAtoms, typeTable)
    {
      var p := new LegacyDeepPolar(model, config, units, totAtoms, typeTable);
      if p.model.outputDim != ODim {
        return Err(InvalidGraphFile(3));
      }
      if |p.atype| != |p.atoms| {
        return Err(InvalidTypeFile);
      }
      p.components.RequestAtoms(|p.atoms|);
      return Ok(p);
    }

    /**
     * `calculate`: as the generic action, values and per-atom derivatives scaled by the polar
     * unit, but each box derivative is the transposed virial block as the engine returned it.
     */
    method Calculate(positions: seq<Vector>, box: Tensor) returns (r: Outcome)
      requires Ready() && |positions| == |atoms|
      requires ODim * |atoms| * 3 <= TwoTo32
      modifies components`values, components`derivatives, components`boxDerivatives
      ensures Ready()
      ensures r.Fail? <==> |atoms| == 0
      ensures r.Fail? ==> r.error == InvalidDimension && unchanged(components)
      ensures r.Pass? ==>
        var out := Evaluation(model, atype, nopbc, lengthUnit, positions, box);
        components.values == ChannelValues(out.output, polarUnit) &&
        components.derivatives == AtomDerivatives(out.force, ODim, |atoms|, polarUnit, lengthUnit) &&
        components.boxDerivatives == UnscaledBoxDerivatives(out.virial, ODim)
    {
      var n := |positions|;
      var icr := NewIndexConverter3(ODim, n, 3);
      if icr.Err? {
        return Fail(icr.error);
      }
      var ic := icr.value;
      var coord := PackCoordinates(ic, positions, lengthUnit);
      var boxBuf := PackBox(nopbc, box, lengthUnit);
      var res := model.tensor(coord, atype, boxBuf);
      assert res == Evaluate(model, coord, atype, boxBuf);
      SetValues(components, res.output, polarUnit);
      SetAtomsDerivatives(components, ic, res.force, polarUnit, lengthUnit);
      SetUnscaledBoxDerivatives(components, res.virial);
      return Pass;
    }
  }
}
