/**
 * The stand-alone mock `DeepDipole` action of DeepDipole.cpp. It initialises and checks an
 * engine but never evaluates it: its dipole is the plain sum of the atom positions, whose
 * derivative with respect to every atom is the unit vector of that component.
 */
module LegacyDipole {
  import opened Wrappers
  import opened Host
  import opened Engine
  import opened DeepModel

  /** The components it registers, in order. */
  const Channels: seq<Channel> := [Named("x"), Named("y"), Named("z")]

  const UnitX: Vector := Vector(1.0, 0.0, 0.0)
  const UnitY: Vector := Vector(0.0, 1.0, 0.0)
  const UnitZ: Vector := Vector(0.0, 0.0, 1.0)

  /** `tot_dipole`: the sum of the positions, accumulated from the first atom on. */
  function Sum(positions: seq<Vector>): Vector
  {
    if |positions| == 0 then ZeroVector
    else Sum(positions[..|positions| - 1]).Plus(positions[|positions| - 1])
  }

  /**
   * Moving one atom by h moves the sum by h: the dipole is linear in each position with
   * slope one in its own component and zero in the others, which is what the unit derivatives state.
   */
  lemma {:induction false} SumShift(positions: seq<Vector>, i: nat, h: Vector)
    requires i < |positions|
    ensures Sum(positions[i := positions[i].Plus(h)]) == Sum(positions).Plus(h)
  {
    var n := |positions|;
    var moved := positions[i := positions[i].Plus(h)];
    assert moved[..n - 1] == if i < n - 1 then positions[..n - 1][i := positions[i].Plus(h)] else positions[..n - 1];
    if i < n - 1 {
      SumShift(positions[..n - 1], i, h);
    }
  }

  class LegacyDeepDipole {
    const model: Model
    const components: Components
    var atoms: seq<nat>
    var nopbc: bool

    /** A fully built action: x, y, z registered and sized for the atoms. */
    ghost predicate Ready()
      reads this, components
    {
      components.Valid() && components.channels == Channels && components.natoms == |atoms|
    }

    /** The constructor up to its check: the flags, the atom list as given, and the three components. */
    constructor (model: Model, config: Config)
      ensures this.model == model && atoms == config.atoms && nopbc == config.nopbc
      ensures fresh(components) && components.Valid() && components.channels == Channels && components.natoms == 0
    {
      var c := new Components();
      c.Add(Named("x"));
      c.Add(Named("y"));
      c.Add(Named("z"));
      this.model, atoms, nopbc, components := model, config.atoms, config.nopbc, c;
    }

    /** The whole constructor: "invalid graph file" unless the engine has 3 outputs, then the atom request. */
    static method Create(model: Model, config: Config) returns (r: Result<LegacyDeepDipole>)
      ensures r.Ok? <==> OutputDim(model) == 3
      ensures r.Err? ==> r.error == InvalidGraphFile(3)
      ensures r.Ok? ==> fresh(r.value) && fresh(r.value.components)
      ensures r.Ok? ==> r.value.Ready() && r.value.model == model && r.value.atoms == config.atoms && r.value.nopbc == config.nopbc
    {
      var d := new LegacyDeepDipole(model, config);
      if OutputDim(d.model) != 3 {
        return Err(InvalidGraphFile(3));
      }
      d.components.RequestAtoms(|d.atoms|);
      return Ok(d);
    }

    /**
     * `calculate`: the components are the sums of the x, y and z coordinates, unscaled; every
     * atom's derivatives are the unit vectors; the box derivatives are left to the host.
     */
    method Calculate(positions: seq<Vector>)
      requires Ready() && |positions| == |atoms|
      modifies components`values, components`derivatives, components`boxDerivatives
      ensures Ready()
      ensures components.values == [Sum(positions).x, Sum(positions).y, Sum(positions).z]
      ensures components.derivatives == [seq(|atoms|, _ => UnitX), seq(|atoms|, _ => UnitY), seq(|atoms|, _ => UnitZ)]
      ensures components.boxDerivatives == [FromPositions, FromPositions, FromPositions]
    {
      var n := |positions|;
      var total := ZeroVector;
      for i := 0 to n
        invariant total == Sum(positions[..i])
      {
        assert positions[..i + 1][..i] == positions[..i];
        total := total.Plus(positions[i]);
      }
      assert positions[..n] == positions;
      for i := 0 to n
        invariant Ready()
        invariant forall i' :: 0 <= i' < i ==>
          components.derivatives[0][i'] == UnitX && components.derivatives[1][i'] == UnitY && components.derivatives[2][i'] == UnitZ
      {
        components.SetAtomsDerivatives(0, i, UnitX);
        components.SetAtomsDerivatives(1, i, UnitY);
        components.SetAtomsDerivatives(2, i, UnitZ);
      }
      assert components.derivatives[0] == seq(n, _ => UnitX);
      assert components.derivatives[1] == seq(n, _ => UnitY);
      assert components.derivatives[2] == seq(n, _ => UnitZ);
      components.SetBoxDerivativesNoPbc(0);
      components.SetBoxDerivativesNoPbc(1);
      components.SetBoxDerivativesNoPbc(2);
      components.Set(0, total.x);
      components.Set(1, total.y);
      components.Set(2, total.z);
    }
  }
}
