/**
 * The parts of the host simulation engine (PLUMED) the adapter talks to: 3-vectors and
 * 3x3 tensors, and the components of a collective-variable action, each with a value,
 * one derivative per requested atom and a box derivative.
 */
module Host {

  /** PLUMED's `Vector`; `v[j]` is `v.At(j)`. */
  datatype Vector = Vector(x: real, y: real, z: real)
  {
    function At(j: nat): real
      requires j < 3
    {
      if j == 0 then x else if j == 1 then y else z
    }

    /** `v + w`. */
    function Plus(w: Vector): (r: Vector)
      ensures forall j :: 0 <= j < 3 ==> r.At(j) == At(j) + w.At(j)
    {
      Vector(x + w.x, y + w.y, z + w.z)
    }
  }

  /** PLUMED's `Tensor`, built row by row as its nine-argument constructor is; `t(i, j)` is `t.At(i, j)`. */
  datatype Tensor = Tensor(row0: Vector, row1: Vector, row2: Vector)
  {
    function At(i: nat, j: nat): real
      requires i < 3 && j < 3
    {
      (if i == 0 then row0 else if i == 1 then row1 else row2).At(j)
    }

    /** `t * s`. */
    function Scale(s: real): (r: Tensor)
      ensures forall i, j :: 0 <= i < 3 && 0 <= j < 3 ==> r.At(i, j) == At(i, j) * s
    {
      Tensor(Vector(row0.x * s, row0.y * s, row0.z * s),
             Vector(row1.x * s, row1.y * s, row1.z * s),
             Vector(row2.x * s, row2.y * s, row2.z * s))
    }
  }

  const ZeroVector: Vector := Vector(0.0, 0.0, 0.0)
  const ZeroTensor: Tensor := Tensor(ZeroVector, ZeroVector, ZeroVector)

  /** A registered output: the action's own value, or a named component. */
  datatype Channel =
    | Unnamed             // addValueWithDerivatives()
    | Named(name: string) // addComponentWithDerivatives(name)

  /** How a component's box derivative was last supplied. */
  datatype BoxDerivative =
    | Explicit(tensor: Tensor) // setBoxDerivatives(value, tensor)
    | FromPositions            // setBoxDerivativesNoPbc(value): the host derives it itself

  /** The components of one action, in registration order. */
  class Components {
    var channels: seq<Channel>
    var natoms: nat
    var values: seq<real>
    var derivatives: seq<seq<Vector>>
    var boxDerivatives: seq<BoxDerivative>

    ghost predicate Valid()
      reads this
    {
      |values| == |channels| && |derivatives| == |channels| && |boxDerivatives| == |channels| &&
      forall k :: 0 <= k < |derivatives| ==> |derivatives[k]| == natoms
    }

    constructor ()
      ensures Valid() && channels == [] && natoms == 0
    {
      channels, natoms := [], 0;
      values, derivatives, boxDerivatives := [], [], [];
    }

    /** Register one more output, with zero value and derivatives. */
    method Add(c: Channel)
      requires Valid()
      modifies this
      ensures Valid() && channels == old(channels) + [c] && natoms == old(natoms)
      ensures values == old(values) + [0.0]
      ensures derivatives == old(derivatives) + [seq(natoms, _ => ZeroVector)]
      ensures boxDerivatives == old(boxDerivatives) + [Explicit(ZeroTensor)]
    {
      channels := channels + [c];
      values := values + [0.0];
      derivatives := derivatives + [seq(natoms, _ => ZeroVector)];
      boxDerivatives := boxDerivatives + [Explicit(ZeroTensor)];
    }

    /** `requestAtoms`: size every component's derivative array for n atoms. */
    method RequestAtoms(n: nat)
      requires Valid()
      modifies this`natoms, this`derivatives
      ensures Valid() && channels == old(channels) && natoms == n
      ensures derivatives == seq(|channels|, _ => seq(n, _ => ZeroVector))
    {
      natoms := n;
      derivatives := seq(|channels|, _ => seq(n, _ => ZeroVector));
    }

    /** `getPntrToComponent(k)->set(v)`. */
    method Set(k: nat, v: real)
      requires Valid() && k < |channels|
      modifies this`values
      ensures Valid() && values == old(values)[k := v]
    {
      values := values[k := v];
    }

    /** `setAtomsDerivatives(getPntrToComponent(k), i, d)`. */
    method SetAtomsDerivatives(k: nat, i: nat, d: Vector)
      requires Valid() && k < |channels| && i < natoms
      modifies this`derivatives
      ensures Valid() && derivatives == old(derivatives)[k := old(derivatives)[k][i := d]]
    {
      derivatives := derivatives[k := derivatives[k][i := d]];
    }

    /** `setBoxDerivatives(getPntrToComponent(k), t)`. */
    method SetBoxDerivatives(k: nat, t: Tensor)
      requires Valid() && k < |channels|
      modifies this`boxDerivatives
      ensures Valid() && boxDerivatives == old(boxDerivatives)[k := Explicit(t)]
    {
      boxDerivatives := boxDerivatives[k := Explicit(t)];
    }

    /** `setBoxDerivativesNoPbc(getPntrToComponent(k))`. */
    method SetBoxDerivativesNoPbc(k: nat)
      requires Valid() && k < |channels|
      modifies this`boxDerivatives
      ensures Valid() && boxDerivatives == old(boxDerivatives)[k := FromPositions]
    {
      boxDerivatives := boxDerivatives[k := FromPositions];
    }
  }
}
