/**
 * The data-layout bridge of the adapter's `calculate`: packing host positions and box into
 * the engine's flat input buffers, and scattering the engine's flat output, force and virial
 * buffers into the host's components. Every flat address goes through the IndexConverter.
 */
module Packing {
  import opened Wrappers
  import opened IndexConversion
  import opened Host

  // ---------------------------------------------------------------------------------
  // Input buffers

  /** The coordinate buffer: atom after atom, x y z, each divided by the length unit. */
  function PackedCoords(positions: seq<Vector>, lengthUnit: real): (r: seq<real>)
    requires lengthUnit != 0.0
    ensures |r| == 3 * |positions|
  {
    if |positions| == 0 then []
    else
      var p := positions[|positions| - 1];
      PackedCoords(positions[..|positions| - 1], lengthUnit) + [p.x / lengthUnit, p.y / lengthUnit, p.z / lengthUnit]
  }

  /** Entry 3i + j of the coordinate buffer is coordinate j of atom i, in model units. */
  lemma {:induction false} PackedCoordsAt(positions: seq<Vector>, lengthUnit: real, i: nat, j: nat)
    requires lengthUnit != 0.0 && i < |positions| && j < 3
    ensures PackedCoords(positions, lengthUnit)[3 * i + j] == positions[i].At(j) / lengthUnit
  {
    var n := |positions|;
    if i < n - 1 {
      PackedCoordsAt(positions[..n - 1], lengthUnit, i, j);
    }
  }

  /** Multiplying a coordinate entry back by the length unit recovers the host position. */
  lemma CoordinateUnitRoundTrip(positions: seq<Vector>, lengthUnit: real, i: nat, j: nat)
    requires lengthUnit != 0.0 && i < |positions| && j < 3
    ensures PackedCoords(positions, lengthUnit)[3 * i + j] * lengthUnit == positions[i].At(j)
  {
    PackedCoordsAt(positions, lengthUnit, i, j);
  }

  /** The box buffer: empty without periodic boundaries, otherwise the nine entries row by row. */
  function PackedBox(nopbc: bool, box: Tensor, lengthUnit: real): (r: seq<real>)
    requires lengthUnit != 0.0
    ensures nopbc ==> r == []
    ensures !nopbc ==> |r| == 9 && forall i, j :: 0 <= i < 3 && 0 <= j < 3 ==> r[3 * i + j] == box.At(i, j) / lengthUnit
  {
    if nopbc then []
    else seq(9, x requires 0 <= x < 9 => box.At(x / 3, x % 3) / lengthUnit)
  }

  /** Both extents of an (nout, natom, 3) converter that fits in 32 bits are valid `int` indices. */
  lemma ExtentsFitInt32(ic: IndexConverter)
    requires ic.Valid() && ic.ndim == 3 && ic.Size() <= TwoTo32
    ensures ic.nout < TwoTo31 && ic.natom < TwoTo31
    ensures ic.Size() == ic.nout * (ic.natom * 3)
  {
    var s := ic.Size();
    MulMono(1, ic.natom, ic.nout * 3);
    MulMono(1, ic.nout, ic.natom * 3);
    assert ic.natom * (ic.nout * 3) == s && ic.nout * (ic.natom * 3) == s;
  }

  /** The coordinate loop of `calculate`: `_coord[ic.f(i, j)] = getPosition(i)[j] / length_unit`. */
  method PackCoordinates(ic: IndexConverter, positions: seq<Vector>, lengthUnit: real) returns (coord: seq<real>)
    requires ic.Valid() && ic.natom == |positions| && ic.ndim == 3 && ic.Size() <= TwoTo32
    requires lengthUnit != 0.0
    ensures coord == PackedCoords(positions, lengthUnit)
  {
    var n := |positions|;
    ExtentsFitInt32(ic);
    var buf := new real[n * 3];
    for i := 0 to n
      invariant buf[..3 * i] == PackedCoords(positions[..i], lengthUnit)
    {
      for j := 0 to 3
        invariant buf[..3 * i] == PackedCoords(positions[..i], lengthUnit)
        invariant forall j' :: 0 <= j' < j ==> buf[3 * i + j'] == positions[i].At(j') / lengthUnit
      {
        FlatAddress(ic, 0, i, j);
        var x := Flat2(ic, i, j).value;
        assert x == 3 * i + j;
        buf[x] := positions[i].At(j) / lengthUnit;
      }
      assert positions[..i + 1][..i] == positions[..i];
      assert PackedCoords(positions[..i + 1], lengthUnit) == PackedCoords(positions[..i], lengthUnit) +
        [positions[i].At(0) / lengthUnit, positions[i].At(1) / lengthUnit, positions[i].At(2) / lengthUnit];
      assert buf[..3 * (i + 1)] == buf[..3 * i] + [buf[3 * i], buf[3 * i + 1], buf[3 * i + 2]];
    }
    assert positions[..n] == positions;
    coord := buf[..];
  }

  /** The box part of `calculate`: a 9-entry buffer, cleared under NOPBC, else filled row by row. */
  method PackBox(nopbc: bool, box: Tensor, lengthUnit: real) returns (boxBuf: seq<real>)
    requires lengthUnit != 0.0
    ensures boxBuf == PackedBox(nopbc, box, lengthUnit)
  {
    var buf := new real[9];
    if nopbc {
      buf := new real[0];
    } else {
      for i := 0 to 3
        invariant forall x :: 0 <= x < 3 * i ==> buf[x] == box.At(x / 3, x % 3) / lengthUnit
      {
        for j := 0 to 3
          invariant forall x :: 0 <= x < 3 * i + j ==> buf[x] == box.At(x / 3, x % 3) / lengthUnit
        {
          buf[i * 3 + j] := box.At(i, j) / lengthUnit;
        }
      }
    }
    boxBuf := buf[..];
  }

  // ---------------------------------------------------------------------------------
  // Output buffers

  /** Each channel's value: the engine's output scaled by the output unit. */
  function ChannelValues(output: seq<real>, scale: real): seq<real>
  {
    seq(|output|, k requires 0 <= k < |output| => output[k] * scale)
  }

  /** The address `f(k, i, j)` under a converter (odim, n, 3). */
  function ForceIndex(n: nat, k: nat, i: nat, j: nat): nat
  {
    k * (n * 3) + i * 3 + j
  }

  lemma ForceIndexBound(odim: nat, n: nat, k: nat, i: nat, j: nat)
    requires k < odim && i < n && j < 3
    ensures ForceIndex(n, k, i, j) < odim * (n * 3)
  {
    MulMono(k, odim - 1, n * 3);
  }

  /** `-f * scale / length_unit`: one force entry in model units as a derivative in host units. */
  function Rescaled(f: real, scale: real, lengthUnit: real): real
    requires lengthUnit != 0.0
  {
    -f * scale / lengthUnit
  }

  /** The same, on a force vector. */
  function DerivativeOfForce(f: Vector, scale: real, lengthUnit: real): Vector
    requires lengthUnit != 0.0
  {
    Vector(Rescaled(f.x, scale, lengthUnit), Rescaled(f.y, scale, lengthUnit), Rescaled(f.z, scale, lengthUnit))
  }

  /** The derivative of channel k with respect to atom i: the negated force, rescaled. */
  function AtomDerivative(force: seq<real>, odim: nat, n: nat, k: nat, i: nat, scale: real, lengthUnit: real): Vector
    requires |force| == odim * (n * 3) && k < odim && i < n && lengthUnit != 0.0
  {
    ForceIndexBound(odim, n, k, i, 2);
    DerivativeOfForce(Vector(force[ForceIndex(n, k, i, 0)], force[ForceIndex(n, k, i, 1)], force[ForceIndex(n, k, i, 2)]),
                      scale, lengthUnit)
  }

  /** All per-atom derivatives, channel by channel. */
  function AtomDerivatives(force: seq<real>, odim: nat, n: nat, scale: real, lengthUnit: real): seq<seq<Vector>>
    requires |force| == odim * (n * 3) && lengthUnit != 0.0
  {
    seq(odim, k requires 0 <= k < odim =>
      seq(n, i requires 0 <= i < n => AtomDerivative(force, odim, n, k, i, scale, lengthUnit)))
  }

  /** Derivative entry (k, i, j) is the negated force entry 3Nk + 3i + j, times scale / length unit. */
  lemma AtomDerivativesAt(force: seq<real>, odim: nat, n: nat, scale: real, lengthUnit: real, k: nat, i: nat, j: nat)
    requires |force| == odim * (n * 3) && lengthUnit != 0.0 && k < odim && i < n && j < 3
    ensures ForceIndex(n, k, i, j) < |force|
    ensures AtomDerivatives(force, odim, n, scale, lengthUnit)[k][i].At(j) == Rescaled(force[ForceIndex(n, k, i, j)], scale, lengthUnit)
  {
    ForceIndexBound(odim, n, k, i, j);
  }

  /** No two derivative entries read the same force entry. */
  lemma ForceIndexInjective(n: nat, k: nat, i: nat, j: nat, k': nat, i': nat, j': nat)
    requires i < n && j < 3 && i' < n && j' < 3
    requires ForceIndex(n, k, i, j) == ForceIndex(n, k', i', j')
    ensures k == k' && i == i' && j == j'
  {
    var x := ForceIndex(n, k, i, j);
    Recompose(x, n, 3, k, i, j);
    Recompose(x, n, 3, k', i', j');
  }

  /** Every force entry is read by some derivative entry, the one `ic.r` names: the unpacking loses nothing. */
  lemma EveryForceEntryUsed(ic: IndexConverter, force: seq<real>, scale: real, lengthUnit: real, x: Uint32)
    requires ic.Valid() && ic.ndim == 3 && |force| == ic.nout * (ic.natom * 3) && lengthUnit != 0.0 && x < |force|
    ensures Ravel3(ic, x).Ok?
    ensures var (k, i, j) := Ravel3(ic, x).value;
      k < ic.nout && i < ic.natom && j < 3 &&
      AtomDerivatives(force, ic.nout, ic.natom, scale, lengthUnit)[k][i].At(j) == Rescaled(force[x], scale, lengthUnit)
  {
    assert x / (ic.natom * 3) < ic.nout by {
      QuotientBound(x, ic.natom * 3, ic.nout);
    }
    var (k, i, j) := Ravel3(ic, x).value;
    assert ForceIndex(ic.natom, k, i, j) == x by {
      assert Offset(ic, k, i, j) == x;
    }
    AtomDerivativesAt(force, ic.nout, ic.natom, scale, lengthUnit, k, i, j);
  }

  /** The engine's 3x3 virial block of channel k, transposed into the host's convention. */
  function TransposedBlock(virial: seq<real>, k: nat): Tensor
    requires 9 * k + 9 <= |virial|
  {
    var o := 9 * k;
    Tensor(Vector(virial[o + 0], virial[o + 3], virial[o + 6]),
           Vector(virial[o + 1], virial[o + 4], virial[o + 7]),
           Vector(virial[o + 2], virial[o + 5], virial[o + 8]))
  }

  /** Entry (a, b) of the transposed block of channel k is virial[9k + 3b + a]. */
  lemma TransposedBlockAt(virial: seq<real>, k: nat, a: nat, b: nat)
    requires 9 * k + 9 <= |virial| && a < 3 && b < 3
    ensures TransposedBlock(virial, k).At(a, b) == virial[9 * k + 3 * b + a]
  {
  }

  /** The box derivative of every channel: its transposed virial block, scaled. */
  function BoxDerivatives(virial: seq<real>, odim: nat, scale: real): seq<BoxDerivative>
    requires |virial| == odim * 9
  {
    seq(odim, k requires 0 <= k < odim => Explicit(TransposedBlock(virial, k).Scale(scale)))
  }

  /** The value loop of `calculate`: `getPntrToComponent(k)->set(_output[k] * output_unit)`. */
  method SetValues(sink: Components, output: seq<real>, scale: real)
    requires sink.Valid() && |output| == |sink.channels|
    modifies sink`values
    ensures sink.Valid() && sink.values == ChannelValues(output, scale)
  {
    for k := 0 to |output|
      invariant sink.Valid() && |sink.channels| == |output|
      invariant forall k' :: 0 <= k' < k ==> sink.values[k'] == output[k'] * scale
    {
      sink.Set(k, output[k] * scale);
    }
    assert forall k :: 0 <= k < |output| ==> ChannelValues(output, scale)[k] == output[k] * scale;
  }

  /** The three addresses `ic.f(k, i, 0..2)` are in the force buffer and hold derivative (k, i). */
  lemma AtomDerivativeAddresses(ic: IndexConverter, force: seq<real>, scale: real, lengthUnit: real, k: Int32, i: Int32)
    requires ic.Valid() && ic.ndim == 3 && ic.Size() <= TwoTo32
    requires |force| == ic.nout * (ic.natom * 3) && lengthUnit != 0.0
    requires 0 <= k < ic.nout && 0 <= i < ic.natom
    ensures Flat3(ic, k, i, 0).Ok? && Flat3(ic, k, i, 1).Ok? && Flat3(ic, k, i, 2).Ok?
    ensures Flat3(ic, k, i, 0).value < |force| && Flat3(ic, k, i, 1).value < |force| && Flat3(ic, k, i, 2).value < |force|
    ensures AtomDerivatives(force, ic.nout, ic.natom, scale, lengthUnit)[k][i] ==
      DerivativeOfForce(Vector(force[Flat3(ic, k, i, 0).value], force[Flat3(ic, k, i, 1).value], force[Flat3(ic, k, i, 2).value]),
                        scale, lengthUnit)
  {
    ExtentsFitInt32(ic);
    FlatAddress(ic, k, i, 0);
    FlatAddress(ic, k, i, 1);
    FlatAddress(ic, k, i, 2);
    var n := ic.natom;
    assert Flat3(ic, k, i, 0).value == ForceIndex(n, k, i, 0);
    assert Flat3(ic, k, i, 1).value == ForceIndex(n, k, i, 1);
    assert Flat3(ic, k, i, 2).value == ForceIndex(n, k, i, 2);
  }

  /** The force loop of `calculate`: derivative (k, i) from `_force[ic.f(k, i, 0..2)]`. */
  method SetAtomsDerivatives(sink: Components, ic: IndexConverter, force: seq<real>, scale: real, lengthUnit: real)
    requires sink.Valid() && ic.Valid() && ic.ndim == 3 && ic.Size() <= TwoTo32
    requires |sink.channels| == ic.nout && sink.natoms == ic.natom
    requires |force| == ic.nout * (ic.natom * 3) && lengthUnit != 0.0
    modifies sink`derivatives
    ensures sink.Valid() && sink.derivatives == AtomDerivatives(force, ic.nout, ic.natom, scale, lengthUnit)
  {
    var odim, n := ic.nout, ic.natom;
    ExtentsFitInt32(ic);
    ghost var want := AtomDerivatives(force, odim, n, scale, lengthUnit);
    for k := 0 to odim
      invariant sink.Valid() && |sink.channels| == odim && sink.natoms == n
      invariant forall k' :: 0 <= k' < k ==> sink.derivatives[k'] == want[k']
    {
      for i := 0 to n
        invariant sink.Valid() && |sink.channels| == odim && sink.natoms == n
        invariant forall k' :: 0 <= k' < k ==> sink.derivatives[k'] == want[k']
        invariant forall i' :: 0 <= i' < i ==> sink.derivatives[k][i'] == want[k][i']
      {
        AtomDerivativeAddresses(ic, force, scale, lengthUnit, k, i);
        var f0, f1, f2 := force[Flat3(ic, k, i, 0).value], force[Flat3(ic, k, i, 1).value], force[Flat3(ic, k, i, 2).value];
        sink.SetAtomsDerivatives(k, i, DerivativeOfForce(Vector(f0, f1, f2), scale, lengthUnit));
      }
      assert sink.derivatives[k] == want[k];
    }
  }

  /** The virial loop of `calculate`: channel k gets its transposed block, times the output unit. */
  method SetBoxDerivatives(sink: Components, virial: seq<real>, scale: real)
    requires sink.Valid() && |virial| == |sink.channels| * 9
    modifies sink`boxDerivatives
    ensures sink.Valid() && sink.boxDerivatives == BoxDerivatives(virial, |sink.channels|, scale)
  {
    var odim := |sink.channels|;
    for k := 0 to odim
      invariant sink.Valid()
      invariant forall k' :: 0 <= k' < k ==> sink.boxDerivatives[k'] == Explicit(TransposedBlock(virial, k').Scale(scale))
    {
      sink.SetBoxDerivatives(k, TransposedBlock(virial, k).Scale(scale));
    }
  }
}
