/**
 * The inference engines (`deepmd::DeepPot`, `deepmd::DeepTensor`) as opaque functions.
 * Nothing of their computation is modelled: only the lengths of the buffers they fill.
 */
module Engine {

  /** What `DeepTensor::compute` fills: the output vector, the force and the virial buffers. */
  datatype TensorOutput = TensorOutput(output: seq<real>, force: seq<real>, virial: seq<real>)
  /** What `DeepPot::compute` fills: a bare energy, the force and the virial buffers. */
  datatype PotOutput = PotOutput(energy: real, force: seq<real>, virial: seq<real>)

  /** `compute(coord, atype, box)` of an initialised engine. */
  type PotCompute = (seq<real>, seq<int>, seq<real>) -> PotOutput
  type TensorCompute = (seq<real>, seq<int>, seq<real>) -> TensorOutput

  /** An engine after `init(graph_file)`; a tensor model reports its `output_dim()`. */
  datatype Model =
    | DeepPot(pot: PotCompute)
    | DeepTensor(outputDim: nat, tensor: TensorCompute)

  /** The number of output channels the engine produces; a potential has exactly one. */
  function OutputDim(m: Model): nat
  {
    match m
    case DeepPot(_) => 1
    case DeepTensor(d, _) => d
  }

  /**
   * The engine's length contracts: for `3N` coordinates it returns `d` outputs,
   * `d * 3N` force entries and `d * 9` virial entries (`d` = 1 and a bare energy for a potential).
   */
  ghost predicate WellShaped(m: Model)
  {
    match m
    case DeepPot(pot) =>
      forall coord, atype, box ::
        |pot(coord, atype, box).force| == |coord| && |pot(coord, atype, box).virial| == 9
    case DeepTensor(d, tensor) =>
      forall coord, atype, box ::
        |tensor(coord, atype, box).output| == d &&
        |tensor(coord, atype, box).force| == d * |coord| &&
        |tensor(coord, atype, box).virial| == d * 9
  }

  /**
   * One evaluation in the adapter's uniform shape: a tensor engine's buffers as they are,
   * a potential's bare energy lifted into a one-element output vector. A well-shaped
   * engine always yields OutputDim channels of output, force and virial.
   */
  function Evaluate(m: Model, coord: seq<real>, atype: seq<int>, box: seq<real>): (r: TensorOutput)
    ensures WellShaped(m) ==>
      |r.output| == OutputDim(m) && |r.force| == OutputDim(m) * |coord| && |r.virial| == OutputDim(m) * 9
    ensures m.DeepPot? ==> r.output == [m.pot(coord, atype, box).energy]
    ensures m.DeepPot? ==> r.force == m.pot(coord, atype, box).force && r.virial == m.pot(coord, atype, box).virial
    ensures m.DeepTensor? ==> r == m.tensor(coord, atype, box)
  {
    match m
    case DeepPot(pot) =>
      var res := pot(coord, atype, box);
      assert WellShaped(m) ==> |res.force| == |coord|;
      TensorOutput([res.energy], res.force, res.virial)
    case DeepTensor(d, tensor) =>
      assert WellShaped(m) ==> |tensor(coord, atype, box).output| == d;
      tensor(coord, atype, box)
  }
}
