/**
 * The IndexConverter of Common.h / Common.cpp: the one addressing law shared by every
 * flat buffer the adapter exchanges with the inference engine.  A converter with extents
 * (nout, natom, ndim) lays triples (channel, atom, dimension) out row-major, the channel
 * varying slowest.
 *
 * The C++ works on 32-bit `int` indices and `unsigned` extents and addresses; both widths
 * are modelled explicitly, because the source's negative-index wraparound and its final
 * address computation are done in unsigned arithmetic.
 */
module IndexConversion {
  import opened Wrappers

  const TwoTo31: int := 0x8000_0000
  const TwoTo32: int := 0x1_0000_0000

  /** A C++ `int`. */
  type Int32 = x: int | -0x8000_0000 <= x < 0x8000_0000
  /** A C++ `unsigned`. */
  type Uint32 = x: int | 0 <= x < 0x1_0000_0000

  /** Reduction modulo 2^32: the value an `unsigned` computation leaves. */
  function AsUint32(x: int): (r: Uint32)
    ensures (r - x) % TwoTo32 == 0
    ensures 0 <= x < TwoTo32 ==> r == x
  {
    x % TwoTo32
  }

  /** Conversion to `int` of a value's low 32 bits (two's complement). */
  function AsInt32(x: int): (r: Int32)
    ensures (r - x) % TwoTo32 == 0
    ensures -TwoTo31 <= x < TwoTo31 ==> r == x
  {
    var m := x % TwoTo32;
    if m < TwoTo31 then m else m - TwoTo32
  }

  /** The three `const unsigned` extents of a converter; they never change once built. */
  datatype IndexConverter = IndexConverter(nout: Uint32, natom: Uint32, ndim: Uint32)
  {
    /** What both constructors guarantee: every extent is positive. */
    predicate Valid()
    {
      nout > 0 && natom > 0 && ndim > 0
    }

    /** The length of the flat buffer the converter addresses. */
    function Size(): nat
    {
      nout * natom * ndim
    }
  }

  /** `IndexConverter(natom, ndim = 3)`: the 2-D form, with a single output channel. */
  function NewIndexConverter2(natom: Uint32, ndim: Uint32 := 3): (r: Result<IndexConverter>)
    ensures r.Ok? <==> natom > 0 && ndim > 0
    ensures r.Ok? ==> r.value.Valid() && r.value == IndexConverter(1, natom, ndim)
    ensures r.Err? ==> r.error == InvalidDimension
  {
    if natom <= 0 || ndim <= 0 then Err(InvalidDimension)
    else Ok(IndexConverter(1, natom, ndim))
  }

  /** `IndexConverter(nout, natom, ndim)`: the 3-D form. */
  function NewIndexConverter3(nout: Uint32, natom: Uint32, ndim: Uint32): (r: Result<IndexConverter>)
    ensures r.Ok? <==> nout > 0 && natom > 0 && ndim > 0
    ensures r.Ok? ==> r.value.Valid() && r.value == IndexConverter(nout, natom, ndim)
    ensures r.Err? ==> r.error == InvalidDimension
  {
    if nout <= 0 || natom <= 0 || ndim <= 0 then Err(InvalidDimension)
    else Ok(IndexConverter(nout, natom, ndim))
  }

  /**
   * Negative-index wraparound, `i >= 0 ? i : extent + i`. The conditional has type
   * `unsigned`, so `extent + i` is reduced modulo 2^32, and the result is stored in an `int`.
   */
  function Resolve(i: Int32, extent: Uint32): Int32
  {
    if i >= 0 then i else AsInt32(AsUint32(extent + i))
  }

  /** The range check of `f` on resolved indices; the channel bound is skipped when nout == 1. */
  predicate InRange(ic: IndexConverter, io: int, ia: int, id: int)
  {
    0 <= io && (io < ic.nout || ic.nout == 1) && 0 <= ia < ic.natom && 0 <= id < ic.ndim
  }

  /** The row-major, channel-major linear address of (io, ia, id), before any wrap-around. */
  function Offset(ic: IndexConverter, io: int, ia: int, id: int): int
  {
    io * (ic.natom * ic.ndim) + ia * ic.ndim + id
  }

  /** `f(iout, iatom, idim)`: the flat address of a triple, or "Index out of range!". */
  function Flat3(ic: IndexConverter, iout: Int32, iatom: Int32, idim: Int32): (r: Result<Uint32>)
    requires ic.Valid()
    ensures r.Ok? <==> InRange(ic, Resolve(iout, ic.nout), Resolve(iatom, ic.natom), Resolve(idim, ic.ndim))
    ensures r.Err? ==> r.error == IndexOutOfRange
  {
    var io := Resolve(iout, ic.nout);
    var ia := Resolve(iatom, ic.natom);
    var id := Resolve(idim, ic.ndim);
    if io < 0 || (io >= ic.nout && ic.nout != 1) || ia < 0 || ia >= ic.natom || id < 0 || id >= ic.ndim then
      Err(IndexOutOfRange)
    else
      // unsigned arithmetic throughout: reducing once at the end equals reducing every step
      Ok(AsUint32(io * (ic.natom * ic.ndim) + ia * ic.ndim + id))
  }

  /** `f(iatom, idim)`: the 2-D shorthand for `f(0, iatom, idim)`. */
  function Flat2(ic: IndexConverter, iatom: Int32, idim: Int32): (r: Result<Uint32>)
    requires ic.Valid()
    ensures r == Flat3(ic, 0, iatom, idim)
    ensures r.Ok? <==> 0 <= Resolve(iatom, ic.natom) < ic.natom && 0 <= Resolve(idim, ic.ndim) < ic.ndim
    ensures r.Ok? ==> r.value == AsUint32(Resolve(iatom, ic.natom) * ic.ndim + Resolve(idim, ic.ndim))
  {
    Flat3(ic, 0, iatom, idim)
  }

  /** `r(iout, iatom, idim, multi_idx)`: decode a flat address into its triple. */
  function Ravel3(ic: IndexConverter, multiIdx: Uint32): (r: Result<(Uint32, Uint32, Uint32)>)
    requires ic.Valid()
    ensures r.Ok? <==> (multiIdx / (ic.natom * ic.ndim) < ic.nout || ic.nout == 1)
    ensures r.Err? ==> r.error == IndexOutOfRange
    ensures r.Ok? ==> r.value.0 == multiIdx / (ic.natom * ic.ndim) && r.value.1 < ic.natom && r.value.2 < ic.ndim
    ensures r.Ok? ==> Offset(ic, r.value.0, r.value.1, r.value.2) == multiIdx
  {
    var iout := multiIdx / ic.natom / ic.ndim;
    var iatom := (multiIdx / ic.ndim) % ic.natom;
    var idim := multiIdx % ic.ndim;
    Decompose(multiIdx, ic.natom, ic.ndim);
    if iout >= ic.nout && ic.nout != 1 then Err(IndexOutOfRange)
    else Ok((iout, iatom, idim))
  }

  /** `r(iatom, idim, multi_idx)`: decode, demanding that the address lies in channel 0. */
  function Ravel2(ic: IndexConverter, multiIdx: Uint32): (r: Result<(Uint32, Uint32)>)
    requires ic.Valid()
    ensures r.Ok? <==> multiIdx < ic.natom * ic.ndim
    ensures r.Err? ==> r.error == IndexOutOfRange
    ensures r.Ok? ==> Ravel3(ic, multiIdx) == Ok((0, r.value.0, r.value.1))
    ensures r.Ok? ==> r.value.0 * ic.ndim + r.value.1 == multiIdx
  {
    DivBelow(multiIdx, ic.natom * ic.ndim);
    match Ravel3(ic, multiIdx)
    case Err(e) => Err(e)
    case Ok((tmpIout, iatom, idim)) =>
      if tmpIout > 0 then Err(IndexOutOfRange) else Ok((iatom, idim))
  }

  // ---------------------------------------------------------------------------------
  // Properties of the addressing law

  /** A negative index that stays within an unsigned-free range is replaced by extent + i. */
  lemma NegativeIndexWraps(i: Int32, extent: Uint32)
    requires i < 0 && extent + i < TwoTo31
    ensures Resolve(i, extent) == extent + i
  {
  }

  /** An index below -extent resolves to a negative one, so `f` rejects it on every axis. */
  lemma TooNegativeIndexFails(ic: IndexConverter, iout: Int32, iatom: Int32, idim: Int32)
    requires ic.Valid()
    requires iout + ic.nout as int < 0 || iatom + ic.natom as int < 0 || idim + ic.ndim as int < 0
    ensures Flat3(ic, iout, iatom, idim).Err?
  {
    if iout + ic.nout as int < 0 {
      ResolveTooNegative(iout, ic.nout);
    } else if iatom + ic.natom as int < 0 {
      ResolveTooNegative(iatom, ic.natom);
    } else {
      ResolveTooNegative(idim, ic.ndim);
    }
  }

  /** Mathematical wraparound of one index. */
  function Wrap(i: int, extent: int): int
  {
    if i < 0 then extent + i else i
  }

  /** `f` at a negative index is `f` at extent + index, on every axis at once. */
  lemma FlatNegativeIndex(ic: IndexConverter, iout: Int32, iatom: Int32, idim: Int32)
    requires ic.Valid()
    requires 0 <= iout + ic.nout as int && 0 <= iatom + ic.natom as int && 0 <= idim + ic.ndim as int
    requires Wrap(iout, ic.nout) < TwoTo31 && Wrap(iatom, ic.natom) < TwoTo31 && Wrap(idim, ic.ndim) < TwoTo31
    ensures Flat3(ic, iout, iatom, idim) == Flat3(ic, Wrap(iout, ic.nout), Wrap(iatom, ic.natom), Wrap(idim, ic.ndim))
  {
    ResolveIsWrap(iout, ic.nout);
    ResolveIsWrap(iatom, ic.natom);
    ResolveIsWrap(idim, ic.ndim);
  }

  lemma ResolveIsWrap(i: Int32, extent: Uint32)
    requires 0 <= i + extent && Wrap(i, extent) < TwoTo31
    ensures Resolve(i, extent) == Wrap(i, extent) == Resolve(Wrap(i, extent), extent)
  {
  }

  /** For an in-range triple `f` succeeds with the row-major address, which lies inside the buffer. */
  lemma FlatAddress(ic: IndexConverter, io: Int32, ia: Int32, id: Int32)
    requires ic.Valid() && ic.Size() <= TwoTo32
    requires 0 <= io < ic.nout && 0 <= ia < ic.natom && 0 <= id < ic.ndim
    ensures Offset(ic, io, ia, id) < ic.Size()
    ensures Flat3(ic, io, ia, id) == Ok(Offset(ic, io, ia, id))
  {
    OffsetBelowSize(ic, io, ia, id);
  }

  /**
   * With a single channel the channel bound is not checked: every non-negative channel is
   * accepted, and from channel 1 on the address it yields is past the end of the buffer.
   */
  lemma SingletonChannelUnchecked(ic: IndexConverter, io: Int32, ia: Int32, id: Int32)
    requires ic.Valid() && ic.nout == 1
    requires 0 <= io && 0 <= ia < ic.natom && 0 <= id < ic.ndim
    ensures Flat3(ic, io, ia, id).Ok?
    ensures Flat3(ic, io, ia, id).value == Offset(ic, io, ia, id) % TwoTo32
    ensures 1 <= io && Offset(ic, io, ia, id) < TwoTo32 ==> Flat3(ic, io, ia, id).value >= ic.Size()
  {
    if 1 <= io {
      MulMono(1, io, ic.natom * ic.ndim);
    }
  }

  /** Round trip from triples: decoding the address of an in-range triple gives the triple back. */
  lemma RavelOfFlat(ic: IndexConverter, io: Int32, ia: Int32, id: Int32)
    requires ic.Valid() && ic.Size() <= TwoTo32
    requires 0 <= io < ic.nout && 0 <= ia < ic.natom && 0 <= id < ic.ndim
    ensures Flat3(ic, io, ia, id).Ok?
    ensures Ravel3(ic, Flat3(ic, io, ia, id).value) == Ok((io, ia, id))
  {
    FlatAddress(ic, io, ia, id);
    var x := Offset(ic, io, ia, id);
    Recompose(x, ic.natom, ic.ndim, io, ia, id);
  }

  /**
   * Round trip from addresses: every address of the buffer decodes to a triple that `f`
   * encodes back to it. The decoded `unsigned` values are passed to `f`'s `int` parameters,
   * so the address must also be below 2^31 (see FlatOfRavelNeedsInt32).
   */
  lemma FlatOfRavel(ic: IndexConverter, x: Uint32)
    requires ic.Valid() && x < ic.Size() && x < TwoTo31
    ensures Ravel3(ic, x).Ok?
    ensures var (o, a, d) := Ravel3(ic, x).value;
      Flat3(ic, AsInt32(o), AsInt32(a), AsInt32(d)) == Ok(x)
  {
    assert x / (ic.natom * ic.ndim) < ic.nout by {
      var p := ic.natom * ic.ndim;
      assert ic.Size() == ic.nout * p;
      QuotientBound(x, p, ic.nout);
    }
    var (o, a, d) := Ravel3(ic, x).value;
    OffsetDominates(ic, o, a, d);
    assert AsInt32(o) == o && AsInt32(a) == a && AsInt32(d) == d;
    FlatInRange(ic, o, a, d);
  }

  /** An in-range triple of non-negative `int`s is encoded to its offset, reduced modulo 2^32. */
  lemma FlatInRange(ic: IndexConverter, io: Int32, ia: Int32, id: Int32)
    requires ic.Valid() && 0 <= io < ic.nout && 0 <= ia < ic.natom && 0 <= id < ic.ndim
    ensures Flat3(ic, io, ia, id) == Ok(AsUint32(Offset(ic, io, ia, id)))
  {
  }

  /** The address round trip fails at 2^31: the channel turns negative on its way into `int`. */
  lemma FlatOfRavelNeedsInt32()
    ensures var ic := IndexConverter(TwoTo32 - 1, 1, 1);
      Ravel3(ic, TwoTo31) == Ok((TwoTo31, 0, 0)) && Flat3(ic, AsInt32(TwoTo31), 0, 0) == Ok(TwoTo31 - 1)
  {
  }

  /** The 2-D decoding agrees with the 3-D one and inverts the 2-D encoding. */
  lemma Ravel2OfFlat2(ic: IndexConverter, ia: Int32, id: Int32)
    requires ic.Valid() && ic.natom * ic.ndim <= TwoTo32
    requires 0 <= ia < ic.natom && 0 <= id < ic.ndim
    ensures Flat2(ic, ia, id).Ok?
    ensures Ravel2(ic, Flat2(ic, ia, id).value) == Ok((ia, id))
  {
    var one := IndexConverter(1, ic.natom, ic.ndim);
    OffsetBelowSize(one, 0, ia, id);
    Recompose(ia * ic.ndim + id, ic.natom, ic.ndim, 0, ia, id);
  }

  // ---------------------------------------------------------------------------------
  // Arithmetic helpers

  lemma MulMono(a: int, b: int, c: nat)
    requires a <= b
    ensures a * c <= b * c
  {
  }

  lemma DivUnique(x: int, d: int, q: int, r: int)
    requires d > 0 && 0 <= r < d && x == q * d + r
    ensures x / d == q && x % d == r
  {
    var q0, r0 := x / d, x % d;
    assert x == q0 * d + r0;
    if q0 < q {
      MulMono(q0 + 1, q, d);
      assert false;
    } else if q0 > q {
      MulMono(q + 1, q0, d);
      assert false;
    }
  }

  lemma Regroup(q: int, b: int, r: int, a: int, s: int)
    ensures (q * b + r) * a + s == q * (a * b) + (r * a + s)
  {
  }

  lemma RemainderBound(r: nat, a: nat, s: nat, b: nat)
    requires r < b && s < a
    ensures r * a + s < a * b
  {
    MulMono(r, b - 1, a);
  }

  /** Dividing by a and then by b is dividing by a * b. */
  lemma DivDiv(x: nat, a: nat, b: nat)
    requires a > 0 && b > 0
    ensures x / a / b == x / (a * b)
  {
    var q1, r1 := x / a, x % a;
    var q2, r2 := q1 / b, q1 % b;
    assert x == q1 * a + r1;
    assert q1 == q2 * b + r2;
    Regroup(q2, b, r2, a, r1);
    RemainderBound(r2, a, r1, b);
    DivUnique(x, a * b, q2, r2 * a + r1);
  }

  /** The decomposition the decoding relies on: `x / na / nd`, `(x / nd) % na`, `x % nd`. */
  lemma Decompose(x: nat, na: nat, nd: nat)
    requires na > 0 && nd > 0
    ensures x / na / nd == x / (na * nd) == x / nd / na
    ensures x == (x / (na * nd)) * (na * nd) + ((x / nd) % na) * nd + x % nd
  {
    DivDiv(x, na, nd);
    DivDiv(x, nd, na);
    assert nd * na == na * nd;
    var q := x / nd;
    assert x == q * nd + x % nd;
    assert q == (q / na) * na + q % na;
    Regroup(q / na, na, q % na, nd, x % nd);
  }

  /** Decoding the address of (o, a, d) yields (o, a, d). */
  lemma Recompose(x: nat, na: nat, nd: nat, o: nat, a: nat, d: nat)
    requires na > 0 && nd > 0 && a < na && d < nd
    requires x == o * (na * nd) + a * nd + d
    ensures x / na / nd == o && (x / nd) % na == a && x % nd == d
  {
    Regroup(o, na, a, nd, d);
    DivUnique(x, nd, o * na + a, d);
    DivUnique(x / nd, na, o, a);
    DivDiv(x, nd, na);
    DivDiv(x, na, nd);
    assert nd * na == na * nd;
  }

  lemma DivBelow(x: nat, p: nat)
    requires p > 0
    ensures x / p == 0 <==> x < p
  {
    if x < p {
      DivUnique(x, p, 0, x);
    } else {
      assert x == (x / p) * p + x % p;
    }
  }

  lemma QuotientBound(x: nat, p: nat, n: nat)
    requires p > 0 && x < n * p
    ensures x / p < n
  {
    assert x == (x / p) * p + x % p;
    if x / p >= n {
      MulMono(n, x / p, p);
    }
  }

  /** Every component of a triple is at most its offset. */
  lemma OffsetDominates(ic: IndexConverter, io: nat, ia: nat, id: nat)
    requires ic.Valid()
    ensures io <= Offset(ic, io, ia, id) && ia <= Offset(ic, io, ia, id) && id <= Offset(ic, io, ia, id)
  {
    MulMono(1, ic.natom * ic.ndim, io);
    MulMono(1, ic.ndim, ia);
  }

  /** Below -extent, `extent + i` wraps to an `unsigned` of 2^31 or more, which `int` reads back as negative. */
  lemma ResolveTooNegative(i: Int32, extent: Uint32)
    requires i + extent < 0
    ensures Resolve(i, extent) == i + extent
  {
    var x := i + extent;
    DivUnique(x, TwoTo32, -1, x + TwoTo32);
    DivUnique(x + TwoTo32, TwoTo32, 0, x + TwoTo32);
  }

  lemma OffsetBelowSize(ic: IndexConverter, io: nat, ia: nat, id: nat)
    requires ic.Valid() && io < ic.nout && ia < ic.natom && id < ic.ndim
    ensures 0 <= Offset(ic, io, ia, id) < ic.Size()
  {
    MulMono(ia, ic.natom - 1, ic.ndim);
    MulMono(io, ic.nout - 1, ic.natom * ic.ndim);
    assert ic.Size() == ic.nout * (ic.natom * ic.ndim);
  }
}
