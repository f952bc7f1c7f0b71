/** `BaseRVS` and its generators of random points: the radius and box size
    settings with their checks, and the samples of `RVSinbox`. The random
    number generator is not modelled: the uniform draws in [0, 1) that
    `numpy.random.default_rng(random_state).random(nsamples)` would return
    are given as an input. */
module Random {
  import opened Outcomes

  /** The exceptions the generators can raise. */
  datatype Error =
    | RuntimeError    // reading a setting that was never set
    | AssertionError  // setting a value that is not positive
    | AttributeError  // `RVSinsphere.__call__` reads the missing attribute `self.R`
    | ValueError      // `gen.random` asked for a negative number of samples

  /** The subclass of `BaseRVS` an object was made from. */
  datatype Kind = InSphere | InBox | OnSphere

  /** An instance of `BaseRVS`. Both settings start unset (the class
      attributes `_radius = None` and `_boxsize = None`). */
  class Rvs {
    const kind: Kind
    var radius: Option<real>
    var boxsize: Option<real>

    /** Every setting that is present is positive: the setters admit no
        other value. */
    ghost predicate Valid()
      reads this
    {
      && (radius.Some? ==> radius.value > 0.0)
      && (boxsize.Some? ==> boxsize.value > 0.0)
    }

    /** An object of the given subclass before its `__init__` sets anything. */
    constructor (kind: Kind)
      ensures this.kind == kind && radius == None && boxsize == None
      ensures Valid()
    {
      this.kind := kind;
      radius := None;
      boxsize := None;
    }

    /** The `radius` property: a RuntimeError while unset. */
    function Radius(): (r: Result<real, Error>)
      reads this
      ensures r.Err? <==> radius.None?
      ensures r.Err? ==> r.error == RuntimeError
      ensures r.Ok? ==> radius == Some(r.value)
      ensures r.Ok? && Valid() ==> r.value > 0.0
    {
      if radius.None? then Err(RuntimeError) else Ok(radius.value)
    }

    /** The `boxsize` property: a RuntimeError while unset. */
    function BoxSize(): (r: Result<real, Error>)
      reads this
      ensures r.Err? <==> boxsize.None?
      ensures r.Err? ==> r.error == RuntimeError
      ensures r.Ok? ==> boxsize == Some(r.value)
      ensures r.Ok? && Valid() ==> r.value > 0.0
    {
      if boxsize.None? then Err(RuntimeError) else Ok(boxsize.value)
    }

    /** The `radius` setter: an AssertionError, changing nothing, unless the
        value is positive; otherwise the value replaces any earlier one, so
        that reading `radius` back gives it. The box size is untouched. */
    method SetRadius(value: real) returns (err: Option<Error>)
      modifies this
      ensures err.Some? <==> value <= 0.0
      ensures err.Some? ==> err.value == AssertionError && radius == old(radius)
      ensures err.None? ==> radius == Some(value) && Radius() == Ok(value)
      ensures boxsize == old(boxsize)
      ensures old(Valid()) ==> Valid()
    {
      if !(value > 0.0) {
        return Some(AssertionError);
      }
      radius := Some(value);
      return None;
    }

    /** The `boxsize` setter, with the same rules as SetRadius. */
    method SetBoxSize(value: real) returns (err: Option<Error>)
      modifies this
      ensures err.Some? <==> value <= 0.0
      ensures err.Some? ==> err.value == AssertionError && boxsize == old(boxsize)
      ensures err.None? ==> boxsize == Some(value) && BoxSize() == Ok(value)
      ensures radius == old(radius)
      ensures old(Valid()) ==> Valid()
    {
      if !(value > 0.0) {
        return Some(AssertionError);
      }
      boxsize := Some(value);
      return None;
    }

    /** `RVSinsphere(radius, boxsize)`: sets the radius, then the box size;
        the first failing assertion ends construction. */
    static method NewInSphere(radius: real, boxsize: real) returns (res: Result<Rvs, Error>)
      ensures res.Err? <==> radius <= 0.0 || boxsize <= 0.0
      ensures res.Err? ==> res.error == AssertionError
      ensures res.Ok? ==> fresh(res.value) && res.value.kind == InSphere && res.value.Valid()
      ensures res.Ok? ==> res.value.Radius() == Ok(radius) && res.value.BoxSize() == Ok(boxsize)
    {
      var g := new Rvs(InSphere);
      var err := g.SetRadius(radius);
      if err.Some? {
        return Err(err.value);
      }
      err := g.SetBoxSize(boxsize);
      if err.Some? {
        return Err(err.value);
      }
      return Ok(g);
    }

    /** `RVSinbox(boxsize)`: sets the box size only; the radius stays unset. */
    static method NewInBox(boxsize: real) returns (res: Result<Rvs, Error>)
      ensures res.Err? <==> boxsize <= 0.0
      ensures res.Err? ==> res.error == AssertionError
      ensures res.Ok? ==> fresh(res.value) && res.value.kind == InBox && res.value.Valid()
      ensures res.Ok? ==> res.value.BoxSize() == Ok(boxsize) && res.value.Radius() == Err(RuntimeError)
    {
      var g := new Rvs(InBox);
      var err := g.SetBoxSize(boxsize);
      if err.Some? {
        return Err(err.value);
      }
      return Ok(g);
    }

    /** `RVSonsphere()`: it has no `__init__`, so neither setting is set. */
    static method NewOnSphere() returns (g: Rvs)
      ensures fresh(g) && g.kind == OnSphere && g.Valid()
      ensures g.Radius() == Err(RuntimeError) && g.BoxSize() == Err(RuntimeError)
    {
      g := new Rvs(OnSphere);
    }

    /** `RVSinbox.__call__(nsamples)` for the draws of its three calls to
        `gen.random(nsamples)`: `numpy.vstack(draws).T` scaled by the box
        size, so sample i is row i and its coordinate c comes from the c-th
        call. The draws come first, so a negative count is a ValueError
        before the box size is read; an unset box size is a RuntimeError. */
    function CallInBox(nsamples: int, draws: seq<seq<real>>): (r: Result<seq<seq<real>>, Error>)
      reads this
      requires kind == InBox && (nsamples >= 0 ==> IsDraws(draws, nsamples))
      ensures r.Err? <==> nsamples < 0 || boxsize.None?
      ensures nsamples < 0 ==> r == Err(ValueError)
      ensures nsamples >= 0 && boxsize.None? ==> r == Err(RuntimeError)
      ensures r.Ok? ==> |r.value| == nsamples && forall i :: 0 <= i < nsamples ==> |r.value[i]| == 3
    {
      if nsamples < 0 then Err(ValueError)
      else
        match BoxSize()
        case Err(e) => Err(e)
        case Ok(b) => Ok(ScaledSamples(b, nsamples, draws))
    }

    /** `RVSinsphere.__call__` draws its radii and then reads `self.R`, an
        attribute no class defines: a negative count is a ValueError, and
        every other call fails with an AttributeError. */
    function CallInSphere(nsamples: int): (r: Result<seq<seq<real>>, Error>)
      requires kind == InSphere
      ensures r.Err?
      ensures r.error == ValueError <==> nsamples < 0
      ensures nsamples >= 0 ==> r.error == AttributeError
    {
      if nsamples < 0 then Err(ValueError) else Err(AttributeError)
    }
  }

  /** Three calls to `gen.random(nsamples)`, one per coordinate. */
  predicate IsDraws(draws: seq<seq<real>>, nsamples: nat) {
    |draws| == 3 && forall c :: 0 <= c < 3 ==> |draws[c]| == nsamples
  }

  /** Every draw lies in [0, 1), as `Generator.random` promises. */
  predicate UnitDraws(draws: seq<seq<real>>) {
    forall c, i :: 0 <= c < |draws| && 0 <= i < |draws[c]| ==> 0.0 <= draws[c][i] < 1.0
  }

  /** `size * numpy.vstack(draws).T`: sample i is row i, and its coordinate
      c is the i-th draw of the c-th call scaled by `size`. */
  function ScaledSamples(size: real, nsamples: nat, draws: seq<seq<real>>): (samples: seq<seq<real>>)
    requires IsDraws(draws, nsamples)
    ensures |samples| == nsamples && forall i :: 0 <= i < nsamples ==> |samples[i]| == 3
  {
    seq(nsamples, i requires 0 <= i < nsamples =>
      seq(3, c requires 0 <= c < 3 => size * draws[c][i]))
  }

  /** With draws in [0, 1) and a positive size, every coordinate of every
      sample lies in [0, size). */
  lemma ScaledSamplesInBox(size: real, nsamples: nat, draws: seq<seq<real>>)
    requires IsDraws(draws, nsamples) && UnitDraws(draws) && size > 0.0
    ensures forall i, c :: 0 <= i < nsamples && 0 <= c < 3 ==>
      0.0 <= ScaledSamples(size, nsamples, draws)[i][c] < size
  {
    var samples := ScaledSamples(size, nsamples, draws);
    forall i, c | 0 <= i < nsamples && 0 <= c < 3 ensures 0.0 <= samples[i][c] < size {
      assert samples[i][c] == size * draws[c][i];
      ScaledDraw(size, draws[c][i]);
    }
  }

  /** The stacking only transposes: dividing column c of the samples by the
      size gives back the c-th call's draws, in order. */
  lemma ScaledSamplesColumns(size: real, nsamples: nat, draws: seq<seq<real>>, c: nat)
    requires IsDraws(draws, nsamples) && size > 0.0 && c < 3
    ensures seq(nsamples, i requires 0 <= i < nsamples => ScaledSamples(size, nsamples, draws)[i][c] / size)
      == draws[c]
  {
    var samples := ScaledSamples(size, nsamples, draws);
    forall i | 0 <= i < nsamples ensures samples[i][c] / size == draws[c][i] {
      assert samples[i][c] == size * draws[c][i];
    }
  }

  /** With draws in [0, 1) and a positive box size, every coordinate of every
      sample of `RVSinbox` lies in [0, boxsize): the samples fill the box. */
  lemma InBoxWithinBox(g: Rvs, nsamples: nat, draws: seq<seq<real>>)
    requires g.kind == InBox && IsDraws(draws, nsamples) && g.Valid() && g.boxsize.Some?
    requires UnitDraws(draws)
    ensures g.CallInBox(nsamples, draws).Ok?
    ensures forall i, c :: 0 <= i < nsamples && 0 <= c < 3 ==>
      0.0 <= g.CallInBox(nsamples, draws).value[i][c] < g.boxsize.value
  {
    ScaledSamplesInBox(g.boxsize.value, nsamples, draws);
  }

  /** A positive size times a draw in [0, 1) lies in [0, size). */
  lemma ScaledDraw(b: real, d: real)
    requires b > 0.0 && 0.0 <= d < 1.0
    ensures 0.0 <= b * d < b
  {
    assert b * (1.0 - d) > 0.0;
  }
}
