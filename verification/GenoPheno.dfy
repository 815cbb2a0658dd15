/** The genotype/phenotype transform of a bounded problem: the piecewise-quadratic bounds in an
    internal range, composed with a linear scaling to the user's range. */
module GenoPheno {
  import opened LinearAlgebra
  import opened RealFunctions
  import opened PwqBounds

  const INTERNAL_MIN := 0.0
  const INTERNAL_MAX := 10.0

  // ----- one coordinate

  /** The scaling of one coordinate, if scaling is on. */
  datatype Lin = Unscaled | Linear(scaling: real, shift: real) {

    predicate Valid() {
      Linear? ==> scaling > 0.0
    }

    function ToInternal(y: real): real {
      if Unscaled? then y else y * scaling + shift
    }

    function ToUser(x: real): real
      requires Valid()
    {
      if Unscaled? then x else (x - shift) / scaling
    }
  }

  /** The scaling that sends the user's bounds onto the internal range. The width is capped at the
      largest double. */
  function ComputedScaling(lb: real, ub: real, dblMax: real): Lin
    requires lb < ub && dblMax > 0.0
  {
    var s := (INTERNAL_MAX - INTERNAL_MIN) / Min(ub - lb, dblMax);
    Linear(s, INTERNAL_MAX - s * ub)
  }

  function PhenoCoordinate(b: Bound, lin: Lin, x: real): real
    requires b.Valid() && lin.Valid()
  {
    lin.ToUser(ToF(b, x))
  }

  function GenoCoordinate(sqrt: Fn, b: Bound, lin: Lin, y: real): real {
    PwqBounds.ToInternal(sqrt, b, lin.ToInternal(y))
  }

  /** Scaling and its inverse undo each other and keep the order. */
  lemma LinInverse(lin: Lin, x: real, y: real)
    requires lin.Valid()
    ensures lin.ToUser(lin.ToInternal(y)) == y && lin.ToInternal(lin.ToUser(x)) == x
    ensures x <= lin.ToInternal(y) <==> lin.ToUser(x) <= y
    ensures lin.ToInternal(y) <= x <==> y <= lin.ToUser(x)
  {
    if lin.Linear? {
      var s, t := lin.scaling, lin.shift;
      var u := (x - t) / s;
      assert u * s == x - t;
      ProductSign(y - u, s, (y - u) * s);
      ProductSign(u - y, s, (u - y) * s);
    }
  }

  /** The range of a coordinate is the user image of its box, and the round trip returns y exactly on
      that range. */
  lemma CoordinateRoundTrip(sqrt: Fn, b: Bound, lin: Lin, x: real, y: real)
    requires IsSqrt(sqrt) && b.Valid() && lin.Valid()
    ensures lin.ToUser(b.lb) <= PhenoCoordinate(b, lin, x) <= lin.ToUser(b.ub)
    ensures PhenoCoordinate(b, lin, GenoCoordinate(sqrt, b, lin, y)) == y
            <==> lin.ToUser(b.lb) <= y <= lin.ToUser(b.ub)
  {
    hide PwqBounds.ToInternal, ToF, Lin.ToUser, Lin.ToInternal;
    ToFLipschitz(b, x, x);
    LinInverse(lin, b.lb, lin.ToUser(ToF(b, x)));
    LinInverse(lin, b.ub, lin.ToUser(ToF(b, x)));
    LinInverse(lin, ToF(b, x), y);
    LinInverse(lin, b.lb, y);
    LinInverse(lin, b.ub, y);
    var w := lin.ToInternal(y);
    RoundTripIff(sqrt, b, w);
    LinInverse(lin, ToF(b, PwqBounds.ToInternal(sqrt, b, w)), y);
  }

  /** The computed scaling sends the internal range onto [ub - min(ub-lb, max), ub]: the user's own box
      as long as its width is representable. */
  lemma ComputedScalingRange(lb: real, ub: real, dblMax: real)
    requires lb < ub && dblMax > 0.0
    ensures var lin := ComputedScaling(lb, ub, dblMax);
            && lin.Valid()
            && lin.ToUser(INTERNAL_MAX) == ub
            && lin.ToUser(INTERNAL_MIN) == ub - Min(ub - lb, dblMax) >= lb
            && (lin.ToUser(INTERNAL_MIN) == lb <==> ub - lb <= dblMax)
  {
    var d := Min(ub - lb, dblMax);
    var s := 10.0 / d;
    assert s * d == 10.0;
    if s <= 0.0 { ProductSign(-s, d, -s * d); }
    assert s * ub - 10.0 == s * (ub - d);
    Quotient(s, ub - d, s * ub - 10.0);
    Quotient(s, ub, s * ub);
  }

  lemma Quotient(s: real, q: real, p: real)
    requires s > 0.0 && p == s * q
    ensures p / s == q
  {
    assert (p / s) * s == p;
    ProductSign(p / s - q, s, (p / s - q) * s);
    ProductSign(q - p / s, s, (q - p / s) * s);
  }

  // ----- the program

  class LinScalingStrategy {
    var scaling: Vec
    var shift: Vec
    var id: bool

    /** No scaling. */
    constructor Identity()
      ensures id
    {
      scaling, shift, id := [1.0], [0.0], true;
    }

    constructor FromBounds(lb: Vec, ub: Vec, dblMax: real)
      requires |lb| == |ub| && dblMax > 0.0 && forall i :: 0 <= i < |lb| ==> lb[i] < ub[i]
      ensures !id && |scaling| == |shift| == |lb|
      ensures forall i :: 0 <= i < |lb| ==> Linear(scaling[i], shift[i]) == ComputedScaling(lb[i], ub[i], dblMax)
    {
      id := false;
      new;
      ComputeScaling(lb, ub, dblMax);
    }

    constructor FromVectors(scaling: Vec, shift: Vec)
      ensures !id && this.scaling == scaling && this.shift == shift
    {
      this.scaling, this.shift, id := scaling, shift, false;
    }

    method ComputeScaling(lb: Vec, ub: Vec, dblMax: real)
      requires |lb| == |ub| && dblMax > 0.0 && forall i :: 0 <= i < |lb| ==> lb[i] < ub[i]
      modifies `scaling, `shift
      ensures |scaling| == |shift| == |lb|
      ensures forall i :: 0 <= i < |lb| ==> Linear(scaling[i], shift[i]) == ComputedScaling(lb[i], ub[i], dblMax)
    {
      var n := |lb|;
      var denom := seq(n, i requires 0 <= i < n => Min(ub[i] - lb[i], dblMax));
      var s := seq(n, i requires 0 <= i < n => (INTERNAL_MAX - INTERNAL_MIN) / denom[i]);
      scaling := s;
      shift := seq(n, i requires 0 <= i < n => INTERNAL_MAX - s[i] * ub[i]);
    }

    /** Coordinate i's scaling. */
    function At(i: nat): Lin
      requires !id ==> i < |scaling| && i < |shift|
      reads this
    {
      if id then Unscaled else Linear(scaling[i], shift[i])
    }

    ghost predicate Covers(n: nat)
      reads this
    {
      !id ==> |scaling| == |shift| == n && forall i :: 0 <= i < n ==> scaling[i] > 0.0
    }

    method ScaleToInternal(y: Vec) returns (x: Vec)
      requires !id && |y| == |scaling| == |shift|
      ensures |x| == |y| && forall i :: 0 <= i < |y| ==> x[i] == At(i).ToInternal(y[i])
    {
      x := Add(Prod(y, scaling), shift);
    }

    method ScaleToF(x: Vec) returns (y: Vec)
      requires !id && Covers(|x|)
      ensures |y| == |x| && forall i :: 0 <= i < |x| ==> y[i] == At(i).ToUser(x[i])
    {
      var s := scaling;
      y := Sub(x, shift);
      y := seq(|y|, i requires 0 <= i < |y| && i < |s| && s[i] != 0.0 => y[i] / s[i]);
    }
  }

  /** The transform of a bounded problem, with optional custom maps on the genotype side. */
  class Transform {
    var bounds: PwqBoundStrategy
    var lin: LinScalingStrategy
    var id: bool
    const genof: Vec -> Vec
    const phenof: Vec -> Vec

    ghost predicate Valid(n: nat)
      reads this, bounds, lin
    {
      bounds.Valid() && |bounds.lbounds| == n && lin.Covers(n)
    }

    /** The bounded constructor: with scaling, the box is the internal range and the user's bounds are
        kept as phenotype bounds; without, the box is the user's. */
    constructor Bounded(scaled: bool, lb: Vec, ub: Vec, dblMax: real)
      requires |lb| == |ub| && dblMax > 0.0 && forall i :: 0 <= i < |lb| ==> lb[i] < ub[i]
      ensures fresh(bounds) && fresh(lin) && Valid(|lb|) && id
      ensures bounds.phenolbounds == lb && bounds.phenoubounds == ub
      ensures forall i :: 0 <= i < |lb| ==> UpperOf(i) == ub[i]
      ensures forall i :: 0 <= i < |lb| ==> LowerOf(i) == if scaled then ub[i] - Min(ub[i] - lb[i], dblMax) else lb[i]
    {
      genof, phenof, id := z => z, z => z, true;
      if scaled {
        bounds := new PwqBoundStrategy.WithPheno(seq(|lb|, _ => INTERNAL_MIN), seq(|lb|, _ => INTERNAL_MAX), lb, ub);
        lin := new LinScalingStrategy.FromBounds(lb, ub, dblMax);
      } else {
        bounds := new PwqBoundStrategy(lb, ub);
        lin := new LinScalingStrategy.Identity();
      }
      new;
      forall i | 0 <= i < |lb|
        ensures UpperOf(i) == ub[i] && (!lin.id ==> lin.scaling[i] > 0.0)
        ensures LowerOf(i) == if scaled then ub[i] - Min(ub[i] - lb[i], dblMax) else lb[i]
      {
        if scaled {
          ComputedScalingRange(lb[i], ub[i], dblMax);
          assert lin.At(i) == ComputedScaling(lb[i], ub[i], dblMax);
        }
      }
    }

    /** The constructor from a given scaling: the box is the image of the user's bounds. */
    constructor FromScaling(scaling: Vec, shift: Vec, lb: Vec, ub: Vec)
      requires |scaling| == |shift| == |lb| == |ub|
      requires forall i :: 0 <= i < |lb| ==> lb[i] < ub[i] && scaling[i] > 0.0
      ensures fresh(bounds) && fresh(lin) && Valid(|lb|) && id
      ensures forall i :: 0 <= i < |lb| ==> LowerOf(i) == lb[i] && UpperOf(i) == ub[i]
    {
      genof, phenof, id := z => z, z => z, true;
      var l := new LinScalingStrategy.FromVectors(scaling, shift);
      var nlb := l.ScaleToInternal(lb);
      var nub := l.ScaleToInternal(ub);
      forall i | 0 <= i < |lb| ensures nlb[i] < nub[i] {
        ProductSign(ub[i] - lb[i], scaling[i], (ub[i] - lb[i]) * scaling[i]);
      }
      lin := l;
      bounds := new PwqBoundStrategy(nlb, nub);
      new;
      forall i | 0 <= i < |lb| ensures LowerOf(i) == lb[i] && UpperOf(i) == ub[i] {
        LinInverse(lin.At(i), 0.0, lb[i]);
        LinInverse(lin.At(i), 0.0, ub[i]);
      }
    }

    /** The user's images of coordinate i's box ends. */
    function LowerOf(i: nat): real
      requires Valid(|bounds.lbounds|) && i < |bounds.lbounds|
      reads this, bounds, lin
    {
      lin.At(i).ToUser(bounds.lbounds[i])
    }

    function UpperOf(i: nat): real
      requires Valid(|bounds.lbounds|) && i < |bounds.lbounds|
      reads this, bounds, lin
    {
      lin.At(i).ToUser(bounds.ubounds[i])
    }

    ghost function PhenoOf(x: Vec): Vec
      requires Valid(|x|) && (!id ==> |phenof(x)| == |x|)
      reads this, bounds, lin
    {
      seq(|x|, i requires 0 <= i < |x| && Valid(|x|) && (!id ==> |phenof(x)| == |x|) reads this, bounds, lin =>
        PhenoCoordinate(bounds.At(i), lin.At(i), if id then x[i] else phenof(x)[i]))
    }

    ghost function GenoOf(sqrt: Fn, y: Vec): Vec
      requires Valid(|y|)
      reads this, bounds, lin
    {
      var z := seq(|y|, i requires 0 <= i < |y| && Valid(|y|) reads this, bounds, lin =>
                 GenoCoordinate(sqrt, bounds.At(i), lin.At(i), y[i]));
      if id then z else genof(z)
    }

    /** Phenotype of x; it always lies between the images of the box ends. */
    method Pheno(x: Vec) returns (y: Vec)
      requires Valid(|x|) && (!id ==> |phenof(x)| == |x|)
      ensures y == PhenoOf(x)
      ensures forall i :: 0 <= i < |x| ==> LowerOf(i) <= y[i] <= UpperOf(i)
    {
      hide ToF, Lin.ToUser, Bound.Valid;
      var z := x;
      if !id { z := phenof(x); }
      var phen := bounds.ToFRepresentation(z);
      y := phen;
      if !lin.id { y := lin.ScaleToF(phen); }
      forall i | 0 <= i < |x|
        ensures y[i] == lin.At(i).ToUser(phen[i]) && LowerOf(i) <= y[i] <= UpperOf(i)
      {
        Unscaling(lin.At(i), phen[i]);
        LinInverse(lin.At(i), bounds.lbounds[i], lin.At(i).ToUser(phen[i]));
        LinInverse(lin.At(i), bounds.ubounds[i], lin.At(i).ToUser(phen[i]));
        LinInverse(lin.At(i), phen[i], 0.0);
      }
      assert y == PhenoOf(x);
    }

    /** Genotype of y. */
    method Geno(y: Vec, sqrt: Fn) returns (x: Vec)
      requires Valid(|y|)
      ensures x == GenoOf(sqrt, y)
    {
      hide PwqBounds.ToInternal, Lin.ToInternal, Bound.Valid;
      var c := y;
      if !lin.id { c := lin.ScaleToInternal(y); }
      forall i | 0 <= i < |y| ensures c[i] == lin.At(i).ToInternal(y[i]) {
        Unscaling(lin.At(i), y[i]);
      }
      x := bounds.ToInternalRepresentation(c, sqrt);
      assert x == seq(|y|, i requires 0 <= i < |y| && Valid(|y|) reads this, bounds, lin =>
                    GenoCoordinate(sqrt, bounds.At(i), lin.At(i), y[i]));
      if !id { x := genof(x); }
    }

    /** Going to the genotype and back returns the phenotype exactly for the points between the images
        of the box ends; custom maps must undo each other. */
    lemma RoundTrip(y: Vec, sqrt: Fn)
      requires IsSqrt(sqrt) && Valid(|y|)
      requires !id ==> forall v :: |v| == |y| ==> |genof(v)| == |y| && phenof(genof(v)) == v
      ensures |GenoOf(sqrt, y)| == |y|
      ensures PhenoOf(GenoOf(sqrt, y)) == y <==> forall i :: 0 <= i < |y| ==> LowerOf(i) <= y[i] <= UpperOf(i)
    {
      hide PhenoCoordinate, GenoCoordinate, Lin.ToUser, Bound.Valid, IsSqrt;
      forall i | 0 <= i < |y|
        ensures PhenoOf(GenoOf(sqrt, y))[i] == y[i] <==> LowerOf(i) <= y[i] <= UpperOf(i)
      {
        RoundTripAt(sqrt, y, i);
      }
    }

    lemma RoundTripAt(sqrt: Fn, y: Vec, i: nat)
      requires IsSqrt(sqrt) && Valid(|y|) && i < |y|
      requires !id ==> forall v :: |v| == |y| ==> |genof(v)| == |y| && phenof(genof(v)) == v
      ensures |GenoOf(sqrt, y)| == |y|
      ensures PhenoOf(GenoOf(sqrt, y))[i] == y[i] <==> LowerOf(i) <= y[i] <= UpperOf(i)
    {
      hide PhenoCoordinate, GenoCoordinate, Lin.ToUser, Bound.Valid, IsSqrt;
      CoordinateRoundTrip(sqrt, bounds.At(i), lin.At(i), 0.0, y[i]);
    }
  }

  lemma Unscaling(lin: Lin, x: real)
    ensures lin.Unscaled? ==> lin.ToInternal(x) == x && lin.ToUser(x) == x
  {
  }
}
