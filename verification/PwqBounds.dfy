/** Piecewise-quadratic bound handling: every real is folded into a slightly widened box, and the two
    ends of that box are bent quadratically onto the bounds. */
module PwqBounds {
  import opened LinearAlgebra
  import opened RealFunctions

  /** One coordinate's bounds with the values derived from them: the widths of the quadratic ends,
      the seam points half a period beyond the middle of the box, and the period. */
  datatype Bound = Bound(lb: real, ub: real, al: real, au: real, xlow: real, xup: real, r: real) {

    predicate Valid() {
      && lb < ub
      && al == Min(0.5 * (ub - lb), (1.0 / 20.0) * (1.0 + Abs(lb)))
      && au == Min(0.5 * (ub - lb), (1.0 / 20.0) * (1.0 + Abs(ub)))
      && xlow == lb - 2.0 * al - 0.5 * (ub - lb)
      && xup == ub + 2.0 * au + 0.5 * (ub - lb)
      && r == 2.0 * ((ub - lb) + al + au)
    }

    /** The widened box. */
    function Lo(): real { lb - al }

    function Hi(): real { ub + au }
  }

  /** The fields of one coordinate, from the two half widths that the constructor computes first. */
  lemma BoundFields(b: Bound, diff1: real, diff2: real)
    requires b.lb < b.ub && diff1 == b.ub - b.lb && diff2 == 0.5 * diff1
    requires b.al == Min(diff2, (1.0 / 20.0) * (1.0 + Abs(b.lb)))
    requires b.au == Min(diff2, (1.0 / 20.0) * (1.0 + Abs(b.ub)))
    requires b.xlow == b.lb - 2.0 * b.al - diff2 && b.xup == b.ub + 2.0 * b.au + diff2
    requires b.r == 2.0 * (diff1 + b.al + b.au)
    ensures b.Valid()
  {
    hide Min, Abs;
  }

  lemma FieldComponents(lb: Vec, ub: Vec, lows: Vec, ups: Vec, i: nat)
    requires |lb| == |ub| == |lows| == |ups| && i < |lb|
    ensures var diff1 := Sub(ub, lb);
            var diff2 := Scale(0.5, diff1);
            && diff1[i] == ub[i] - lb[i] && diff2[i] == 0.5 * diff1[i]
            && Sub(Sub(lb, Scale(2.0, lows)), diff2)[i] == lb[i] - 2.0 * lows[i] - diff2[i]
            && Add(Add(ub, Scale(2.0, ups)), diff2)[i] == ub[i] + 2.0 * ups[i] + diff2[i]
            && Scale(2.0, Add(Add(diff1, lows), ups))[i] == 2.0 * (diff1[i] + lows[i] + ups[i])
  {
  }

  lemma Geometry(b: Bound)
    requires b.Valid()
    ensures 0.0 < b.al <= 0.5 * (b.ub - b.lb) && 0.0 < b.au <= 0.5 * (b.ub - b.lb)
    ensures b.Lo() < b.lb < b.ub < b.Hi() && b.lb + b.al <= b.ub - b.au
    ensures b.r == 2.0 * (b.Hi() - b.Lo()) == b.xup - b.xlow > 0.0
  {
  }

  /** A C++ cast of a double to an integer type truncates toward zero. */
  function Truncate(q: real): int {
    if q >= 0.0 then q.Floor else -((-q).Floor)
  }

  // ----- folding

  /** The whole number of periods that carries a point at distance t beyond a seam back inside. */
  function Translation(t: real, r: real): real
    requires r != 0.0
  {
    r * (1.0 + Truncate(t / r) as real)
  }

  function ShiftUp(b: Bound, x: real): real
    requires b.Valid()
  {
    Geometry(b);
    if x < b.xlow then x + Translation(b.xlow - x, b.r) else x
  }

  function ShiftDown(b: Bound, x: real): real
    requires b.Valid()
  {
    Geometry(b);
    if x > b.xup then x - Translation(x - b.xup, b.r) else x
  }

  function Reflect(b: Bound, x: real): real {
    var y := if x < b.Lo() then x + 2.0 * (b.Lo() - x) else x;
    if y > b.Hi() then y - 2.0 * (y - b.ub - b.au) else y
  }

  /** The shift into the feasible range, branch by branch. */
  function Shift(b: Bound, x: real): real
    requires b.Valid()
  {
    Reflect(b, ShiftDown(b, ShiftUp(b, x)))
  }

  /** The length of k periods. */
  function Periods(k: int, r: real): real {
    k as real * r
  }

  lemma PeriodsAdd(j: int, k: int, r: real)
    ensures Periods(j + k, r) == Periods(j, r) + Periods(k, r)
    ensures Periods(-j, r) == -Periods(j, r)
    ensures Periods(0, r) == 0.0 && Periods(1, r) == r
  {
    assert (j + k) as real == j as real + k as real;
    assert (-j) as real == -(j as real);
  }

  lemma PeriodsApart(m: int, r: real)
    requires r > 0.0
    ensures m >= 1 ==> Periods(m, r) >= r
    ensures m <= -1 ==> Periods(m, r) <= -r
  {
    if m >= 1 { ProductSign(m as real - 1.0, r, (m as real - 1.0) * r); }
    if m <= -1 { ProductSign(-1.0 - m as real, r, (-1.0 - m as real) * r); }
  }

  /** x is z, or the mirror image of z about the lower end, displaced by k periods. */
  ghost predicate Reaches(b: Bound, x: real, z: real, k: int) {
    x == z + Periods(k, b.r) || x == 2.0 * b.Lo() - z + Periods(k, b.r)
  }

  /** z is a point of the widened box that x is a translate or a mirror image of: the definition of
      folding that does not mention how it is computed. */
  ghost predicate IsFold(b: Bound, x: real, z: real) {
    b.Lo() <= z <= b.Hi() && exists k: int :: Reaches(b, x, z, k)
  }

  lemma WholePeriods(t: real, r: real)
    requires r > 0.0 && t >= 0.0
    ensures t < Translation(t, r) <= t + r
    ensures Translation(t, r) == Periods(1 + Truncate(t / r), r)
  {
    var q := t / r;
    assert q * r == t;
    if q < 0.0 { ProductSign(-q, r, -q * r); }
    var n := Truncate(q) as real;
    ProductSign(1.0 + n - q, r, (1.0 + n - q) * r);
    ProductSign(q - n, r, (q - n) * r);
    assert (1 + Truncate(q)) as real == 1.0 + n;
  }

  /** The two translations bring every real between the seam points, by whole periods. */
  lemma ShiftByPeriods(b: Bound, x: real) returns (k: int)
    requires b.Valid()
    ensures var y := ShiftDown(b, ShiftUp(b, x));
            b.xlow <= y <= b.xup && x == y + Periods(k, b.r)
  {
    Geometry(b);
    hide Translation, Periods, Truncate;
    if x < b.xlow {
      WholePeriods(b.xlow - x, b.r);
      k := -(1 + Truncate((b.xlow - x) / b.r));
      PeriodsAdd(-k, 0, b.r);
    } else if x > b.xup {
      WholePeriods(x - b.xup, b.r);
      k := 1 + Truncate((x - b.xup) / b.r);
    } else {
      k := 0;
      PeriodsAdd(0, 0, b.r);
    }
  }

  /** The computed shift is a fold. */
  lemma ShiftIsFold(b: Bound, x: real)
    requires b.Valid()
    ensures IsFold(b, x, Shift(b, x))
  {
    Geometry(b);
    var k := ShiftByPeriods(b, x);
    hide ShiftUp, ShiftDown, Periods;
    PeriodsAdd(k, 1, b.r);
    var y, z := ShiftDown(b, ShiftUp(b, x)), Shift(b, x);
    assert Reaches(b, x, z, k) || Reaches(b, x, z, k + 1);
  }

  lemma ShiftInBox(b: Bound, x: real)
    requires b.Valid()
    ensures b.Lo() <= Shift(b, x) <= b.Hi()
  {
    hide Shift;
    ShiftIsFold(b, x);
  }

  /** Folding never moves two points apart. */
  lemma FoldsContract(b: Bound, x: real, z: real, x': real, z': real)
    requires b.Valid() && IsFold(b, x, z) && IsFold(b, x', z')
    ensures Abs(z - z') <= Abs(x - x')
  {
    Geometry(b);
    hide Bound.Valid, Periods;
    var k: int :| Reaches(b, x, z, k);
    var k': int :| Reaches(b, x', z', k');
    PeriodsAdd(k - k', k', b.r);
    PeriodsApart(k - k', b.r);
    PeriodsAdd(0, 0, b.r);
  }

  /** There is exactly one fold, and the code computes it. */
  lemma ShiftCharacterised(b: Bound, x: real, z: real)
    requires b.Valid()
    ensures z == Shift(b, x) <==> IsFold(b, x, z)
  {
    hide Shift;
    ShiftIsFold(b, x);
    if IsFold(b, x, z) {
      FoldsContract(b, x, z, x, Shift(b, x));
    }
  }

  /** The shift leaves the widened box alone. */
  lemma ShiftIdentity(b: Bound, x: real)
    requires b.Valid() && b.Lo() <= x <= b.Hi()
    ensures Shift(b, x) == x
  {
    Geometry(b);
  }

  /** The shift is periodic, at the seam points too. */
  lemma ShiftPeriodic(b: Bound, x: real, k: int)
    requires b.Valid()
    ensures Shift(b, x + Periods(k, b.r)) == Shift(b, x)
  {
    hide Shift;
    var z := Shift(b, x);
    ShiftIsFold(b, x);
    var j: int :| Reaches(b, x, z, j);
    PeriodsAdd(j, k, b.r);
    assert Reaches(b, x + Periods(k, b.r), z, j + k);
    ShiftCharacterised(b, x + Periods(k, b.r), z);
  }

  /** The shift is mirror-symmetric about both ends of the widened box. */
  lemma ShiftMirrored(b: Bound, x: real)
    requires b.Valid()
    ensures Shift(b, 2.0 * b.Lo() - x) == Shift(b, x)
    ensures Shift(b, 2.0 * b.Hi() - x) == Shift(b, x)
  {
    hide Shift;
    ShiftIsFold(b, x);
    ShiftCharacterised(b, 2.0 * b.Lo() - x, Shift(b, x));
    ShiftCharacterised(b, 2.0 * b.Hi() - x, Shift(b, x));
    MirroredFold(b, x, Shift(b, x));
  }

  lemma MirroredFold(b: Bound, x: real, z: real)
    requires b.Valid() && IsFold(b, x, z)
    ensures IsFold(b, 2.0 * b.Lo() - x, z) && IsFold(b, 2.0 * b.Hi() - x, z)
  {
    Geometry(b);
    hide Bound.Valid, Periods;
    var j: int :| Reaches(b, x, z, j);
    PeriodsAdd(j, 0, b.r);
    PeriodsAdd(-j, 1, b.r);
    assert Reaches(b, 2.0 * b.Lo() - x, z, -j);
    assert Reaches(b, 2.0 * b.Hi() - x, z, -j + 1);
  }

  // ----- the quadratic ends

  function Parabola(p: real, a: real): real
    requires a != 0.0
  {
    p * p / 4.0 / a
  }

  /** The bend of the widened box onto the bounds. */
  function Bend(b: Bound, y: real): real
    requires b.Valid()
  {
    Geometry(b);
    if y < b.lb + b.al then b.lb + Parabola(y - b.Lo(), b.al)
    else if y > b.ub - b.au then b.ub - Parabola(y - b.Hi(), b.au)
    else y
  }

  function ToF(b: Bound, x: real): real
    requires b.Valid()
  {
    Bend(b, Shift(b, x))
  }

  /** The inverse of the parabola. */
  function Root(sqrt: Fn, a: real, t: real): real {
    2.0 * sqrt(a * t)
  }

  function ToInternal(sqrt: Fn, b: Bound, y: real): real {
    if y < b.lb + b.al then b.Lo() + Root(sqrt, b.al, Abs(b.lb - y))
    else if y > b.ub - b.au then b.Hi() - Root(sqrt, b.au, Abs(y - b.ub))
    else y
  }

  lemma ParabolaScaled(p: real, a: real)
    requires a > 0.0
    ensures a * Parabola(p, a) == (p / 2.0) * (p / 2.0)
    ensures Parabola(-p, a) == Parabola(p, a) >= 0.0
  {
    var t := Parabola(p, a);
    SquareSign(p, p * p);
    if t < 0.0 { ProductSign(-t, a, -t * a); }
    assert (-p) * (-p) == p * p;
  }

  /** On [0, 2a] the parabola p^2/(4a) climbs from 0 to a, and never faster than the identity. */
  lemma ParabolaSlope(p: real, q: real, a: real)
    requires a > 0.0 && 0.0 <= p <= q <= 2.0 * a
    ensures 0.0 <= Parabola(q, a) - Parabola(p, a) <= q - p
    ensures p < q ==> Parabola(p, a) < Parabola(q, a)
    ensures Parabola(2.0 * a, a) == a
  {
    var s, t := Parabola(p, a), Parabola(q, a);
    assert 4.0 * (a * (t - s)) == (q - p) * (q + p);
    SlopeBetween(a, q - p, q + p, t - s);
    SlopeBetween(a, 2.0 * a, 2.0 * a, Parabola(2.0 * a, a));
  }

  lemma SlopeBetween(a: real, w: real, v: real, u: real)
    requires a > 0.0 && 0.0 <= w <= v <= 4.0 * a && 4.0 * (a * u) == w * v
    ensures 0.0 <= u <= w
    ensures w > 0.0 ==> u > 0.0
    ensures w == v == 2.0 * a ==> u == a
  {
    ProductSign(w, v, w * v);
    ProductSign(w, 4.0 * a - v, w * (4.0 * a - v));
    if u <= 0.0 { ProductSign(a, -u, a * -u); }
    if w < u { ProductSign(a, u - w, a * (u - w)); }
    if w == v == 2.0 * a {
      assert w * v == 4.0 * (a * a);
      ProductSign(a, u - a, a * (u - a));
      ProductSign(a, a - u, a * (a - u));
    }
  }

  lemma BendRange(b: Bound, y: real)
    requires b.Valid() && b.Lo() <= y <= b.Hi()
    ensures b.lb <= Bend(b, y) <= b.ub
    ensures y < b.lb + b.al ==> Bend(b, y) <= b.lb + b.al
    ensures y > b.ub - b.au ==> Bend(b, y) >= b.ub - b.au
  {
    var c, d := b.lb + b.al, b.ub - b.au;
    Geometry(b);
    BendMiddle(b, c);
    BendMiddle(b, d);
    if y < c { BendLeft(b, y, c); } else if y > d { BendRight(b, d, y); } else { BendMiddle(b, y); }
  }

  /** The bend is increasing, and never steeper than the identity. */
  lemma BendSlope(b: Bound, y: real, y': real)
    requires b.Valid() && b.Lo() <= y <= y' <= b.Hi()
    ensures 0.0 <= Bend(b, y') - Bend(b, y) <= y' - y
  {
    var c, d := b.lb + b.al, b.ub - b.au;
    Geometry(b);
    hide Bend, Bound.Valid;
    BendMiddle(b, c);
    BendMiddle(b, d);
    if y < c { BendLeft(b, y, Min(y', c)); }
    if y' > d { BendRight(b, Max(y, d), y'); }
    if c <= y <= d { BendMiddle(b, y); }
    if c <= y' <= d { BendMiddle(b, y'); }
  }

  lemma BendMiddle(b: Bound, y: real)
    requires b.Valid() && b.lb + b.al <= y <= b.ub - b.au
    ensures Bend(b, y) == y
  {
  }

  lemma BendLeft(b: Bound, y: real, y': real)
    requires b.Valid() && b.Lo() <= y <= y' <= b.Hi()
    ensures y' <= b.lb + b.al ==> b.lb <= Bend(b, y) && 0.0 <= Bend(b, y') - Bend(b, y) <= y' - y
  {
    Geometry(b);
    hide Parabola;
    if y' <= b.lb + b.al {
      ParabolaSlope(y - b.Lo(), y' - b.Lo(), b.al);
      ParabolaScaled(y - b.Lo(), b.al);
    }
  }

  lemma BendRight(b: Bound, y: real, y': real)
    requires b.Valid() && b.Lo() <= y <= y' <= b.Hi()
    ensures b.ub - b.au <= y ==> Bend(b, y') <= b.ub && 0.0 <= Bend(b, y') - Bend(b, y) <= y' - y
  {
    Geometry(b);
    hide Parabola;
    if b.ub - b.au <= y {
      ParabolaSlope(b.Hi() - y', b.Hi() - y, b.au);
      ParabolaScaled(b.Hi() - y', b.au);
      ParabolaScaled(b.Hi() - y, b.au);
    }
  }

  /** The transformation is non-expansive over all the reals and stays within the bounds. */
  lemma ToFLipschitz(b: Bound, x: real, x': real)
    requires b.Valid()
    ensures Abs(ToF(b, x) - ToF(b, x')) <= Abs(x - x')
    ensures b.lb <= ToF(b, x) <= b.ub
  {
    hide Shift, Bend;
    var z, z' := Shift(b, x), Shift(b, x');
    ShiftIsFold(b, x);
    ShiftIsFold(b, x');
    FoldsContract(b, x, z, x', z');
    if z <= z' { BendSlope(b, z, z'); } else { BendSlope(b, z', z); }
    BendRange(b, z);
  }

  // ----- inverses

  /** The internal representation undoes the bend. */
  lemma InternalUndoesBend(sqrt: Fn, b: Bound, y: real)
    requires IsSqrt(sqrt) && b.Valid() && b.Lo() <= y <= b.Hi()
    ensures ToInternal(sqrt, b, Bend(b, y)) == y
  {
    Geometry(b);
    hide Parabola, IsSqrt, Root;
    if y < b.lb + b.al {
      RootOfParabola(sqrt, y - b.Lo(), b.al);
    } else if y > b.ub - b.au {
      RootOfParabola(sqrt, b.Hi() - y, b.au);
      ParabolaScaled(b.Hi() - y, b.au);
    }
  }

  lemma RootOfParabola(sqrt: Fn, p: real, a: real)
    requires IsSqrt(sqrt) && 0.0 <= p < 2.0 * a
    ensures 0.0 <= Parabola(p, a) < a && Root(sqrt, a, Parabola(p, a)) == p
  {
    ParabolaScaled(p, a);
    ParabolaSlope(p, 2.0 * a, a);
    RootOf(sqrt, a, Parabola(p, a), p / 2.0);
  }

  lemma RootOf(sqrt: Fn, a: real, t: real, s: real)
    requires IsSqrt(sqrt) && s >= 0.0 && a * t == s * s
    ensures Root(sqrt, a, t) == 2.0 * s
  {
    SqrtOfSquare(sqrt, a * t, s);
  }

  /** For every real x, going out and back in again gives the folded x. */
  lemma InternalAfterF(sqrt: Fn, b: Bound, x: real)
    requires IsSqrt(sqrt) && b.Valid()
    ensures ToInternal(sqrt, b, ToF(b, x)) == Shift(b, x)
  {
    hide Shift, Bend, ToInternal;
    ShiftIsFold(b, x);
    InternalUndoesBend(sqrt, b, Shift(b, x));
  }

  lemma ParabolaOfRoot(sqrt: Fn, a: real, t: real)
    requires IsSqrt(sqrt) && 0.0 <= t < a
    ensures 0.0 <= Root(sqrt, a, t) < 2.0 * a && Parabola(Root(sqrt, a, t), a) == t
  {
    var s := sqrt(a * t);
    ProductSign(a, t, a * t);
    ProductSign(a, a - t, a * (a - t));
    assert a * a - a * t == a * (a - t);
    SqrtOfSquare(sqrt, a * a, a);
    SqrtMonotone(sqrt, a * t, a * a);
    assert (2.0 * s) * (2.0 * s) == 4.0 * (a * t);
  }

  /** Within the bounds, the transformation undoes the internal representation. */
  lemma FUndoesInternal(sqrt: Fn, b: Bound, y: real)
    requires IsSqrt(sqrt) && b.Valid() && b.lb <= y <= b.ub
    ensures ToF(b, ToInternal(sqrt, b, y)) == y
  {
    Geometry(b);
    BendOfInternal(sqrt, b, y);
    ShiftIdentity(b, ToInternal(sqrt, b, y));
  }

  lemma BendOfInternal(sqrt: Fn, b: Bound, y: real)
    requires IsSqrt(sqrt) && b.Valid() && b.lb <= y <= b.ub
    ensures b.Lo() <= ToInternal(sqrt, b, y) <= b.Hi() && Bend(b, ToInternal(sqrt, b, y)) == y
  {
    Geometry(b);
    hide Parabola, IsSqrt, Root;
    if y < b.lb + b.al {
      ParabolaOfRoot(sqrt, b.al, Abs(b.lb - y));
    } else if y > b.ub - b.au {
      ParabolaOfRoot(sqrt, b.au, Abs(y - b.ub));
      ParabolaScaled(Root(sqrt, b.au, Abs(y - b.ub)), b.au);
    }
  }

  /** The round trip returns y exactly when y lies within the bounds. */
  lemma RoundTripIff(sqrt: Fn, b: Bound, y: real)
    requires IsSqrt(sqrt) && b.Valid()
    ensures ToF(b, ToInternal(sqrt, b, y)) == y <==> b.lb <= y <= b.ub
  {
    hide ToF, ToInternal;
    if b.lb <= y <= b.ub {
      FUndoesInternal(sqrt, b, y);
    } else {
      ToFLipschitz(b, ToInternal(sqrt, b, y), 0.0);
    }
  }

  // ----- the program

  class PwqBoundStrategy {
    var lbounds: Vec
    var ubounds: Vec
    var phenolbounds: Vec
    var phenoubounds: Vec
    var al: Vec
    var au: Vec
    var xlow: Vec
    var xup: Vec
    var r: Vec

    function At(i: nat): Bound
      requires |lbounds| == |ubounds| == |al| == |au| == |xlow| == |xup| == |r| && i < |lbounds|
      reads this
    {
      Bound(lbounds[i], ubounds[i], al[i], au[i], xlow[i], xup[i], r[i])
    }

    /** The derived vectors agree with the bounds, and no box is empty. */
    ghost predicate Valid()
      reads this
    {
      && |lbounds| == |ubounds| == |al| == |au| == |xlow| == |xup| == |r|
      && forall i :: 0 <= i < |lbounds| ==> At(i).Valid()
    }

    constructor (lb: Vec, ub: Vec)
      requires |lb| == |ub| && forall i :: 0 <= i < |lb| ==> lb[i] < ub[i]
      ensures Valid() && lbounds == lb && ubounds == ub && phenolbounds == lb && phenoubounds == ub
    {
      lbounds, ubounds, phenolbounds, phenoubounds := lb, ub, lb, ub;
      new;
      InitFields();
    }

    constructor WithPheno(lb: Vec, ub: Vec, plb: Vec, pub: Vec)
      requires |lb| == |ub| && forall i :: 0 <= i < |lb| ==> lb[i] < ub[i]
      ensures Valid() && lbounds == lb && ubounds == ub && phenolbounds == plb && phenoubounds == pub
    {
      lbounds, ubounds, phenolbounds, phenoubounds := lb, ub, plb, pub;
      new;
      InitFields();
    }

    /** Both constructors compute the derived vectors the same way. */
    method InitFields()
      requires |lbounds| == |ubounds| && forall i :: 0 <= i < |lbounds| ==> lbounds[i] < ubounds[i]
      modifies `al, `au, `xlow, `xup, `r
      ensures Valid()
    {
      hide Min, Abs, Bound.Valid, Add, Sub, Scale;
      var n, lb, ub := |lbounds|, lbounds, ubounds;
      var diff1 := Sub(ub, lb);
      var diff2 := Scale(0.5, diff1);
      var lows := seq(n, i requires 0 <= i < n => Min(diff2[i], (1.0 / 20.0) * (1.0 + Abs(lb[i]))));
      var ups := seq(n, i requires 0 <= i < n => Min(diff2[i], (1.0 / 20.0) * (1.0 + Abs(ub[i]))));
      al, au := lows, ups;
      xlow := Sub(Sub(lb, Scale(2.0, lows)), diff2);
      xup := Add(Add(ub, Scale(2.0, ups)), diff2);
      r := Scale(2.0, Add(Add(diff1, lows), ups));
      forall i | 0 <= i < n ensures At(i).Valid() {
        FieldComponents(lb, ub, lows, ups, i);
        BoundFields(At(i), diff1[i], diff2[i]);
      }
    }

    /** Folds one coordinate: by whole periods first, then at most one reflection. */
    method ShiftCoordinate(i: nat, x: real) returns (c: real)
      requires Valid() && i < |lbounds|
      ensures c == Shift(At(i), x)
    {
      hide Translation, Bound.Valid;
      Geometry(At(i));
      c := x;
      if c < xlow[i] { c := c + Translation(xlow[i] - c, r[i]); }
      if c > xup[i] { c := c - Translation(c - xup[i], r[i]); }
      if c < lbounds[i] - al[i] { c := c + 2.0 * (lbounds[i] - al[i] - c); }
      if c > ubounds[i] + au[i] { c := c - 2.0 * (c - ubounds[i] - au[i]); }
    }

    /** Folds every coordinate into its widened box; the fatal branch is never entered. */
    method ShiftIntoFeasible(x: Vec) returns (xs: Vec, fatal: bool)
      requires Valid() && |x| <= |lbounds|
      ensures |xs| == |x| && forall i :: 0 <= i < |x| ==> IsFold(At(i), x[i], xs[i]) && xs[i] == Shift(At(i), x[i])
      ensures !fatal
    {
      hide Translation, Bound.Valid, IsFold, Shift;
      xs, fatal := x, false;
      var i := 0;
      while i < |x|
        invariant 0 <= i <= |x| == |xs| && !fatal
        invariant forall j :: i <= j < |x| ==> xs[j] == x[j]
        invariant forall j :: 0 <= j < i ==> xs[j] == Shift(At(j), x[j])
      {
        var c := ShiftCoordinate(i, x[i]);
        ShiftInBox(At(i), x[i]);
        xs := xs[i := c];
        if c < lbounds[i] - al[i] - 0.000000000000001 || c > ubounds[i] + au[i] + 0.000000000000001 {
          fatal := true;
        }
        i := i + 1;
      }
      forall j | 0 <= j < |x| ensures IsFold(At(j), x[j], xs[j]) {
        ShiftIsFold(At(j), x[j]);
      }
    }

    method ToFRepresentation(x: Vec) returns (y: Vec)
      requires Valid() && |x| <= |lbounds|
      ensures |y| == |x| && forall i :: 0 <= i < |x| ==> y[i] == ToF(At(i), x[i]) && lbounds[i] <= y[i] <= ubounds[i]
    {
      var fatal;
      y, fatal := ShiftIntoFeasible(x);
      var i := 0;
      while i < |x|
        invariant 0 <= i <= |x| == |y|
        invariant forall j :: i <= j < |x| ==> y[j] == Shift(At(j), x[j])
        invariant forall j :: 0 <= j < i ==> y[j] == ToF(At(j), x[j]) && lbounds[j] <= y[j] <= ubounds[j]
      {
        hide Shift, Parabola, Bound.Valid;
        ToFLipschitz(At(i), x[i], x[i]);
        assert ToF(At(i), x[i]) == Bend(At(i), y[i]);
        hide ToF;
        var z := y[i];
        if z < lbounds[i] + al[i] {
          z := lbounds[i] + Parabola(z - (lbounds[i] - al[i]), al[i]);
        } else if z > ubounds[i] - au[i] {
          z := ubounds[i] - Parabola(z - (ubounds[i] + au[i]), au[i]);
        }
        assert z == Bend(At(i), y[i]);
        y := y[i := z];
        i := i + 1;
      }
    }

    method ToInternalRepresentation(y: Vec, sqrt: Fn) returns (x: Vec)
      requires Valid() && |y| <= |lbounds|
      ensures |x| == |y| && forall i :: 0 <= i < |y| ==> x[i] == ToInternal(sqrt, At(i), y[i])
    {
      x := y;
      var i := 0;
      while i < |y|
        invariant 0 <= i <= |y| == |x|
        invariant forall j :: i <= j < |y| ==> x[j] == y[j]
        invariant forall j :: 0 <= j < i ==> x[j] == ToInternal(sqrt, At(j), y[j])
      {
        if x[i] < lbounds[i] + al[i] {
          x := x[i := (lbounds[i] - al[i]) + Root(sqrt, al[i], Abs(lbounds[i] - x[i]))];
        } else if x[i] > ubounds[i] - au[i] {
          x := x[i := (ubounds[i] + au[i]) - Root(sqrt, au[i], Abs(x[i] - ubounds[i]))];
        }
        i := i + 1;
      }
    }
  }
}
