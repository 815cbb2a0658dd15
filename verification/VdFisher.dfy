/** The natural gradient that VD-CMA approximates: the Fisher information of a Gaussian with covariance
    D(I + vv')D, with respect to v and to relative changes of D, and the scores of a sample point. */
module VdFisher {
  import opened LinearAlgebra
  import opened RealFunctions
  import opened VdCma

  // ----- the Gaussian

  function Kronecker(i: int, j: int): real {
    if i == j then 1.0 else 0.0
  }

  /** I + vv', the covariance in the metric of D. */
  function Shape(v: Vec): (m: Mat)
    ensures IsSquare(m, |v|)
  {
    FullCov(Ones(|v|), v)
  }

  /** 1 / (1 + |v|^2). */
  function Shrink(v: Vec): (h: real)
    ensures h * (1.0 + Dot(v, v)) == 1.0 && h > 0.0
  {
    SquaredNormPositive(v);
    QuotientPositive(1.0, 1.0 + Dot(v, v));
    1.0 / (1.0 + Dot(v, v))
  }

  /** I - vv' / (1 + |v|^2), the inverse of I + vv'. */
  function Precision(v: Vec): (m: Mat)
    ensures IsSquare(m, |v|)
  {
    seq(|v|, i requires 0 <= i < |v| =>
      seq(|v|, j requires 0 <= j < |v| => Kronecker(i, j) - Shrink(v) * v[i] * v[j]))
  }

  /** The derivative of the log density at the whitened point y with respect to v. */
  function ScoreV(v: Vec, y: Vec): (r: Vec)
    requires |v| == |y|
    ensures |r| == |v|
  {
    var py := Apply(Precision(v), y);
    Sub(Scale(Dot(v, py), py), Apply(Precision(v), v))
  }

  /** The derivative with respect to relative changes of D. */
  function ScoreD(v: Vec, y: Vec): (r: Vec)
    requires |v| == |y|
    ensures |r| == |v|
  {
    Sub(Prod(y, Apply(Precision(v), y)), Ones(|v|))
  }

  // ----- the blocks of the Fisher information

  function FisherVV(v: Vec): (m: Mat)
    ensures IsSquare(m, |v|)
  {
    var p, u := Precision(v), Apply(Precision(v), v);
    seq(|v|, i requires 0 <= i < |v| => seq(|v|, j requires 0 <= j < |v| => Dot(v, u) * p[i][j] + u[i] * u[j]))
  }

  function FisherDV(v: Vec): (m: Mat)
    ensures IsSquare(m, |v|)
  {
    var p, u := Precision(v), Apply(Precision(v), v);
    seq(|v|, i requires 0 <= i < |v| =>
      seq(|v|, j requires 0 <= j < |v| => v[i] * p[i][j] + Kronecker(i, j) * u[i]))
  }

  function FisherVD(v: Vec): (m: Mat)
    ensures IsSquare(m, |v|)
  {
    Transposed(FisherDV(v))
  }

  function FisherDD(v: Vec): (m: Mat)
    ensures IsSquare(m, |v|)
  {
    var p, c := Precision(v), Shape(v);
    seq(|v|, i requires 0 <= i < |v| =>
      seq(|v|, j requires 0 <= j < |v| => Kronecker(i, j) + c[i][j] * p[i][j]))
  }

  function Transposed(m: Mat): (t: Mat)
    requires IsSquare(m, |m|)
    ensures IsSquare(t, |m|)
  {
    seq(|m|, i requires 0 <= i < |m| => seq(|m|, j requires 0 <= j < |m| => m[j][i]))
  }

  /** The step (dv, s) solves the Fisher system for the gradient (gv, gd), the blocks that couple v and D
      damped by alpha. With alpha = 1 it is the natural gradient. */
  predicate DampedSolution(v: Vec, alpha: real, dv: Vec, s: Vec, gv: Vec, gd: Vec)
    requires |v| == |dv| == |s|
  {
    && Add(Apply(FisherVV(v), dv), Scale(alpha, Apply(FisherVD(v), s))) == gv
    && Add(Scale(alpha, Apply(FisherDV(v), dv)), Apply(FisherDD(v), s)) == gd
  }

  // ----- the rows of these matrices

  /** A product of three factors, named so that the solver keeps it together. */
  function Triple(h: real, a: real, b: real): real {
    h * a * b
  }

  lemma PrecisionEntry(v: Vec, i: nat, j: nat)
    requires i < |v| && j < |v|
    ensures Precision(v)[i][j] == Kronecker(i, j) - Triple(Shrink(v), v[i], v[j])
  {
  }

  lemma PrecisionRow(v: Vec, z: Vec, i: nat)
    requires |v| == |z| && i < |v|
    ensures Apply(Precision(v), z)[i] == z[i] - Triple(Shrink(v), v[i], Dot(v, z))
  {
    hide Shrink, Dot;
    var e, k, row := Identity(|v|)[i], -(Shrink(v) * v[i]), Precision(v)[i];
    assert forall j :: 0 <= j < |v| ==> row[j] == Blend(1.0, e[j], k, v[j]);
    RowInner(1.0, e, k, v, row, z, i);
  }

  /** The inverse of I + vv' maps v to v / (1 + |v|^2). */
  lemma PrecisionOfV(v: Vec)
    ensures var u := Apply(Precision(v), v);
            (forall i :: 0 <= i < |v| ==> u[i] == Shrink(v) * v[i]) && Dot(v, u) == Shrink(v) * Dot(v, v)
  {
    hide Dot, Precision, Triple, Shrink;
    var u, h, n := Apply(Precision(v), v), Shrink(v), Dot(v, v);
    forall i | 0 <= i < |v| ensures u[i] == h * v[i] {
      PrecisionRow(v, v, i);
      ShrunkComponent(h, n, v[i], Triple(h, v[i], n));
    }
    DotScaled(h, v, u, v);
  }

  lemma ShrunkComponent(h: real, n: real, a: real, t: real)
    requires h * (1.0 + n) == 1.0 && t == Triple(h, a, n)
    ensures a - t == h * a
  {
    assert (h * (1.0 + n)) * a == h * a + t;
  }

  lemma PrecisionInner(v: Vec, x: Vec)
    requires |v| == |x|
    ensures Dot(v, Apply(Precision(v), x)) == Shrink(v) * Dot(v, x)
  {
    hide Dot, Precision, Triple, Shrink;
    var y, h, s := Apply(Precision(v), x), Shrink(v), Dot(v, x);
    forall i | 0 <= i < |v| ensures y[i] == Moved(x[i], -(h * s), v[i]) {
      PrecisionRow(v, x, i);
      TripleSwap(h, v[i], s);
    }
    DotOfCombination(x, -(h * s), v, y, v);
    ShrunkInner(h, Dot(v, v), s, Dot(v, y));
  }

  lemma ShrunkInner(h: real, n: real, s: real, t: real)
    requires h * (1.0 + n) == 1.0 && t == Moved(s, -(h * s), n)
    ensures t == h * s
  {
    assert (h * (1.0 + n)) * s == h * s + (h * s) * n;
  }

  /** The two matrices are inverse to each other. */
  lemma PrecisionIsInverse(v: Vec, x: Vec)
    requires |v| == |x|
    ensures Apply(Shape(v), Apply(Precision(v), x)) == x
  {
    hide Dot, Precision, Triple, Shrink, FullCov, Shape;
    var y, h, s := Apply(Precision(v), x), Shrink(v), Dot(v, x);
    forall i | 0 <= i < |v| ensures y[i] == Moved(x[i], -(h * s), v[i]) {
      PrecisionRow(v, x, i);
      TripleSwap(h, v[i], s);
    }
    PrecisionInner(v, x);
    forall i | 0 <= i < |v| ensures Apply(Shape(v), y)[i] == x[i] {
      ShapeRow(v, y, i);
      InverseAlgebra(x[i], v[i], h, s, y[i], Dot(v, y));
    }
  }

  lemma TripleSwap(h: real, a: real, s: real)
    ensures Triple(h, a, s) == (h * s) * a
  {
  }

  lemma InverseAlgebra(x: real, v: real, h: real, s: real, y: real, t: real)
    requires y == Moved(x, -(h * s), v) && t == h * s
    ensures y + v * t == x
  {
  }

  lemma ShapeRow(v: Vec, z: Vec, i: nat)
    requires |v| == |z| && i < |v|
    ensures Apply(Shape(v), z)[i] == z[i] + v[i] * Dot(v, z)
  {
    hide Dot, FullCov;
    FullCovRow(Ones(|v|), v, z, i);
    assert Prod(Ones(|v|), z) == z;
  }

  lemma ShapeEntry(v: Vec, i: nat, j: nat)
    requires i < |v| && j < |v|
    ensures Shape(v)[i][j] == Kronecker(i, j) + v[i] * v[j]
  {
  }

  // the coefficients of the unit row and of v, or of its squares, in row i of each block

  function CoeffVV(h: real, n: real, a: real): real {
    (h * h) * ((1.0 - n) * a)
  }

  function CoeffN(h: real, n: real): real {
    h * n
  }

  function CoeffShrunk(h: real, a: real): real {
    -(h * a)
  }

  function CoeffSquare(h: real, a: real): real {
    -(h * (a * a))
  }

  function CoeffD(h: real, a: real): real {
    (1.0 + h) * a
  }

  function CoeffDD(h: real, a: real): real {
    2.0 + a * a - h * (a * a)
  }

  lemma RowVV(v: Vec, z: Vec, i: nat, h: real, n: real)
    requires |v| == |z| && i < |v| && h == Shrink(v) && n == Dot(v, v)
    ensures Apply(FisherVV(v), z)[i] == Blend(CoeffN(h, n), z[i], CoeffVV(h, n, v[i]), Dot(v, z))
  {
    PrecisionOfV(v);
    hide Shrink, Dot, Precision, Blend, Triple, CoeffVV, CoeffN;
    var e, row, u, a, k := Identity(|v|)[i], FisherVV(v)[i], Apply(Precision(v), v), CoeffN(h, n), CoeffVV(h, n, v[i]);
    forall j | 0 <= j < |v| ensures row[j] == Blend(a, e[j], k, v[j]) {
      PrecisionEntry(v, i, j);
      assert row[j] == Dot(v, u) * Precision(v)[i][j] + u[i] * u[j];
      assert Dot(v, u) == a by { NormCoeff(h, n); }
      EntryVV(h, n, v[i], v[j], e[j], Precision(v)[i][j], u[i], u[j], row[j], a, k);
    }
    assert Apply(FisherVV(v), z)[i] == Dot(row, z);
    hide FisherVV;
    RowInner(a, e, k, v, row, z, i);
  }

  lemma NormCoeff(h: real, n: real)
    ensures CoeffN(h, n) == h * n
  {
  }

  lemma EntryVV(h: real, n: real, a: real, b: real, e: real, p: real, u: real, t: real, r: real, c: real, k: real)
    requires p == e - Triple(h, a, b) && u == h * a && t == h * b && c == CoeffN(h, n) && r == c * p + u * t
    requires k == CoeffVV(h, n, a)
    ensures r == Blend(c, e, k, b)
  {
    var w := (h * h) * (a * b);
    assert c * Triple(h, a, b) == n * w;
    assert u * t == w;
    assert k * b == (1.0 - n) * w;
  }

  lemma RowVD(v: Vec, z: Vec, i: nat, h: real)
    requires |v| == |z| && i < |v| && h == Shrink(v)
    ensures Apply(FisherVD(v), z)[i] == Blend(CoeffD(h, v[i]), z[i], CoeffShrunk(h, v[i]), Dot(Prod(v, v), z))
  {
    PrecisionOfV(v);
    hide Shrink, Dot, Precision, Blend, Triple, CoeffD, CoeffShrunk, CoeffSquare;
    var e, row, u, w, a, k :=
      Identity(|v|)[i], FisherVD(v)[i], Apply(Precision(v), v), Prod(v, v), CoeffD(h, v[i]), CoeffShrunk(h, v[i]);
    forall j | 0 <= j < |v| ensures row[j] == Blend(a, e[j], k, w[j]) {
      PrecisionEntry(v, j, i);
      assert row[j] == v[j] * Precision(v)[j][i] + Kronecker(j, i) * u[j];
      EntryVD(h, v[i], v[j], i == j, e[j], Precision(v)[j][i], u[j], row[j], a, k, w[j]);
    }
    assert Apply(FisherVD(v), z)[i] == Dot(row, z);
    hide FisherVD;
    RowInner(a, e, k, w, row, z, i);
  }

  lemma EntryVD(h: real, a: real, b: real, same: bool, e: real, p: real, u: real, r: real, c: real, k: real, w: real)
    requires if same then a == b && e == 1.0 else e == 0.0
    requires p == e - Triple(h, b, a) && u == h * b && r == b * p + e * u
    requires c == CoeffD(h, a) && k == CoeffShrunk(h, a) && w == b * b
    ensures r == Blend(c, e, k, w)
  {
    assert b * Triple(h, b, a) == (h * a) * w;
  }

  lemma RowDV(v: Vec, z: Vec, i: nat, h: real)
    requires |v| == |z| && i < |v| && h == Shrink(v)
    ensures Apply(FisherDV(v), z)[i] == Blend(CoeffD(h, v[i]), z[i], CoeffSquare(h, v[i]), Dot(v, z))
  {
    PrecisionOfV(v);
    hide Shrink, Dot, Precision, Blend, Triple, CoeffD, CoeffShrunk, CoeffSquare;
    var e, row, u, a, k :=
      Identity(|v|)[i], FisherDV(v)[i], Apply(Precision(v), v), CoeffD(h, v[i]), CoeffSquare(h, v[i]);
    forall j | 0 <= j < |v| ensures row[j] == Blend(a, e[j], k, v[j]) {
      PrecisionEntry(v, i, j);
      assert row[j] == v[i] * Precision(v)[i][j] + Kronecker(i, j) * u[i];
      EntryDV(h, v[i], v[j], e[j], Precision(v)[i][j], u[i], row[j], a, k);
    }
    assert Apply(FisherDV(v), z)[i] == Dot(row, z);
    hide FisherDV;
    RowInner(a, e, k, v, row, z, i);
  }

  lemma EntryDV(h: real, a: real, b: real, e: real, p: real, u: real, r: real, c: real, k: real)
    requires p == e - Triple(h, a, b) && u == h * a && r == a * p + e * u
    requires c == CoeffD(h, a) && k == CoeffSquare(h, a)
    ensures r == Blend(c, e, k, b)
  {
    assert a * Triple(h, a, b) == (h * (a * a)) * b;
  }

  lemma RowDD(v: Vec, z: Vec, i: nat, h: real)
    requires |v| == |z| && i < |v| && h == Shrink(v)
    ensures Apply(FisherDD(v), z)[i] == Blend(CoeffDD(h, v[i]), z[i], CoeffSquare(h, v[i]), Dot(Prod(v, v), z))
  {
    hide Shrink, Dot, Precision, Blend, Triple, Shape, CoeffDD, CoeffSquare;
    var e, row, w, a, k :=
      Identity(|v|)[i], FisherDD(v)[i], Prod(v, v), CoeffDD(h, v[i]), CoeffSquare(h, v[i]);
    forall j | 0 <= j < |v| ensures row[j] == Blend(a, e[j], k, w[j]) {
      PrecisionEntry(v, i, j);
      ShapeEntry(v, i, j);
      assert row[j] == Kronecker(i, j) + Shape(v)[i][j] * Precision(v)[i][j];
      EntryDD(h, v[i], v[j], i == j, e[j], Precision(v)[i][j], Shape(v)[i][j], row[j], a, k, w[j]);
    }
    assert Apply(FisherDD(v), z)[i] == Dot(row, z);
    hide FisherDD;
    RowInner(a, e, k, w, row, z, i);
  }

  lemma EntryDD(h: real, a: real, b: real, same: bool, e: real, p: real, q: real, r: real, c: real, k: real, w: real)
    requires if same then a == b && e == 1.0 else e == 0.0
    requires p == e - Triple(h, a, b) && q == e + a * b && r == e + q * p
    requires c == CoeffDD(h, a) && k == CoeffSquare(h, a) && w == b * b
    ensures r == Blend(c, e, k, w)
  {
    assert (a * b) * Triple(h, a, b) == (h * (a * a)) * w;
  }
}
