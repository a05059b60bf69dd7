/** Exact real vectors and matrices of any size, with the algebra that the
    Kalman filter (tools/extended_kalman_filter.cpp) and the LQR passes
    (3rdparty/tinympc/admm.cpp) rely on.  A matrix is a list of rows that knows
    its two dimensions, so empty matrices are unambiguous. */
module Matrix {

  type Vec = seq<real>

  datatype RawMat = RawMat(rows: nat, cols: nat, row: seq<Vec>)
  {
    predicate Valid() {
      |row| == rows && forall i :: 0 <= i < rows ==> |row[i]| == cols
    }
  }

  type Mat = m: RawMat | m.Valid() witness RawMat(0, 0, [])

  // ----- Scalars -----

  /** The product of two scalars.  Naming it lets the solver match products as
      terms instead of expanding polynomials. */
  function Times(x: real, y: real): real { x * y }

  lemma TimesLaws(s: real, x: real, y: real, z: real)
    ensures Times(x, y) == Times(y, x)
    ensures Times(x + y, z) == Times(x, z) + Times(y, z) && Times(x - y, z) == Times(x, z) - Times(y, z)
    ensures Times(s, Times(x, y) + z) == Times(Times(s, x), y) + Times(s, z)
    ensures Times(s, Times(x, y) + z) == Times(x, Times(s, y)) + Times(s, z)
    ensures Times(x, 0.0) == 0.0 && Times(0.0, x) == 0.0 && Times(x, 1.0) == x && Times(-x, y) == -Times(x, y)
  {
    assert (s * x) * y == s * (x * y) == x * (s * y);
  }

  lemma TimesSign(x: real, y: real)
    ensures x >= 0.0 && y >= 0.0 ==> Times(x, y) >= 0.0
    ensures x >= 0.0 && y <= 0.0 ==> Times(x, y) <= 0.0
    ensures x <= 0.0 && y >= 0.0 ==> Times(x, y) <= 0.0
    ensures Times(x, x) >= 0.0
  {
  }

  lemma TimesOrder(x: real, y: real)
    requires x > 0.0
    ensures Times(x, y) >= 0.0 <==> y >= 0.0
    ensures Times(x, y) <= 0.0 <==> y <= 0.0
  {
    if y > 0.0 { assert x * y > 0.0; }
    if y < 0.0 { assert x * y < 0.0; }
  }

  lemma SquarePositive(t: real)
    requires t != 0.0
    ensures Times(t, t) > 0.0
  {
    assert Times(-t, -t) == Times(t, t);
    if t > 0.0 { TimesOrder(t, t); } else { TimesOrder(-t, -t); }
  }

  // ----- Vectors -----

  function Dot(a: Vec, b: Vec): real
    requires |a| == |b|
  {
    if |a| == 0 then 0.0 else Times(a[0], b[0]) + Dot(a[1..], b[1..])
  }

  function Add(a: Vec, b: Vec): Vec
    requires |a| == |b|
  {
    seq(|a|, i requires 0 <= i < |a| => a[i] + b[i])
  }

  function Scale(s: real, a: Vec): Vec {
    seq(|a|, i requires 0 <= i < |a| => Times(s, a[i]))
  }

  function Neg(a: Vec): Vec {
    seq(|a|, i requires 0 <= i < |a| => -a[i])
  }

  function Sub(a: Vec, b: Vec): Vec
    requires |a| == |b|
  {
    seq(|a|, i requires 0 <= i < |a| => a[i] - b[i])
  }

  function Zeros(n: nat): Vec {
    seq(n, i => 0.0)
  }

  lemma {:induction false} DotComm(a: Vec, b: Vec)
    requires |a| == |b|
    ensures Dot(a, b) == Dot(b, a)
  {
    if |a| != 0 {
      DotComm(a[1..], b[1..]);
      TimesLaws(0.0, a[0], b[0], 0.0);
    }
  }

  lemma {:induction false} DotAdd(a: Vec, b: Vec, c: Vec)
    requires |a| == |b| == |c|
    ensures Dot(Add(a, b), c) == Dot(a, c) + Dot(b, c)
  {
    if |a| != 0 {
      assert Add(a, b)[1..] == Add(a[1..], b[1..]);
      DotAdd(a[1..], b[1..], c[1..]);
      TimesLaws(0.0, a[0], b[0], c[0]);
    }
  }

  lemma {:induction false} DotSub(a: Vec, b: Vec, c: Vec)
    requires |a| == |b| == |c|
    ensures Dot(Sub(a, b), c) == Dot(a, c) - Dot(b, c)
  {
    if |a| != 0 {
      assert Sub(a, b)[1..] == Sub(a[1..], b[1..]);
      DotSub(a[1..], b[1..], c[1..]);
      TimesLaws(0.0, a[0], b[0], c[0]);
    }
  }

  lemma {:induction false} DotNeg(a: Vec, b: Vec)
    requires |a| == |b|
    ensures Dot(Neg(a), b) == -Dot(a, b)
  {
    if |a| != 0 {
      assert Neg(a)[1..] == Neg(a[1..]);
      DotNeg(a[1..], b[1..]);
      TimesLaws(0.0, a[0], b[0], 0.0);
    }
  }

  lemma ScaleTail(s: real, a: Vec)
    requires |a| > 0
    ensures Scale(s, a)[1..] == Scale(s, a[1..])
  {
    forall i | 0 <= i < |a| - 1 ensures Scale(s, a)[1..][i] == Scale(s, a[1..])[i] {
      assert a[1..][i] == a[i + 1];
    }
  }

  lemma {:induction false} DotScale(s: real, a: Vec, b: Vec)
    requires |a| == |b|
    ensures Dot(Scale(s, a), b) == Times(s, Dot(a, b)) && Dot(a, Scale(s, b)) == Times(s, Dot(a, b))
    decreases |a|
  {
    if |a| == 0 {
      TimesLaws(0.0, s, 0.0, 0.0);
    } else {
      ScaleTail(s, a);
      ScaleTail(s, b);
      DotScale(s, a[1..], b[1..]);
      TimesLaws(s, a[0], b[0], Dot(a[1..], b[1..]));
    }
  }

  lemma {:induction false} DotZeros(n: nat, a: Vec)
    requires |a| == n
    ensures Dot(Zeros(n), a) == 0.0
  {
    if n != 0 {
      assert Zeros(n)[1..] == Zeros(n - 1);
      DotZeros(n - 1, a[1..]);
      TimesLaws(0.0, a[0], 0.0, 0.0);
    }
  }

  lemma {:induction false} SelfDot(x: Vec)
    ensures Dot(x, x) >= 0.0
    ensures x != Zeros(|x|) ==> Dot(x, x) > 0.0
  {
    if |x| > 0 {
      TimesSign(x[0], x[0]);
      SelfDot(x[1..]);
      if x[0] != 0.0 { SquarePositive(x[0]); }
    }
  }

  // ----- Matrices -----

  function Apply(M: Mat, v: Vec): (r: Vec)
    requires |v| == M.cols
    ensures |r| == M.rows
  {
    seq(M.rows, i requires 0 <= i < M.rows => Dot(M.row[i], v))
  }

  function Col(M: Mat, j: nat): (r: Vec)
    requires j < M.cols
    ensures |r| == M.rows
  {
    seq(M.rows, i requires 0 <= i < M.rows => M.row[i][j])
  }

  function Transpose(M: Mat): (r: Mat)
    ensures r.rows == M.cols && r.cols == M.rows
  {
    RawMat(M.cols, M.rows, seq(M.cols, j requires 0 <= j < M.cols => Col(M, j)))
  }

  function Mul(A: Mat, B: Mat): (r: Mat)
    requires A.cols == B.rows
    ensures r.rows == A.rows && r.cols == B.cols
  {
    RawMat(A.rows, B.cols,
           seq(A.rows, i requires 0 <= i < A.rows => Apply(Transpose(B), A.row[i])))
  }

  function MAdd(A: Mat, B: Mat): (r: Mat)
    requires A.rows == B.rows && A.cols == B.cols
    ensures r.rows == A.rows && r.cols == A.cols
  {
    RawMat(A.rows, A.cols, seq(A.rows, i requires 0 <= i < A.rows => Add(A.row[i], B.row[i])))
  }

  function MSub(A: Mat, B: Mat): (r: Mat)
    requires A.rows == B.rows && A.cols == B.cols
    ensures r.rows == A.rows && r.cols == A.cols
  {
    RawMat(A.rows, A.cols, seq(A.rows, i requires 0 <= i < A.rows => Sub(A.row[i], B.row[i])))
  }

  /** The diagonal matrix with the given diagonal. */
  function Diag(d: Vec): (r: Mat)
    ensures r.rows == r.cols == |d|
  {
    RawMat(|d|, |d|, seq(|d|, i requires 0 <= i < |d| =>
      seq(|d|, j requires 0 <= j < |d| => if i == j then d[i] else 0.0)))
  }

  function Identity(n: nat): (r: Mat)
    ensures r.rows == r.cols == n
  {
    Diag(seq(n, i => 1.0))
  }

  function ZeroMat(rows: nat, cols: nat): (r: Mat)
    ensures r.rows == rows && r.cols == cols
  {
    RawMat(rows, cols, seq(rows, i => Zeros(cols)))
  }

  function Outer(a: Vec, b: Vec): (r: Mat)
    ensures r.rows == |a| && r.cols == |b|
  {
    RawMat(|a|, |b|, seq(|a|, i requires 0 <= i < |a| => Scale(a[i], b)))
  }

  /** x' M y */
  function Form(M: Mat, x: Vec, y: Vec): real
    requires |x| == M.rows && |y| == M.cols
  {
    Dot(x, Apply(M, y))
  }

  /** x' M x */
  function Quad(M: Mat, x: Vec): real
    requires |x| == M.rows == M.cols
  {
    Form(M, x, x)
  }

  predicate Square(M: Mat, n: nat) { M.rows == M.cols == n }

  predicate Symmetric(M: Mat) { Transpose(M) == M }

  ghost predicate Psd(M: Mat) {
    M.rows == M.cols && forall x: Vec {:trigger Quad(M, x)} :: |x| == M.rows ==> Quad(M, x) >= 0.0
  }

  ghost predicate Covariance(P: Mat, n: nat) {
    Square(P, n) && Symmetric(P) && Psd(P)
  }

  /** A <= B in the order of quadratic forms. */
  ghost predicate Loewner(A: Mat, B: Mat) {
    && A.rows == A.cols == B.rows == B.cols
    && forall x: Vec {:trigger Quad(A, x)} {:trigger Quad(B, x)} :: |x| == A.rows ==> Quad(A, x) <= Quad(B, x)
  }

  ghost predicate Pd(M: Mat) {
    M.rows == M.cols && forall x: Vec {:trigger Quad(M, x)} :: |x| == M.rows && x != Zeros(M.rows) ==> Quad(M, x) > 0.0
  }

  // ----- Linearity of the action -----

  lemma ApplyAdd(M: Mat, a: Vec, b: Vec)
    requires |a| == |b| == M.cols
    ensures Apply(M, Add(a, b)) == Add(Apply(M, a), Apply(M, b))
  {
    forall i | 0 <= i < M.rows
      ensures Apply(M, Add(a, b))[i] == Add(Apply(M, a), Apply(M, b))[i]
    {
      DotComm(M.row[i], Add(a, b));
      DotAdd(a, b, M.row[i]);
      DotComm(M.row[i], a);
      DotComm(M.row[i], b);
    }
  }

  lemma ApplySub(M: Mat, a: Vec, b: Vec)
    requires |a| == |b| == M.cols
    ensures Apply(M, Sub(a, b)) == Sub(Apply(M, a), Apply(M, b))
  {
    forall i | 0 <= i < M.rows
      ensures Apply(M, Sub(a, b))[i] == Sub(Apply(M, a), Apply(M, b))[i]
    {
      DotComm(M.row[i], Sub(a, b));
      DotSub(a, b, M.row[i]);
      DotComm(M.row[i], a);
      DotComm(M.row[i], b);
    }
  }

  lemma ApplyMAdd(A: Mat, B: Mat, v: Vec)
    requires A.rows == B.rows && A.cols == B.cols == |v|
    ensures Apply(MAdd(A, B), v) == Add(Apply(A, v), Apply(B, v))
  {
    forall i | 0 <= i < A.rows
      ensures Apply(MAdd(A, B), v)[i] == Add(Apply(A, v), Apply(B, v))[i]
    {
      DotAdd(A.row[i], B.row[i], v);
    }
  }

  lemma ApplyMSub(A: Mat, B: Mat, v: Vec)
    requires A.rows == B.rows && A.cols == B.cols == |v|
    ensures Apply(MSub(A, B), v) == Sub(Apply(A, v), Apply(B, v))
  {
    forall i | 0 <= i < A.rows
      ensures Apply(MSub(A, B), v)[i] == Sub(Apply(A, v), Apply(B, v))[i]
    {
      DotSub(A.row[i], B.row[i], v);
    }
  }

  // ----- The adjoint law, from which the product laws follow -----

  function DropRow(M: Mat): (r: Mat)
    requires M.rows > 0
    ensures r.rows == M.rows - 1 && r.cols == M.cols
  {
    RawMat(M.rows - 1, M.cols, M.row[1..])
  }

  lemma TransposeApplySplit(M: Mat, x: Vec)
    requires M.rows > 0 && |x| == M.rows
    ensures Apply(Transpose(M), x) ==
            Add(Scale(x[0], M.row[0]), Apply(Transpose(DropRow(M)), x[1..]))
  {
    forall j | 0 <= j < M.cols
      ensures Apply(Transpose(M), x)[j] ==
              Add(Scale(x[0], M.row[0]), Apply(Transpose(DropRow(M)), x[1..]))[j]
    {
      assert Col(M, j)[1..] == Col(DropRow(M), j);
      TimesLaws(0.0, x[0], M.row[0][j], 0.0);
    }
  }

  /** x . (M y) == (M' x) . y */
  lemma {:induction false} Adjoint(M: Mat, x: Vec, y: Vec)
    requires |x| == M.rows && |y| == M.cols
    ensures Dot(x, Apply(M, y)) == Dot(Apply(Transpose(M), x), y)
    decreases M.rows
  {
    if M.rows == 0 {
      forall j | 0 <= j < M.cols ensures Apply(Transpose(M), x)[j] == Zeros(M.cols)[j] {}
      assert Apply(Transpose(M), x) == Zeros(M.cols);
      DotZeros(M.cols, y);
    } else {
      var M' := DropRow(M);
      var x' := x[1..];
      assert Apply(M, y)[1..] == Apply(M', y);
      Adjoint(M', x', y);
      TransposeApplySplit(M, x);
      var t := Apply(Transpose(M'), x');
      DotAdd(Scale(x[0], M.row[0]), t, y);
      DotScale(x[0], M.row[0], y);
    }
  }

  lemma TransposeTwice(M: Mat)
    ensures Transpose(Transpose(M)) == M
  {
    forall i | 0 <= i < M.rows ensures Transpose(Transpose(M)).row[i] == M.row[i] {
      forall j | 0 <= j < M.cols ensures Transpose(Transpose(M)).row[i][j] == M.row[i][j] {}
    }
    assert Transpose(Transpose(M)).row == M.row;
  }

  lemma ApplyMul(A: Mat, B: Mat, v: Vec)
    requires A.cols == B.rows && |v| == B.cols
    ensures Apply(Mul(A, B), v) == Apply(A, Apply(B, v))
  {
    forall i | 0 <= i < A.rows
      ensures Apply(Mul(A, B), v)[i] == Apply(A, Apply(B, v))[i]
    {
      Adjoint(B, A.row[i], v);
    }
  }

  lemma TransposeMul(A: Mat, B: Mat)
    requires A.cols == B.rows
    ensures Transpose(Mul(A, B)) == Mul(Transpose(B), Transpose(A))
  {
    TransposeTwice(A);
    var L, R := Transpose(Mul(A, B)), Mul(Transpose(B), Transpose(A));
    forall j | 0 <= j < B.cols ensures L.row[j] == R.row[j] {
      forall i | 0 <= i < A.rows ensures L.row[j][i] == R.row[j][i] {
        DotComm(Col(B, j), A.row[i]);
      }
    }
    assert L.row == R.row;
  }

  lemma TransposeMAdd(A: Mat, B: Mat)
    requires A.rows == B.rows && A.cols == B.cols
    ensures Transpose(MAdd(A, B)) == MAdd(Transpose(A), Transpose(B))
  {
    var L, R := Transpose(MAdd(A, B)), MAdd(Transpose(A), Transpose(B));
    forall j | 0 <= j < A.cols ensures L.row[j] == R.row[j] {
      forall i | 0 <= i < A.rows ensures L.row[j][i] == R.row[j][i] {}
    }
    assert L.row == R.row;
  }

  /** Two matrices with the same action are equal. */
  lemma {:induction false} SameAction(A: Mat, B: Mat)
    requires A.rows == B.rows && A.cols == B.cols
    requires forall v: Vec {:trigger Apply(A, v)} :: |v| == A.cols ==> Apply(A, v) == Apply(B, v)
    ensures A == B
  {
    forall i | 0 <= i < A.rows ensures A.row[i] == B.row[i] {
      forall j | 0 <= j < A.cols ensures A.row[i][j] == B.row[i][j] {
        var e := Unit(A.cols, j);
        DotUnit(A.row[i], j);
        DotUnit(B.row[i], j);
        assert Apply(A, e)[i] == Apply(B, e)[i];
      }
    }
    assert A.row == B.row;
  }

  function Unit(n: nat, k: nat): (r: Vec)
    ensures |r| == n
  {
    seq(n, i => if i == k then 1.0 else 0.0)
  }

  lemma {:induction false} DotUnit(a: Vec, k: nat)
    requires k < |a|
    ensures Dot(a, Unit(|a|, k)) == a[k]
  {
    TimesLaws(0.0, a[0], 0.0, 0.0);
    if k == 0 {
      assert Unit(|a|, 0)[1..] == Zeros(|a| - 1);
      DotComm(a[1..], Zeros(|a| - 1));
      DotZeros(|a| - 1, a[1..]);
    } else {
      assert Unit(|a|, k)[1..] == Unit(|a| - 1, k - 1);
      DotUnit(a[1..], k - 1);
    }
  }

  lemma MulAssoc(A: Mat, B: Mat, C: Mat)
    requires A.cols == B.rows && B.cols == C.rows
    ensures Mul(Mul(A, B), C) == Mul(A, Mul(B, C))
  {
    forall v: Vec | |v| == C.cols
      ensures Apply(Mul(Mul(A, B), C), v) == Apply(Mul(A, Mul(B, C)), v)
    {
      ApplyMul(Mul(A, B), C, v);
      ApplyMul(A, B, Apply(C, v));
      ApplyMul(A, Mul(B, C), v);
      ApplyMul(B, C, v);
    }
    SameAction(Mul(Mul(A, B), C), Mul(A, Mul(B, C)));
  }

  lemma ApplyIdentity(n: nat, v: Vec)
    requires |v| == n
    ensures Apply(Identity(n), v) == v
  {
    forall i | 0 <= i < n ensures Apply(Identity(n), v)[i] == v[i] {
      assert Identity(n).row[i] == Unit(n, i);
      DotComm(Unit(n, i), v);
      DotUnit(v, i);
    }
  }

  lemma MulIdentity(M: Mat)
    ensures Mul(M, Identity(M.cols)) == M && Mul(Identity(M.rows), M) == M
  {
    forall v: Vec | |v| == M.cols
      ensures Apply(Mul(M, Identity(M.cols)), v) == Apply(M, v) == Apply(Mul(Identity(M.rows), M), v)
    {
      ApplyMul(M, Identity(M.cols), v);
      ApplyMul(Identity(M.rows), M, v);
      ApplyIdentity(M.cols, v);
      ApplyIdentity(M.rows, Apply(M, v));
    }
    SameAction(Mul(M, Identity(M.cols)), M);
    SameAction(Mul(Identity(M.rows), M), M);
  }

  // ----- Quadratic forms -----

  lemma FormAddLeft(M: Mat, a: Vec, b: Vec, y: Vec)
    requires |a| == |b| == M.rows && |y| == M.cols
    ensures Form(M, Add(a, b), y) == Form(M, a, y) + Form(M, b, y)
  {
    DotAdd(a, b, Apply(M, y));
  }

  lemma FormAddRight(M: Mat, x: Vec, a: Vec, b: Vec)
    requires |x| == M.rows && |a| == |b| == M.cols
    ensures Form(M, x, Add(a, b)) == Form(M, x, a) + Form(M, x, b)
  {
    ApplyAdd(M, a, b);
    DotComm(x, Add(Apply(M, a), Apply(M, b)));
    DotAdd(Apply(M, a), Apply(M, b), x);
    DotComm(x, Apply(M, a));
    DotComm(x, Apply(M, b));
  }

  lemma FormSwap(M: Mat, x: Vec, y: Vec)
    requires |x| == M.rows && |y| == M.cols
    ensures Form(M, x, y) == Form(Transpose(M), y, x)
  {
    Adjoint(M, x, y);
    DotComm(Apply(Transpose(M), x), y);
  }

  /** (a+b)' M (a+b) for symmetric M. */
  lemma QuadAdd(M: Mat, a: Vec, b: Vec)
    requires Symmetric(M) && |a| == |b| == M.rows == M.cols
    ensures Quad(M, Add(a, b)) == Quad(M, a) + 2.0 * Form(M, a, b) + Quad(M, b)
  {
    FormAddLeft(M, a, b, Add(a, b));
    FormAddRight(M, a, a, b);
    FormAddRight(M, b, a, b);
    FormSwap(M, b, a);
  }

  lemma ApplyScale(M: Mat, t: real, x: Vec)
    requires |x| == M.cols
    ensures Apply(M, Scale(t, x)) == Scale(t, Apply(M, x))
  {
    forall i | 0 <= i < M.rows ensures Apply(M, Scale(t, x))[i] == Scale(t, Apply(M, x))[i] {
      DotScale(t, M.row[i], x);
    }
  }

  lemma DotScaleRight(t: real, a: Vec, b: Vec)
    requires |a| == |b|
    ensures Dot(a, Scale(t, b)) == Times(t, Dot(a, b)) && Dot(Scale(t, a), b) == Times(t, Dot(a, b))
  {
    DotScale(t, a, b);
    DotScale(t, b, a);
    DotComm(a, b);
    DotComm(Scale(t, a), b);
  }

  lemma QuadScale(M: Mat, t: real, x: Vec)
    requires |x| == M.rows == M.cols
    ensures Quad(M, Scale(t, x)) == Times(t, Times(t, Quad(M, x)))
  {
    ApplyScale(M, t, x);
    DotScaleRight(t, Scale(t, x), Apply(M, x));
    DotScaleRight(t, x, Apply(M, x));
  }

  /** (a-b)' M (a-b) for symmetric M. */
  lemma QuadSub(M: Mat, a: Vec, b: Vec)
    requires Symmetric(M) && |a| == |b| == M.rows == M.cols
    ensures Quad(M, Sub(a, b)) == Quad(M, a) - 2.0 * Form(M, b, a) + Quad(M, b)
  {
    var e := Sub(a, b);
    FormSubRight(M, e, a, b);
    FormSwap(M, e, a);
    FormSwap(M, e, b);
    FormSubRight(M, a, a, b);
    FormSubRight(M, b, a, b);
    FormSwap(M, a, b);
  }

  lemma FormSubRight(M: Mat, x: Vec, a: Vec, b: Vec)
    requires |x| == M.rows && |a| == |b| == M.cols
    ensures Form(M, x, Sub(a, b)) == Form(M, x, a) - Form(M, x, b)
  {
    ApplySub(M, a, b);
    DotComm(x, Sub(Apply(M, a), Apply(M, b)));
    DotSub(Apply(M, a), Apply(M, b), x);
    DotComm(x, Apply(M, a));
    DotComm(x, Apply(M, b));
  }

  lemma FormMAdd(A: Mat, B: Mat, x: Vec, y: Vec)
    requires A.rows == B.rows == |x| && A.cols == B.cols == |y|
    ensures Form(MAdd(A, B), x, y) == Form(A, x, y) + Form(B, x, y)
  {
    ApplyMAdd(A, B, y);
    DotComm(x, Add(Apply(A, y), Apply(B, y)));
    DotAdd(Apply(A, y), Apply(B, y), x);
    DotComm(x, Apply(A, y));
    DotComm(x, Apply(B, y));
  }

  lemma QuadMAdd(A: Mat, B: Mat, x: Vec)
    requires A.rows == B.rows == A.cols == B.cols == |x|
    ensures Quad(MAdd(A, B), x) == Quad(A, x) + Quad(B, x)
  {
    FormMAdd(A, B, x, x);
  }

  /** M P M' : the covariance carried through a linear map. */
  function Congruence(M: Mat, P: Mat): (r: Mat)
    requires M.cols == P.rows == P.cols
    ensures r.rows == r.cols == M.rows
  {
    Mul(Mul(M, P), Transpose(M))
  }

  lemma QuadCongruence(M: Mat, P: Mat, x: Vec)
    requires M.cols == P.rows == P.cols && |x| == M.rows
    ensures Quad(Congruence(M, P), x) == Quad(P, Apply(Transpose(M), x))
  {
    var y := Apply(Transpose(M), x);
    ApplyMul(Mul(M, P), Transpose(M), x);
    ApplyMul(M, P, y);
    Adjoint(M, x, Apply(P, y));
  }

  lemma SymmetricCongruence(M: Mat, P: Mat)
    requires M.cols == P.rows == P.cols && Symmetric(P)
    ensures Symmetric(Congruence(M, P))
  {
    TransposeMul(Mul(M, P), Transpose(M));
    TransposeMul(M, P);
    TransposeTwice(M);
    MulAssoc(M, P, Transpose(M));
  }

  lemma PsdCongruence(M: Mat, P: Mat)
    requires M.cols == P.rows == P.cols && Psd(P)
    ensures Psd(Congruence(M, P))
  {
    forall x: Vec | |x| == M.rows ensures Quad(Congruence(M, P), x) >= 0.0 {
      QuadCongruence(M, P, x);
    }
  }

  lemma SymmetricMAdd(A: Mat, B: Mat)
    requires A.rows == B.rows == A.cols == B.cols && Symmetric(A) && Symmetric(B)
    ensures Symmetric(MAdd(A, B))
  {
    TransposeMAdd(A, B);
  }

  lemma PsdMAdd(A: Mat, B: Mat)
    requires A.rows == B.rows && Psd(A) && Psd(B)
    ensures Psd(MAdd(A, B))
  {
    forall x: Vec | |x| == A.rows ensures Quad(MAdd(A, B), x) >= 0.0 {
      QuadMAdd(A, B, x);
      assert Quad(A, x) >= 0.0 && Quad(B, x) >= 0.0;
    }
  }

  // ----- Diagonal and rank-one matrices -----

  lemma SymmetricDiag(d: Vec)
    ensures Symmetric(Diag(d))
  {
    forall i | 0 <= i < |d| ensures Transpose(Diag(d)).row[i] == Diag(d).row[i] {}
    assert Transpose(Diag(d)).row == Diag(d).row;
  }

  /** The entrywise product. */
  function Hadamard(d: Vec, x: Vec): (r: Vec)
    requires |d| == |x|
    ensures |r| == |d|
  {
    seq(|d|, i requires 0 <= i < |d| => Times(d[i], x[i]))
  }

  lemma DiagRow(d: Vec, i: nat)
    requires i < |d|
    ensures Diag(d).row[i] == Scale(d[i], Unit(|d|, i))
  {
    TimesLaws(0.0, d[i], 0.0, 0.0);
    forall j | 0 <= j < |d| ensures Diag(d).row[i][j] == Scale(d[i], Unit(|d|, i))[j] {}
  }

  lemma ApplyDiag(d: Vec, x: Vec)
    requires |x| == |d|
    ensures Apply(Diag(d), x) == Hadamard(d, x)
  {
    forall i | 0 <= i < |d| ensures Apply(Diag(d), x)[i] == Hadamard(d, x)[i] {
      DiagRow(d, i);
      DotScale(d[i], Unit(|d|, i), x);
      DotComm(Unit(|d|, i), x);
      DotUnit(x, i);
    }
  }

  lemma {:induction false} WeightedSquares(d: Vec, x: Vec)
    requires |x| == |d| && forall i :: 0 <= i < |d| ==> d[i] >= 0.0
    ensures Dot(x, Hadamard(d, x)) >= 0.0
  {
    if |d| != 0 {
      var d', x' := d[1..], x[1..];
      assert Hadamard(d, x)[1..] == Hadamard(d', x');
      WeightedSquares(d', x');
      WeightedSquare(d[0], x[0]);
    }
  }

  lemma WeightedSquare(d: real, x: real)
    requires d >= 0.0
    ensures Times(x, Times(d, x)) >= 0.0
  {
    TimesLaws(d, x, x, 0.0);
    TimesSign(x, x);
    TimesSign(d, Times(x, x));
  }

  lemma PsdDiag(d: Vec)
    requires forall i :: 0 <= i < |d| ==> d[i] >= 0.0
    ensures Psd(Diag(d))
  {
    forall x: Vec | |x| == |d| ensures Quad(Diag(d), x) >= 0.0 {
      ApplyDiag(d, x);
      WeightedSquares(d, x);
    }
  }

  lemma ApplyOuter(a: Vec, x: Vec)
    requires |x| == |a|
    ensures Apply(Outer(a, a), x) == Scale(Dot(a, x), a)
  {
    forall i | 0 <= i < |a| ensures Apply(Outer(a, a), x)[i] == Scale(Dot(a, x), a)[i] {
      DotScale(a[i], a, x);
      TimesLaws(0.0, a[i], Dot(a, x), 0.0);
    }
  }

  lemma QuadOuter(a: Vec, x: Vec)
    requires |x| == |a|
    ensures Quad(Outer(a, a), x) == Times(Dot(a, x), Dot(a, x))
  {
    ApplyOuter(a, x);
    DotComm(x, a);
    DotScale(Dot(a, x), x, a);
  }
}
