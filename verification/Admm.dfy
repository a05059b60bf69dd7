/** The ADMM iteration of 3rdparty/tinympc/admm.cpp with box constraints: the
    workspace is updated in place, column by column, as the source does. */
module Admm {
  import opened Matrix
  import opened Lqr
  import opened Basics

  type Columns = seq<Vec>

  // ----- Entrywise operations -----

  function Max(a: real, b: real): real { if a < b then b else a }
  function Min(a: real, b: real): real { if b < a then b else a }

  /** upper.cwiseMin(lower.cwiseMax(t)) */
  function Clamp(lo: real, hi: real, t: real): real { Min(hi, Max(lo, t)) }

  ghost predicate Shape(a: Columns, n: nat, k: nat) {
    |a| == k && Sized(a, n)
  }

  ghost predicate SameShape(a: Columns, b: Columns) {
    |a| == |b| && forall i :: 0 <= i < |a| ==> |a[i]| == |b[i]|
  }

  function ColumnsAdd(a: Columns, b: Columns): (r: Columns)
    requires SameShape(a, b)
    ensures SameShape(r, a)
  {
    seq(|a|, i requires 0 <= i < |a| => Add(a[i], b[i]))
  }

  function ColumnsSub(a: Columns, b: Columns): (r: Columns)
    requires SameShape(a, b)
    ensures SameShape(r, a)
  {
    seq(|a|, i requires 0 <= i < |a| => Sub(a[i], b[i]))
  }

  function ClampVec(lo: Vec, hi: Vec, v: Vec): (r: Vec)
    requires |lo| == |hi| == |v|
    ensures |r| == |v|
  {
    seq(|v|, j requires 0 <= j < |v| => Clamp(lo[j], hi[j], v[j]))
  }

  function ColumnsClamp(lo: Columns, hi: Columns, v: Columns): (r: Columns)
    requires SameShape(lo, v) && SameShape(hi, v)
    ensures SameShape(r, v)
  {
    seq(|v|, i requires 0 <= i < |v| => ClampVec(lo[i], hi[i], v[i]))
  }

  /** -(ref .* weight) - rho * (slack - dual), one column. */
  function LinearCost(weight: Vec, reference: Vec, rho: real, slack: Vec, dual: Vec): (r: Vec)
    requires |weight| == |reference| == |slack| == |dual|
    ensures |r| == |weight|
  {
    Sub(Neg(Hadamard(weight, reference)), Scale(rho, Sub(slack, dual)))
  }

  function ColumnsLinearCost(weight: Vec, reference: Columns, rho: real, slack: Columns, dual: Columns): (r: Columns)
    requires SameShape(reference, slack) && SameShape(reference, dual)
    requires forall i :: 0 <= i < |reference| ==> |reference[i]| == |weight|
    ensures SameShape(r, reference)
  {
    seq(|reference|, i requires 0 <= i < |reference| =>
      LinearCost(weight, reference[i], rho, slack[i], dual[i]))
  }

  function TerminalCost(P: Mat, reference: Vec, rho: real, slack: Vec, dual: Vec): (r: Vec)
    requires P.rows == P.cols == |reference| == |slack| == |dual|
    ensures |r| == P.rows
  {
    Sub(Neg(Apply(Transpose(P), reference)), Scale(rho, Sub(slack, dual)))
  }

  // ----- (a - b).cwiseAbs().maxCoeff() -----

  function MaxDiff(a: Vec, b: Vec): (r: real)
    requires |a| == |b|
    ensures r >= 0.0
    ensures forall j :: 0 <= j < |a| ==> Abs(a[j] - b[j]) <= r
  {
    if |a| == 0 then 0.0 else
      assert forall j :: 0 < j < |a| ==> a[j] == a[1..][j - 1] && b[j] == b[1..][j - 1];
      Max(Abs(a[0] - b[0]), MaxDiff(a[1..], b[1..]))
  }

  function MaxDiffAll(a: Columns, b: Columns): (r: real)
    requires SameShape(a, b)
    ensures r >= 0.0
    ensures forall i, j :: 0 <= i < |a| && 0 <= j < |a[i]| ==> Abs(a[i][j] - b[i][j]) <= r
  {
    if |a| == 0 then 0.0 else
      assert forall i :: 0 < i < |a| ==> a[i] == a[1..][i - 1] && b[i] == b[1..][i - 1];
      Max(MaxDiff(a[0], b[0]), MaxDiffAll(a[1..], b[1..]))
  }

  /** Every entry of a is strictly within tol of the same entry of b. */
  ghost predicate Within(tol: real, a: Columns, b: Columns)
    requires SameShape(a, b)
  {
    forall i, j :: 0 <= i < |a| && 0 <= j < |a[i]| ==> Abs(a[i][j] - b[i][j]) < tol
  }

  // ----- The box and its normal cone -----

  ghost predicate Ordered(lo: Columns, hi: Columns)
    requires SameShape(lo, hi)
  {
    forall i, j :: 0 <= i < |lo| && 0 <= j < |lo[i]| ==> lo[i][j] <= hi[i][j]
  }

  ghost predicate InBox(lo: Columns, hi: Columns, v: Columns)
    requires SameShape(lo, v) && SameShape(hi, v)
  {
    forall i, j :: 0 <= i < |v| && 0 <= j < |v[i]| ==> lo[i][j] <= v[i][j] <= hi[i][j]
  }

  /** A positive multiplier only at the upper bound, a negative one only at the lower. */
  ghost predicate InNormalCone(lo: Columns, hi: Columns, v: Columns, g: Columns)
    requires SameShape(lo, v) && SameShape(hi, v) && SameShape(g, v)
  {
    forall i, j :: 0 <= i < |v| && 0 <= j < |v[i]| ==>
      (g[i][j] > 0.0 ==> v[i][j] == hi[i][j]) && (g[i][j] < 0.0 ==> v[i][j] == lo[i][j])
  }

  ghost predicate AllZero(g: Columns) {
    forall i, j :: 0 <= i < |g| && 0 <= j < |g[i]| ==> g[i][j] == 0.0
  }

  /** x + dual, projected onto the box when the box is on. */
  function Slack(on: bool, lo: Columns, hi: Columns, x: Columns, g: Columns): (r: Columns)
    requires SameShape(lo, x) && SameShape(hi, x) && SameShape(g, x)
    ensures SameShape(r, x)
  {
    if on then ColumnsClamp(lo, hi, ColumnsAdd(x, g)) else ColumnsAdd(x, g)
  }

  /** dual + x - slack */
  function Dual(g: Columns, x: Columns, slack: Columns): (r: Columns)
    requires SameShape(g, x) && SameShape(slack, x)
    ensures SameShape(r, x)
  {
    ColumnsSub(ColumnsAdd(g, x), slack)
  }

  lemma SlackAndDual(on: bool, lo: Columns, hi: Columns, x: Columns, g: Columns)
    requires SameShape(lo, x) && SameShape(hi, x) && SameShape(g, x)
    requires on ==> Ordered(lo, hi)
    ensures var v := Slack(on, lo, hi, x, g);
            if on then InBox(lo, hi, v) && InNormalCone(lo, hi, v, Dual(g, x, v))
            else AllZero(Dual(g, x, v))
  {
    var s, v := ColumnsAdd(x, g), Slack(on, lo, hi, x, g);
    var g' := Dual(g, x, v);
    forall i, j | 0 <= i < |v| && 0 <= j < |v[i]|
      ensures on ==> lo[i][j] <= v[i][j] <= hi[i][j]
      ensures on ==> (g'[i][j] > 0.0 ==> v[i][j] == hi[i][j]) && (g'[i][j] < 0.0 ==> v[i][j] == lo[i][j])
      ensures !on ==> g'[i][j] == 0.0
    {
      assert on ==> lo[i][j] <= hi[i][j];
      assert s[i][j] == x[i][j] + g[i][j];
      assert v[i][j] == if on then Clamp(lo[i][j], hi[i][j], s[i][j]) else s[i][j];
      assert g'[i][j] == g[i][j] + x[i][j] - v[i][j];
    }
  }

  // ----- The solver -----

  datatype Settings = Settings(
    absPriTol: real, absDuaTol: real, maxIter: int, checkTermination: int,
    enStateBound: bool, enInputBound: bool)

  /** What the caller fixes before solve: horizon, weights, references and bounds. */
  datatype Setup = Setup(
    pr: Problem, cache: Cache, N: nat, Qd: Vec, Rd: Vec, Xref: Columns, Uref: Columns,
    xMin: Columns, xMax: Columns, uMin: Columns, uMax: Columns, settings: Settings)
  {
    /** The shapes that tiny_setup and tiny_set_bound_constraints establish. */
    ghost predicate Valid() {
      && pr.Valid() && cache.Fits(pr) && N >= 1 && settings.checkTermination != 0
      && |Qd| == pr.Nx() && |Rd| == pr.Nu()
      && States(xMin) && States(xMax) && Inputs(uMin) && Inputs(uMax)
      && States(Xref) && Inputs(Uref)
    }

    ghost predicate States(a: Columns) { Shape(a, pr.A.rows, N) }

    ghost predicate Inputs(a: Columns) { N >= 1 && Shape(a, pr.B.cols, N - 1) }

    ghost predicate BoundsOrdered()
      requires Valid()
    {
      && (settings.enStateBound ==> Ordered(xMin, xMax))
      && (settings.enInputBound ==> Ordered(uMin, uMax))
    }

    /** The given pair lies in every box that is switched on. */
    ghost predicate Feasible(a: Columns, b: Columns)
      requires Valid() && States(a) && Inputs(b)
    {
      && (settings.enStateBound ==> InBox(xMin, xMax, a))
      && (settings.enInputBound ==> InBox(uMin, uMax, b))
    }

    /** The duals are normal to the boxes at the slacks (zero where a box is off). */
    ghost predicate DualsNormal(a: Columns, b: Columns, ga: Columns, gb: Columns)
      requires Valid() && States(a) && Inputs(b) && States(ga) && Inputs(gb)
    {
      && (if settings.enStateBound then InNormalCone(xMin, xMax, a, ga) else AllZero(ga))
      && (if settings.enInputBound then InNormalCone(uMin, uMax, b, gb) else AllZero(gb))
    }
  }

  datatype Work = Work(
    x: Columns, u: Columns, q: Columns, r: Columns, p: Columns, d: Columns,
    v: Columns, vnew: Columns, z: Columns, znew: Columns, g: Columns, y: Columns)
  {
    ghost predicate Fits(s: Setup)
      requires s.Valid()
    {
      && s.States(x) && s.Inputs(u) && s.States(q) && s.Inputs(r) && s.States(p) && s.Inputs(d)
      && s.States(v) && s.States(vnew) && s.Inputs(z) && s.Inputs(znew) && s.States(g) && s.Inputs(y)
    }

    /** q, r and the last column of p are the linear terms of the augmented Lagrangian. */
    ghost predicate LinearTermsCurrent(s: Setup)
      requires s.Valid() && Fits(s)
    {
      && q == ColumnsLinearCost(s.Qd, s.Xref, s.cache.rho, vnew, g)
      && r == ColumnsLinearCost(s.Rd, s.Uref, s.cache.rho, znew, y)
      && p[s.N - 1] == TerminalCost(s.cache.Pinf, s.Xref[s.N - 1], s.cache.rho, vnew[s.N - 1], g[s.N - 1])
    }

    /** What every whole iteration leaves behind: an exact rollout, current linear
        terms and, for boxes whose bounds are in order, feasible slacks with duals
        normal to the boxes. */
    ghost predicate Iterated(s: Setup)
      requires s.Valid() && Fits(s)
    {
      && Dynamics(s.pr, x, u) && LinearTermsCurrent(s)
      && (s.BoundsOrdered() ==> s.Feasible(vnew, znew) && s.DualsNormal(vnew, znew, g, y))
    }

    /** The slacks are remembered for the next dual residual. */
    function Saved(): Work { this.(v := vnew, z := znew) }

    /** The slacks are entrywise within the primal tolerance of the exact rollout. */
    ghost predicate Near(s: Setup)
      requires s.Valid() && Fits(s)
    {
      Within(s.settings.absPriTol, x, vnew) && Within(s.settings.absPriTol, u, znew)
    }

    /** Both primal and both dual residuals are below their tolerances. */
    ghost predicate Converged(s: Setup)
      requires s.Valid() && Fits(s)
    {
      && MaxDiffAll(x, vnew) < s.settings.absPriTol && MaxDiffAll(u, znew) < s.settings.absPriTol
      && Weighted(MaxDiffAll(v, vnew), s.cache.rho) < s.settings.absDuaTol
      && Weighted(MaxDiffAll(z, znew), s.cache.rho) < s.settings.absDuaTol
    }
  }

  function Weighted(t: real, rho: real): real { t * rho }

  datatype Solution = Solution(iter: int, solved: int, x: Columns, u: Columns)

  /** The residual is below a tolerance exactly when every entry is. */
  lemma ResidualIff(tol: real, a: Columns, b: Columns)
    requires SameShape(a, b)
    ensures MaxDiffAll(a, b) < tol <==> tol > 0.0 && Within(tol, a, b)
  {
    if tol > 0.0 && Within(tol, a, b) {
      var i := |a|;
      while i > 0
        invariant 0 <= i <= |a| && MaxDiffAll(a[i..], b[i..]) < tol
      {
        i := i - 1;
        assert a[i..][1..] == a[i + 1..] && b[i..][1..] == b[i + 1..];
        assert a[i..][0] == a[i] && b[i..][0] == b[i];
        ColumnResidual(tol, a[i], b[i]);
      }
      assert a[0..] == a && b[0..] == b;
    }
  }

  lemma {:induction false} ColumnResidual(tol: real, a: Vec, b: Vec)
    requires |a| == |b| && tol > 0.0 && forall j :: 0 <= j < |a| ==> Abs(a[j] - b[j]) < tol
    ensures MaxDiff(a, b) < tol
  {
    if |a| > 0 {
      forall j | 0 <= j < |a| - 1 ensures Abs(a[1..][j] - b[1..][j]) < tol {
        assert a[1..][j] == a[j + 1] && b[1..][j] == b[j + 1];
      }
      ColumnResidual(tol, a[1..], b[1..]);
    }
  }

  // ----- One iteration, as a relation between workspaces -----

  /** The two passes: only p, d, x and u change; the start and the terminal term stay. */
  ghost predicate Passes(s: Setup, w: Work, m: Work)
    requires s.Valid() && w.Fits(s)
  {
    && m == w.(p := m.p, d := m.d, x := m.x, u := m.u) && m.Fits(s)
    && m.x[0] == w.x[0] && m.p[s.N - 1] == w.p[s.N - 1]
    && BackwardDone(s.pr, s.cache, m.q, m.r, m.p, m.d) && ForwardDone(s.pr, s.cache, m.x, m.u, m.d)
  }

  /** The three updates: slacks, duals, and the linear terms made from them. */
  ghost predicate Updates(s: Setup, m: Work, w: Work)
    requires s.Valid() && m.Fits(s)
  {
    && w.Fits(s) && w.LinearTermsCurrent(s)
    && w == m.(vnew := Slack(s.settings.enStateBound, s.xMin, s.xMax, m.x, m.g),
               znew := Slack(s.settings.enInputBound, s.uMin, s.uMax, m.u, m.y),
               g := Dual(m.g, m.x, w.vnew), y := Dual(m.y, m.u, w.znew), q := w.q, r := w.r, p := w.p)
  }

  ghost predicate Iteration(s: Setup, w: Work, w': Work)
    requires s.Valid() && w.Fits(s)
  {
    exists m :: Passes(s, w, m) && Updates(s, m, w')
  }

  /** Every iteration keeps the start and leaves what Iterated says. */
  lemma IterationLeaves(s: Setup, w: Work, w': Work)
    requires s.Valid() && w.Fits(s) && Iteration(s, w, w')
    ensures w'.Fits(s) && w'.Iterated(s)
    ensures w'.x[0] == w.x[0] && w'.v == w.v && w'.z == w.z
  {
    var m :| Passes(s, w, m) && Updates(s, m, w');
    if s.BoundsOrdered() {
      SlackAndDual(s.settings.enStateBound, s.xMin, s.xMax, m.x, m.g);
      SlackAndDual(s.settings.enInputBound, s.uMin, s.uMax, m.u, m.y);
    }
  }

  /** The workspace after the given iterates, none of them accepted: the slacks of
      the last one are remembered for the next dual residual. */
  function Kept(start: Work, ws: seq<Work>): Work {
    if ws == [] then start else ws[|ws| - 1].Saved()
  }

  ghost predicate Linked(s: Setup, w: Work, w': Work)
    requires s.Valid()
  {
    w.Fits(s) && Iteration(s, w, w') && w'.Fits(s)
  }

  /** The iterates of a call of solve: each follows from the ones before. */
  ghost predicate History(s: Setup, start: Work, ws: seq<Work>)
    requires s.Valid()
  {
    forall i :: 0 <= i < |ws| ==> Linked(s, Kept(start, ws[..i]), ws[i])
  }

  /** The test that ends solve, after iteration k. */
  ghost predicate Accepted(s: Setup, k: int, w: Work)
    requires s.Valid() && w.Fits(s)
  {
    k % s.settings.checkTermination == 0 && w.Converged(s)
  }

  ghost predicate Rejected(s: Setup, k: int, w: Work)
    requires s.Valid()
  {
    w.Fits(s) && !Accepted(s, k, w)
  }

  ghost predicate NoneAccepted(s: Setup, ws: seq<Work>)
    requires s.Valid()
  {
    forall i :: 0 <= i < |ws| ==> Rejected(s, i + 1, ws[i])
  }

  lemma HistoryGrows(s: Setup, start: Work, ws: seq<Work>, w: Work)
    requires s.Valid() && History(s, start, ws) && Linked(s, Kept(start, ws), w)
    ensures History(s, start, ws + [w])
  {
    var all := ws + [w];
    forall i | 0 <= i < |all| ensures Linked(s, Kept(start, all[..i]), all[i]) {
      if i < |ws| { assert all[..i] == ws[..i]; } else { assert all[..i] == ws; }
    }
  }

  /** Every iterate keeps the start and leaves what Iterated says. */
  lemma {:induction false} HistoryKeeps(s: Setup, start: Work, ws: seq<Work>, i: nat)
    requires s.Valid() && start.Fits(s) && History(s, start, ws) && i < |ws|
    ensures ws[i].Fits(s) && ws[i].Iterated(s) && ws[i].x[0] == start.x[0]
  {
    var before := Kept(start, ws[..i]);
    if i > 0 { HistoryKeeps(s, start, ws, i - 1); }
    assert Linked(s, before, ws[i]);
    IterationLeaves(s, before, ws[i]);
  }

  /** How far solve has come: ws are its iterates, w its workspace. */
  ghost predicate Unaccepted(s: Setup, start: Work, ws: seq<Work>, w: Work)
    requires s.Valid()
  {
    start.Fits(s) && History(s, start, ws) && NoneAccepted(s, ws) && w == Kept(start, ws) && w.Fits(s)
  }

  /** The last iterate was accepted, and none before it. */
  ghost predicate AcceptedLast(s: Setup, start: Work, ws: seq<Work>, w: Work)
    requires s.Valid()
  {
    && start.Fits(s) && History(s, start, ws) && w.Fits(s) && ws != [] && w == ws[|ws| - 1]
    && NoneAccepted(s, ws[..|ws| - 1]) && Accepted(s, |ws|, w)
  }

  lemma OneMore(s: Setup, start: Work, ws: seq<Work>, w: Work, after: Work)
    requires s.Valid() && Unaccepted(s, start, ws, w) && Linked(s, w, after)
    ensures if Accepted(s, |ws| + 1, after) then AcceptedLast(s, start, ws + [after], after)
            else Unaccepted(s, start, ws + [after], after.Saved())
  {
    var all := ws + [after];
    HistoryGrows(s, start, ws, after);
    assert all[..|all| - 1] == ws && all[|all| - 1] == after;
    if !Accepted(s, |ws| + 1, after) { NoneAcceptedGrows(s, ws, after); }
  }

  lemma NoneAcceptedGrows(s: Setup, ws: seq<Work>, w: Work)
    requires s.Valid() && NoneAccepted(s, ws) && Rejected(s, |ws| + 1, w)
    ensures NoneAccepted(s, ws + [w])
  {
  }

  lemma AcceptedIsIterated(s: Setup, start: Work, ws: seq<Work>, w: Work)
    requires s.Valid() && AcceptedLast(s, start, ws, w)
    ensures w.Iterated(s) && w.x[0] == start.x[0] && w.Near(s)
  {
    HistoryKeeps(s, start, ws, |ws| - 1);
    ResidualIff(s.settings.absPriTol, w.x, w.vnew);
    ResidualIff(s.settings.absPriTol, w.u, w.znew);
  }

  lemma KeptIsIterated(s: Setup, start: Work, ws: seq<Work>)
    requires s.Valid() && start.Fits(s) && History(s, start, ws)
    ensures Kept(start, ws).Fits(s) && Kept(start, ws).x[0] == start.x[0]
    ensures ws != [] ==> Kept(start, ws).Iterated(s)
  {
    if ws != [] { HistoryKeeps(s, start, ws, |ws| - 1); }
  }

  /** How the loop of solve ends: with an accepted iterate, or out of iterations. */
  ghost predicate Ended(s: Setup, start: Work, ws: seq<Work>, w: Work, solved: bool)
    requires s.Valid()
  {
    if solved then AcceptedLast(s, start, ws, w) && |ws| <= s.settings.maxIter
    else Unaccepted(s, start, ws, w) && |ws| == if s.settings.maxIter < 0 then 0 else s.settings.maxIter
  }

  /** What a call of solve promises of its workspace w, from which the solution is
      read: with at least one iteration it is an exact rollout with feasible slacks,
      whatever the outcome; a solved one has its slacks near the rollout. */
  ghost predicate Answers(s: Setup, start: Work, ws: seq<Work>, w: Work, solved: bool)
    requires s.Valid()
  {
    && Ended(s, start, ws, w, solved) && w.x[0] == start.x[0]
    && (s.settings.maxIter >= 1 ==> w.Iterated(s))
    && (s.settings.maxIter >= 1 && s.BoundsOrdered() ==> s.Feasible(w.vnew, w.znew))
    && (solved ==> w.Near(s))
  }

  lemma AnswersAfterLoop(s: Setup, start: Work, ws: seq<Work>, w: Work, solved: bool)
    requires s.Valid() && Ended(s, start, ws, w, solved)
    ensures Answers(s, start, ws, w, solved)
  {
    if solved { AcceptedIsIterated(s, start, ws, w); } else { KeptIsIterated(s, start, ws); }
  }

  class TinySolver {
    const setup: Setup
    var work: Work
    var status: int
    var iter: int
    var primalResidualState: real
    var dualResidualState: real
    var primalResidualInput: real
    var dualResidualInput: real
    var solution: Solution

    ghost predicate Valid()
      reads this
    {
      setup.Valid() && work.Fits(setup)
    }

    method BackwardPassGrad()
      requires Valid()
      modifies this`work
      ensures Valid() && work == old(work).(p := work.p, d := work.d)
      ensures work.p[setup.N - 1] == old(work.p[setup.N - 1])
      ensures BackwardDone(setup.pr, setup.cache, work.q, work.r, work.p, work.d)
    {
      var pr, c := setup.pr, setup.cache;
      var i := setup.N - 2;
      while i >= 0
        invariant -1 <= i <= setup.N - 2
        invariant Valid() && work == old(work).(p := work.p, d := work.d)
        invariant work.p[setup.N - 1] == old(work.p[setup.N - 1])
        invariant BackwardFrom(pr, c, work.q, work.r, work.p, work.d, i + 1)
      {
        BackwardExtend(pr, c, work.q, work.r, work.p, work.d, i);
        work := work.(d := work.d[i := BackD(pr, c, work.p[i + 1], work.r[i])]);
        work := work.(p := work.p[i := BackP(pr, c, work.p[i + 1], work.q[i], work.r[i])]);
        i := i - 1;
      }
    }

    method ForwardPass()
      requires Valid()
      modifies this`work
      ensures Valid() && work == old(work).(x := work.x, u := work.u)
      ensures work.x[0] == old(work.x[0])
      ensures ForwardDone(setup.pr, setup.cache, work.x, work.u, work.d)
    {
      var pr, c := setup.pr, setup.cache;
      var i := 0;
      while i < setup.N - 1
        invariant 0 <= i <= setup.N - 1
        invariant Valid() && work == old(work).(x := work.x, u := work.u)
        invariant work.x[0] == old(work.x[0])
        invariant forall k :: 0 <= k < i ==>
          work.u[k] == Policy(pr, c, work.x[k], work.d[k]) && work.x[k + 1] == Next(pr, work.x[k], work.u[k])
      {
        work := work.(u := work.u[i := Policy(pr, c, work.x[i], work.d[i])]);
        work := work.(x := work.x[i + 1 := Next(pr, work.x[i], work.u[i])]);
        i := i + 1;
      }
    }

    method UpdateSlack()
      requires Valid()
      modifies this`work
      ensures Valid() && work == old(work).(vnew := work.vnew, znew := work.znew)
      ensures work.vnew == Slack(setup.settings.enStateBound, setup.xMin, setup.xMax, work.x, work.g)
      ensures work.znew == Slack(setup.settings.enInputBound, setup.uMin, setup.uMax, work.u, work.y)
    {
      work := work.(vnew := ColumnsAdd(work.x, work.g));
      work := work.(znew := ColumnsAdd(work.u, work.y));
      if setup.settings.enStateBound {
        work := work.(vnew := ColumnsClamp(setup.xMin, setup.xMax, work.vnew));
      }
      if setup.settings.enInputBound {
        work := work.(znew := ColumnsClamp(setup.uMin, setup.uMax, work.znew));
      }
    }

    method UpdateDual()
      requires Valid()
      modifies this`work
      ensures Valid()
      ensures work == old(work).(g := Dual(old(work.g), work.x, work.vnew), y := Dual(old(work.y), work.u, work.znew))
    {
      work := work.(g := Dual(work.g, work.x, work.vnew));
      work := work.(y := Dual(work.y, work.u, work.znew));
    }

    method UpdateLinearCost()
      requires Valid()
      modifies this`work
      ensures Valid() && work.LinearTermsCurrent(setup)
      ensures work == old(work).(q := work.q, r := work.r, p := work.p)
    {
      var rho := setup.cache.rho;
      work := work.(q := ColumnsLinearCost(setup.Qd, setup.Xref, rho, work.vnew, work.g));
      work := work.(r := ColumnsLinearCost(setup.Rd, setup.Uref, rho, work.znew, work.y));
      var last := setup.N - 1;
      work := work.(p := work.p[last :=
        TerminalCost(setup.cache.Pinf, setup.Xref[last], rho, work.vnew[last], work.g[last])]);
    }

    method TerminationCondition() returns (stop: bool)
      requires Valid()
      modifies this`primalResidualState, this`dualResidualState,
        this`primalResidualInput, this`dualResidualInput
      ensures stop <==> iter % setup.settings.checkTermination == 0 && work.Converged(setup)
      ensures iter % setup.settings.checkTermination == 0 ==>
        && primalResidualState == MaxDiffAll(work.x, work.vnew)
        && primalResidualInput == MaxDiffAll(work.u, work.znew)
        && dualResidualState == Weighted(MaxDiffAll(work.v, work.vnew), setup.cache.rho)
        && dualResidualInput == Weighted(MaxDiffAll(work.z, work.znew), setup.cache.rho)
      ensures iter % setup.settings.checkTermination != 0 ==>
        && primalResidualState == old(primalResidualState) && primalResidualInput == old(primalResidualInput)
        && dualResidualState == old(dualResidualState) && dualResidualInput == old(dualResidualInput)
    {
      var st, w := setup.settings, work;
      if iter % st.checkTermination == 0 {
        primalResidualState := MaxDiffAll(w.x, w.vnew);
        dualResidualState := Weighted(MaxDiffAll(w.v, w.vnew), setup.cache.rho);
        primalResidualInput := MaxDiffAll(w.u, w.znew);
        dualResidualInput := Weighted(MaxDiffAll(w.z, w.znew), setup.cache.rho);
        if primalResidualState < st.absPriTol && primalResidualInput < st.absPriTol
           && dualResidualState < st.absDuaTol && dualResidualInput < st.absDuaTol {
          return true;
        }
      }
      return false;
    }

    /** The five steps that every iteration of solve runs. */
    method Iterate()
      requires Valid()
      modifies this`work
      ensures Valid() && Iteration(setup, old(work), work) && work.Iterated(setup)
    {
      BackwardPassGrad();
      ForwardPass();
      ghost var mid := work;
      UpdateSlack();
      UpdateDual();
      UpdateLinearCost();
      assert Passes(setup, old(work), mid) && Updates(setup, mid, work);
      IterationLeaves(setup, old(work), work);
    }

    /** One pass of the loop in solve: iterate, test, and save the slacks. */
    method Advance() returns (stop: bool, ghost after: Work)
      requires Valid()
      modifies this`work, this`iter, this`primalResidualState, this`dualResidualState,
        this`primalResidualInput, this`dualResidualInput
      ensures Valid() && iter == old(iter) + 1 && Linked(setup, old(work), after)
      ensures stop <==> Accepted(setup, iter, after)
      ensures work == if stop then after else after.Saved()
    {
      Iterate();
      iter := iter + 1;
      after := work;
      stop := TerminationCondition();
      if !stop {
        work := work.(v := work.vnew, z := work.znew);
      }
    }

    /** The same pass, with the iterates so far. */
    method IterateOnce(ghost start: Work, ghost ws: seq<Work>) returns (stop: bool, ghost ws': seq<Work>)
      requires Valid() && Unaccepted(setup, start, ws, work) && iter == |ws|
      modifies this`work, this`iter, this`primalResidualState, this`dualResidualState,
        this`primalResidualInput, this`dualResidualInput
      ensures Valid() && iter == old(iter) + 1 == |ws'|
      ensures if stop then AcceptedLast(setup, start, ws', work) else Unaccepted(setup, start, ws', work)
    {
      ghost var before, after := work, work;
      stop, after := Advance();
      OneMore(setup, start, ws, before, after);
      ws' := ws + [after];
    }

    method Solve() returns (code: int, ghost history: seq<Work>)
      requires Valid()
      modifies this
      ensures Valid() && (code == 0 || code == 1) && |history| == iter
      ensures solution == Solution(iter, 1 - code, work.vnew, work.znew) && status == if code == 0 then 1 else 11
      ensures Answers(setup, old(work), history, work, code == 0)
    {
      solution := solution.(solved := 0, iter := 0);
      status, iter := 11, 0;
      ghost var start := work;
      var stop;
      stop, history := Loop();
      AnswersAfterLoop(setup, start, history, work, stop);
      solution := Solution(iter, if stop then 1 else 0, work.vnew, work.znew);
      if stop { status := 1; }
      code := if stop then 0 else 1;
    }

    /** The loop of solve. */
    method Loop() returns (stop: bool, ghost history: seq<Work>)
      requires Valid() && iter == 0
      modifies this`work, this`iter, this`primalResidualState, this`dualResidualState,
        this`primalResidualInput, this`dualResidualInput
      ensures Valid() && |history| == iter
      ensures Ended(setup, old(work), history, work, stop)
    {
      ghost var start := work;
      history := [];
      var i, maxIter := 0, setup.settings.maxIter;
      while i < maxIter
        invariant Valid() && 0 <= i == iter == |history| && i <= if maxIter < 0 then 0 else maxIter
        invariant Unaccepted(setup, start, history, work)
      {
        stop, history := IterateOnce(start, history);
        if stop { return; }
        i := i + 1;
      }
      stop := false;
    }
  }
}
