/** The assembled Jacobian is the derivative of the assembled residual. */
module BoxDerivative {
  import opened Calculus
  import opened Exponential
  import opened EdgeFlux
  import opened Forms
  import opened BoxMesh
  import opened BoxSystem
  import opened BoxBalance
  import opened BoxJacobian

  type SlotMove = Slot -> real

  // ---------------------------------------------------------------------------------------
  // Differentiating contribution lists

  type Adds = seq<Add<Slot>>

  function DotCurve<R(!new)>(f: Arg -> seq<Add<R>>, w: R -> real): Curve {
    (h: Arg) => Dot(f(h), w)
  }

  /** The list f(h) tested with w moves like the Jacobian contributions j tested with z. */
  ghost predicate Tracks<R(!new), C(!new)>(f: Arg -> seq<Add<R>>, j: seq<Add<C>>, w: R -> real, z: C -> real) {
    HasDeriv(DotCurve(f, w), Dot(j, z))
  }

  lemma TrackConcat<R(!new), C(!new)>(f: Arg -> seq<Add<R>>, jf: seq<Add<C>>, g: Arg -> seq<Add<R>>, jg: seq<Add<C>>,
                                      s: Arg -> seq<Add<R>>, w: R -> real, z: C -> real)
    requires Tracks(f, jf, w, z) && Tracks(g, jg, w, z)
    requires forall h: Arg {:trigger s(h)} :: s(h) == f(h) + g(h)
    ensures Tracks(s, jf + jg, w, z)
  {
    hide HasDeriv, Dot;
    forall h: Arg ensures DotCurve(s, w)(h) == DotCurve(f, w)(h) + DotCurve(g, w)(h) {
      DotConcat(f(h), g(h), w);
    }
    DotConcat(jf, jg, z);
    DerivSum(DotCurve(f, w), Dot(jf, z), DotCurve(g, w), Dot(jg, z), DotCurve(s, w), Dot(jf + jg, z));
  }

  lemma TrackConstant<R(!new), C(!new)>(f: Arg -> seq<Add<R>>, w: R -> real, z: C -> real)
    requires forall h: Arg {:trigger f(h)} :: f(h) == f(0.0)
    ensures Tracks(f, [], w, z)
  {
    hide HasDeriv;
    DerivConst(DotCurve(f, w), Dot(f(0.0), w));
    assert Dot<C>([], z) == 0.0;
  }

  /** A family of lists, piece by piece. */
  function Piece<R(!new)>(f: Arg -> (nat -> seq<Add<R>>), i: nat): (p: Arg -> seq<Add<R>>)
    ensures forall h: Arg {:trigger p(h)} :: p(h) == f(h)(i)
  {
    (h: Arg) => f(h)(i)
  }

  function Joined<R(!new)>(f: Arg -> (nat -> seq<Add<R>>), n: nat): (s: Arg -> seq<Add<R>>)
    ensures forall h: Arg {:trigger s(h)} :: s(h) == Flat(f(h), n)
  {
    (h: Arg) => Flat(f(h), n)
  }

  lemma {:induction false} TrackFlat<R(!new), C(!new)>(f: Arg -> (nat -> seq<Add<R>>), j: nat -> seq<Add<C>>, n: nat,
                                                       w: R -> real, z: C -> real)
    requires forall i: nat :: i < n ==> Tracks(Piece(f, i), j(i), w, z)
    ensures Tracks(Joined(f, n), Flat(j, n), w, z)
  {
    hide Tracks;
    if n == 0 {
      TrackConstant(Joined(f, 0), w, z);
    } else {
      TrackFlat(f, j, n - 1, w, z);
      forall h: Arg ensures Joined(f, n)(h) == Joined(f, n - 1)(h) + Piece(f, n - 1)(h) {}
      TrackConcat(Joined(f, n - 1), Flat(j, n - 1), Piece(f, n - 1), j(n - 1), Joined(f, n), w, z);
    }
  }

  lemma TrackSame<R(!new), C(!new)>(f: Arg -> seq<Add<R>>, g: Arg -> seq<Add<R>>, j: seq<Add<C>>, w: R -> real,
                                    z: C -> real)
    requires Tracks(f, j, w, z)
    requires forall h: Arg {:trigger g(h)} :: g(h) == f(h)
    ensures Tracks(g, j, w, z)
  {
    hide HasDeriv, Dot;
    DerivSame(DotCurve(f, w), DotCurve(g, w), Dot(j, z));
  }

  /** A weighted sum of curves. */
  lemma {:induction false} DerivSumOf(f: nat -> Curve, d: nat -> real, n: nat, total: Curve)
    requires forall i: nat :: i < n ==> HasDeriv(f(i), d(i))
    requires forall h: Arg {:trigger total(h)} :: total(h) == Sum(ValuesAt(f, h), n)
    ensures HasDeriv(total, Sum(d, n))
  {
    hide HasDeriv;
    if n == 0 {
      DerivConst(total, 0.0);
    } else {
      var head := PartialSum(f, n - 1);
      DerivSumOf(f, d, n - 1, head);
      DerivSum(head, Sum(d, n - 1), f(n - 1), d(n - 1), total, Sum(d, n));
    }
  }

  function ValuesAt(f: nat -> Curve, h: Arg): nat -> real {
    (i: nat) => f(i)(h)
  }

  function PartialSum(f: nat -> Curve, n: nat): (s: Curve)
    ensures forall h: Arg {:trigger s(h)} :: s(h) == Sum(ValuesAt(f, h), n)
  {
    (h: Arg) => Sum(ValuesAt(f, h), n)
  }

  // ---------------------------------------------------------------------------------------
  // Moving the solution

  function Shift(x: seq<real>, h: Arg, v: seq<real>): (y: seq<real>)
    requires |v| == |x|
    ensures |y| == |x| && forall i :: 0 <= i < |x| ==> y[i] == x[i] + h as real * v[i]
  {
    seq(|x|, i requires 0 <= i < |x| => x[i] + h as real * v[i])
  }

  lemma ShiftZero(x: seq<real>, v: seq<real>)
    requires |v| == |x|
    ensures Shift(x, 0.0, v) == x
  {}

  /** Motion of the unknown of block k at a node. */
  function Move(el: Element, v: seq<real>, k: nat, n: nat): real
    requires Fits(el, v) && k < |el.dofs| && n < el.nNodes
  {
    Potential(el, v, k, n)
  }

  /** Curves of the local quantities along x + h*v. */
  function RhoAlong(p: Params, el: Element, x: seq<real>, v: seq<real>, n: nat): Curve
    requires Fits(el, x) && |v| == |x| && n < el.nNodes
  {
    (h: Arg) => Local(p, el, Shift(x, h, v), n).rho
  }

  function RateAlong(p: Params, el: Element, x: seq<real>, v: seq<real>, n: nat, k: nat): Curve
    requires Fits(el, x) && |v| == |x| && n < el.nNodes
  {
    (h: Arg) => Local(p, el, Shift(x, h, v), n).rate(k)
  }

  function SigmaAlong(p: Params, el: Element, x: seq<real>, v: seq<real>, n: nat, k: nat): Curve
    requires Fits(el, x) && |v| == |x| && n < el.nNodes
  {
    (h: Arg) => Local(p, el, Shift(x, h, v), n).sigma(k)
  }

  function BoundaryAlong(p: Params, el: Element, x: seq<real>, v: seq<real>, s: Side, i: nat, k: nat): Curve
    requires Fits(el, x) && |v| == |x| && WellFormedSide(el, s) && s.Modelled? && i < |s.nodes| && k < |el.dofs|
  {
    (h: Arg) => BoundaryValue(p, el, Shift(x, h, v), s, i, k)
  }

  /** Change of the charge density: carriers of unit charge follow phi_q - phi. */
  function ChargeMove(p: Params, el: Element, x: seq<real>, v: seq<real>, n: nat): nat -> real
    requires Fits(el, x) && |v| == |x| && n < el.nNodes
  {
    (k: nat) => if k < |el.dofs| then ChargeSlope(p, el, x, n)(k) * (Move(el, v, k, n) - Move(el, v, el.u, n)) else 0.0
  }

  function RateMove(p: Params, el: Element, x: seq<real>, v: seq<real>, n: nat, k: nat): nat -> real
    requires Fits(el, x) && |v| == |x| && n < el.nNodes
  {
    (j: nat) => if j < |el.dofs| then Local(p, el, x, n).drate(k, j) * p.phi0 * Move(el, v, j, n) else 0.0
  }

  function BoundaryMove(p: Params, el: Element, x: seq<real>, v: seq<real>, s: Side, i: nat, k: nat): nat -> real
    requires Fits(el, x) && |v| == |x| && WellFormedSide(el, s) && s.Modelled? && i < |s.nodes|
  {
    (j: nat) => if j < |el.dofs| then p.phi0 * BoundaryRows(p, el, x, s, i)(k).jac(j) * Move(el, v, j, s.nodes[i])
      else 0.0
  }

  function SigmaMove(p: Params, el: Element, x: seq<real>, v: seq<real>, n: nat, k: nat): real
    requires Fits(el, x) && |v| == |x| && n < el.nNodes && k < |el.dofs|
  {
    (-Local(p, el, x, n).dsigma(k) * p.phi0) * (Move(el, v, k, n) - Move(el, v, el.u, n))
  }

  /** What the models promise about a node: their derivatives are derivatives, carriers have
      unit charge, mobilities do not depend on the gradients. */
  ghost predicate NodeModelCorrect(p: Params, el: Element, x: seq<real>, v: seq<real>, n: nat)
    requires Fits(el, x) && |v| == |x| && n < el.nNodes
  {
    && HasDeriv(RhoAlong(p, el, x, v, n), Sum(ChargeMove(p, el, x, v, n), |el.dofs|))
    && forall k: nat :: k < |el.dofs| && k != el.u ==> CarrierModelCorrect(p, el, x, v, n, k)
  }

  ghost predicate CarrierModelCorrect(p: Params, el: Element, x: seq<real>, v: seq<real>, n: nat, k: nat)
    requires Fits(el, x) && |v| == |x| && n < el.nNodes && k < |el.dofs|
  {
    && HasDeriv(RateAlong(p, el, x, v, n, k), Sum(RateMove(p, el, x, v, n, k), |el.dofs|))
    && HasDeriv(SigmaAlong(p, el, x, v, n, k), SigmaMove(p, el, x, v, n, k))
    && Local(p, el, x, n).dgrad(k) == Vec(0.0, 0.0, 0.0)
  }

  /** The same for a boundary row: which rows are imposed does not depend on the solution. */
  ghost predicate BoundaryModelCorrect(p: Params, el: Element, x: seq<real>, v: seq<real>, s: Side, i: nat, k: nat)
    requires Fits(el, x) && |v| == |x| && WellFormedSide(el, s) && s.Modelled? && i < |s.nodes| && k < |el.dofs|
  {
    && HasDeriv(BoundaryAlong(p, el, x, v, s, i, k), Sum(BoundaryMove(p, el, x, v, s, i, k), |el.dofs|))
    && forall h: Arg :: ImposedAlong(p, el, x, v, s, i, k, h) == BoundaryRows(p, el, x, s, i)(k).dirichlet
  }

  ghost predicate ImposedAlong(p: Params, el: Element, x: seq<real>, v: seq<real>, s: Side, i: nat, k: nat, h: Arg)
    requires Fits(el, x) && |v| == |x| && WellFormedSide(el, s) && s.Modelled? && i < |s.nodes| && k < |el.dofs|
  {
    BoundaryRows(p, el, Shift(x, h, v), s, i)(k).dirichlet
  }

  ghost predicate ElementModelsCorrect(p: Params, el: Element, x: seq<real>, v: seq<real>)
    requires p.Positive() && Fits(el, x) && |v| == |x|
  {
    && (forall n: nat :: n < el.nNodes ==> NodeModelCorrect(p, el, x, v, n))
    && (forall j: nat, i: nat, k: nat ::
          (j < |el.sides| && el.sides[j].Modelled? && i < |el.sides[j].nodes| && k < |el.dofs|) ==>
          BoundaryModelCorrect(p, el, x, v, el.sides[j], i, k))
  }

  /** No edge sits exactly on a branch switch of its flux. */
  ghost predicate ElementOffThresholds(p: Params, el: Element, x: seq<real>)
    requires p.Positive() && Fits(el, x)
  {
    forall i: nat, k: nat :: i < |el.edges| && k < |el.dofs| && k != el.u ==>
      OffThreshold(p.scheme, EdgeState(p, el, x, el.edges[i], k))
  }

  /** Tests of the local slots that agree with motions of the global unknowns. */
  ghost predicate Carries(el: Element, v: seq<real>, t: SlotMove)
    requires Fits(el, v)
  {
    forall k: nat, n: nat :: k < |el.dofs| && n < el.nNodes ==> t(At(el, k, n)) == Move(el, v, k, n)
  }

  // ---------------------------------------------------------------------------------------
  // Edges

  function PotentialAlong(el: Element, x: seq<real>, v: seq<real>, k: nat, n: nat): Curve
    requires Fits(el, x) && |v| == |x| && k < |el.dofs| && n < el.nNodes
  {
    (h: Arg) => Potential(el, Shift(x, h, v), k, n)
  }

  lemma DerivPotential(el: Element, x: seq<real>, v: seq<real>, k: nat, n: nat)
    requires Fits(el, x) && |v| == |x| && k < |el.dofs| && n < el.nNodes
    ensures HasDeriv(PotentialAlong(el, x, v, k, n), Move(el, v, k, n))
  {
    hide HasDeriv;
    var f, d := PotentialAlong(el, x, v, k, n), Dof(el, k, n);
    forall h: Arg ensures f(h) == x[d] + h as real * v[d] {}
    DerivAffine(f, x[d], v[d]);
  }

  function CurvesAt(p: Params, el: Element, x: seq<real>, v: seq<real>, e: Edge, k: nat): EdgeCurves
    requires Fits(el, x) && |v| == |x| && WellFormedEdge(el, e) && k < |el.dofs|
  {
    EdgeCurves(SigmaAlong(p, el, x, v, e.n1, k), SigmaAlong(p, el, x, v, e.n2, k),
               PotentialAlong(el, x, v, el.u, e.n1), PotentialAlong(el, x, v, el.u, e.n2),
               PotentialAlong(el, x, v, k, e.n1), PotentialAlong(el, x, v, k, e.n2))
  }

  function MovesAt(el: Element, v: seq<real>, e: Edge, k: nat): Row1
    requires Fits(el, v) && WellFormedEdge(el, e) && k < |el.dofs|
  {
    Row1(Move(el, v, k, e.n1), Move(el, v, k, e.n2), Move(el, v, el.u, e.n1), Move(el, v, el.u, e.n2))
  }

  function FluxAlong(p: Params, ex: ExpFun, el: Element, x: seq<real>, v: seq<real>, e: Edge, k: nat): Curve
    requires IsExp(ex) && p.Positive() && Fits(el, x) && |v| == |x| && WellFormedEdge(el, e) && k < |el.dofs|
  {
    (h: Arg) => CarrierFlux(p, ex, el, Shift(x, h, v), e, k)
  }

  lemma DerivCarrierFlux(p: Params, ex: ExpFun, el: Element, x: seq<real>, v: seq<real>, e: Edge, k: nat)
    requires IsExp(ex) && p.Positive() && Fits(el, x) && |v| == |x| && WellFormedEdge(el, e) && k < |el.dofs|
    requires k != el.u
    requires NodeModelCorrect(p, el, x, v, e.n1) && NodeModelCorrect(p, el, x, v, e.n2)
    requires OffThreshold(p.scheme, EdgeState(p, el, x, e, k))
    ensures HasDeriv(FluxAlong(p, ex, el, x, v, e, k), Apply(FluxRow(p, ex, el, x, e, k), MovesAt(el, v, e, k)))
  {
    hide HasDeriv, Flux, Row, OffThreshold, Local, Potential, Move;
    var s, m, cs, mv := EdgeState(p, el, x, e, k), SlopesAt(p, el, x, e, k), CurvesAt(p, el, x, v, e, k),
      MovesAt(el, v, e, k);
    var f := FluxAlong(p, ex, el, x, v, e, k);
    EdgeMoves(p, el, x, v, e, k);
    EdgeStatesAlong(p, el, x, v, e, k);
    forall h: Arg ensures f(h) == Flux(ex, p.scheme, cs.At(s, h)) {
      assert cs.At(s, h) == EdgeState(p, el, Shift(x, h, v), e, k);
    }
    DerivFlux(ex, p.scheme, s, cs, m, mv, f);
  }

  lemma EdgeStatesAlong(p: Params, el: Element, x: seq<real>, v: seq<real>, e: Edge, k: nat)
    requires p.Positive() && Fits(el, x) && |v| == |x| && WellFormedEdge(el, e) && k < |el.dofs|
    ensures forall h: Arg ::
      CurvesAt(p, el, x, v, e, k).At(EdgeState(p, el, x, e, k), h) == EdgeState(p, el, Shift(x, h, v), e, k)
    ensures CurvesAt(p, el, x, v, e, k).At(EdgeState(p, el, x, e, k), 0.0) == EdgeState(p, el, x, e, k)
  {
    hide Local, Potential;
    ShiftZero(x, v);
  }

  lemma EdgeMoves(p: Params, el: Element, x: seq<real>, v: seq<real>, e: Edge, k: nat)
    requires p.Positive() && Fits(el, x) && |v| == |x| && WellFormedEdge(el, e) && k < |el.dofs| && k != el.u
    requires NodeModelCorrect(p, el, x, v, e.n1) && NodeModelCorrect(p, el, x, v, e.n2)
    ensures Moves(CurvesAt(p, el, x, v, e, k), SlopesAt(p, el, x, e, k), MovesAt(el, v, e, k))
  {
    hide HasDeriv, Local, Move;
    DerivPotential(el, x, v, el.u, e.n1);
    DerivPotential(el, x, v, el.u, e.n2);
    DerivPotential(el, x, v, k, e.n1);
    DerivPotential(el, x, v, k, e.n2);
    assert CarrierModelCorrect(p, el, x, v, e.n1, k) && CarrierModelCorrect(p, el, x, v, e.n2, k);
    NoGradientAlong(e, p);
    var m, mv := SlopesAt(p, el, x, e, k), MovesAt(el, v, e, k);
    assert m.Moved1(mv) == SigmaMove(p, el, x, v, e.n1, k);
    assert m.Moved2(mv) == SigmaMove(p, el, x, v, e.n2, k);
  }

  lemma NoGradientAlong(e: Edge, p: Params)
    requires p.Positive()
    ensures Inner(Vec(0.0, 0.0, 0.0), e.dir) * p.phi0 / p.x0 == 0.0
  {}

  function CarrierBlockAlong(p: Params, ex: ExpFun, el: Element, x: seq<real>, v: seq<real>,
                             e: Edge): Arg -> (nat -> Adds)
    requires IsExp(ex) && p.Positive() && Fits(el, x) && |v| == |x| && WellFormedEdge(el, e)
  {
    (h: Arg) => CarrierBlock(p, ex, el, Shift(x, h, v), e)
  }

  /** Column sums of one block pair. */
  lemma DotAcrossJac(el: Element, e: Edge, k: nat, j: nat, a: real, b: real, w: SlotTest, t: SlotMove)
    requires WellFormed(el) && WellFormedEdge(el, e) && k < |el.dofs| && j < |el.dofs|
    ensures Dot(AcrossJac(el, e, k, j, a, b), Both(w, t))
         == Jump(el, e, k, w) * (a * t(At(el, j, e.n1)) + b * t(At(el, j, e.n2)))
  {
    hide At, WellFormed;
    var k1, k2, j1, j2 := At(el, k, e.n1), At(el, k, e.n2), At(el, j, e.n1), At(el, j, e.n2);
    var l := AcrossJac(el, e, k, j, a, b);
    DotFour(l[0], l[1], l[2], l[3], Both(w, t));
    FourTerms(w(k1), w(k2), t(j1), t(j2), a, b);
  }

  lemma FourTerms(w1: real, w2: real, t1: real, t2: real, a: real, b: real)
    ensures (w1 * t1) * a + (w1 * t2) * b + (w2 * t1) * -a + (w2 * t2) * -b == (w1 - w2) * (a * t1 + b * t2)
  {}

  lemma NoCarrierJac(p: Params, ex: ExpFun, el: Element, x: seq<real>, e: Edge)
    requires IsExp(ex) && p.Positive() && Fits(el, x) && WellFormedEdge(el, e)
    ensures CarrierJac(p, ex, el, x, e)(el.u) == []
  {}

  lemma MatchCarrier(p: Params, ex: ExpFun, el: Element, x: seq<real>, v: seq<real>, e: Edge, k: nat, w: SlotTest,
                     t: SlotMove)
    requires IsExp(ex) && p.Positive() && Fits(el, x) && |v| == |x| && WellFormedEdge(el, e) && k < |el.dofs|
    requires NodeModelCorrect(p, el, x, v, e.n1) && NodeModelCorrect(p, el, x, v, e.n2) && Carries(el, v, t)
    requires k != el.u ==> OffThreshold(p.scheme, EdgeState(p, el, x, e, k))
    ensures Tracks(Piece(CarrierBlockAlong(p, ex, el, x, v, e), k), CarrierJac(p, ex, el, x, e)(k), w, Both(w, t))
  {
    hide HasDeriv, NodeModelCorrect, OffThreshold, CarrierFlux, FluxRow, Across, CarrierJac, Jump, Dot, Carries,
      Apply, MovesAt, Covers;
    var f := Piece(CarrierBlockAlong(p, ex, el, x, v, e), k);
    if k == el.u {
      NoCarrierJac(p, ex, el, x, e);
      TrackConstant(f, w, Both(w, t));
    } else {
      DerivCarrierFlux(p, ex, el, x, v, e, k);
      var flux := FluxAlong(p, ex, el, x, v, e, k);
      var r := FluxRow(p, ex, el, x, e, k);
      forall h: Arg ensures DotCurve(f, w)(h) == Jump(el, e, k, w) * flux(h) {
        DotAcross(el, e, k, flux(h), w);
      }
      CarrierJacTested(p, ex, el, x, v, e, k, w, t);
      DerivScale(flux, Apply(r, MovesAt(el, v, e, k)), Jump(el, e, k, w), DotCurve(f, w),
                 Dot(CarrierJac(p, ex, el, x, e)(k), Both(w, t)));
    }
  }

  lemma CarrierJacTested(p: Params, ex: ExpFun, el: Element, x: seq<real>, v: seq<real>, e: Edge, k: nat, w: SlotTest,
                         t: SlotMove)
    requires IsExp(ex) && p.Positive() && Fits(el, x) && |v| == |x| && WellFormedEdge(el, e) && k < |el.dofs|
    requires k != el.u
    requires Carries(el, v, t)
    ensures Dot(CarrierJac(p, ex, el, x, e)(k), Both(w, t))
         == Jump(el, e, k, w) * Apply(FluxRow(p, ex, el, x, e, k), MovesAt(el, v, e, k))
  {
    hide FluxRow, AcrossJac, Jump, Dot, At, Move;
    var r := FluxRow(p, ex, el, x, e, k);
    DotConcat(AcrossJac(el, e, k, k, r.q1, r.q2), AcrossJac(el, e, k, el.u, r.p1, r.p2), Both(w, t));
    DotAcrossJac(el, e, k, k, r.q1, r.q2, w, t);
    DotAcrossJac(el, e, k, el.u, r.p1, r.p2, w, t);
    var q1, q2, p1, p2 := Move(el, v, k, e.n1), Move(el, v, k, e.n2), Move(el, v, el.u, e.n1), Move(el, v, el.u, e.n2);
    assert t(At(el, k, e.n1)) == q1 && t(At(el, k, e.n2)) == q2 && t(At(el, el.u, e.n1)) == p1
      && t(At(el, el.u, e.n2)) == p2;
    Distribute(Jump(el, e, k, w), r.q1 * q1 + r.q2 * q2, r.p1 * p1 + r.p2 * p2);
  }

  function PoissonAlong(p: Params, el: Element, x: seq<real>, v: seq<real>, e: Edge): Curve
    requires p.Positive() && Fits(el, x) && |v| == |x| && WellFormedEdge(el, e)
  {
    (h: Arg) => PoissonFlux(p, el, Shift(x, h, v), e)
  }

  function PoissonAddsAlong(p: Params, el: Element, x: seq<real>, v: seq<real>, e: Edge): Arg -> Adds
    requires p.Positive() && Fits(el, x) && |v| == |x| && WellFormedEdge(el, e)
  {
    (h: Arg) => Across(el, e, el.u, PoissonFlux(p, el, Shift(x, h, v), e))
  }

  lemma MatchPoisson(p: Params, el: Element, x: seq<real>, v: seq<real>, e: Edge, w: SlotTest, t: SlotMove)
    requires p.Positive() && Fits(el, x) && |v| == |x| && WellFormedEdge(el, e) && Carries(el, v, t)
    ensures var c := PoissonCoefficient(p, el, e);
      Tracks(PoissonAddsAlong(p, el, x, v, e), AcrossJac(el, e, el.u, el.u, c, -c), w, Both(w, t))
  {
    hide HasDeriv, PoissonCoefficient, Across, AcrossJac, Jump, Dot, At, Move, Inner;
    var c := PoissonCoefficient(p, el, e);
    var flux := PoissonAlong(p, el, x, v, e);
    var d := c * (Move(el, v, el.u, e.n1) - Move(el, v, el.u, e.n2));
    DerivPoisson(p, el, x, v, e, d);
    var f := PoissonAddsAlong(p, el, x, v, e);
    forall h: Arg ensures DotCurve(f, w)(h) == Jump(el, e, el.u, w) * flux(h) {
      DotAcross(el, e, el.u, flux(h), w);
    }
    DotAcrossJac(el, e, el.u, el.u, c, -c, w, t);
    assert t(At(el, el.u, e.n1)) == Move(el, v, el.u, e.n1) && t(At(el, el.u, e.n2)) == Move(el, v, el.u, e.n2);
    DropTimes(c, Move(el, v, el.u, e.n1), Move(el, v, el.u, e.n2));
    DerivScale(flux, d, Jump(el, e, el.u, w), DotCurve(f, w),
               Dot(AcrossJac(el, e, el.u, el.u, c, -c), Both(w, t)));
  }

  lemma DropTimes(c: real, a: real, b: real)
    ensures c * (a - b) == c * a + -c * b
  {}

  lemma DerivPoisson(p: Params, el: Element, x: seq<real>, v: seq<real>, e: Edge, d: real)
    requires p.Positive() && Fits(el, x) && |v| == |x| && WellFormedEdge(el, e)
    requires d == PoissonCoefficient(p, el, e) * (Move(el, v, el.u, e.n1) - Move(el, v, el.u, e.n2))
    ensures HasDeriv(PoissonAlong(p, el, x, v, e), d)
  {
    hide HasDeriv, PoissonCoefficient, Inner, Move, Potential;
    var c := PoissonCoefficient(p, el, e);
    var a, b := PotentialAlong(el, x, v, el.u, e.n1), PotentialAlong(el, x, v, el.u, e.n2);
    DerivPotential(el, x, v, el.u, e.n1);
    DerivPotential(el, x, v, el.u, e.n2);
    var da, db := Move(el, v, el.u, e.n1), Move(el, v, el.u, e.n2);
    var drop := Minus(a, b);
    DerivDiff(a, da, b, db, drop, da - db);
    var linear := Scaled(c, drop);
    DerivScale(drop, da - db, c, linear, d);
    var pol := e.area * ((Inner(el.polarization[e.n1], e.dir) + Inner(el.polarization[e.n2], e.dir)) * 0.5) / p.p0;
    var offset := Constant(pol);
    DerivConst(offset, pol);
    DerivSum(offset, 0.0, linear, d, PoissonAlong(p, el, x, v, e), d);
  }

  function EdgesAlong(p: Params, ex: ExpFun, el: Element, x: seq<real>, v: seq<real>): Arg -> (nat -> Adds)
    requires IsExp(ex) && p.Positive() && Fits(el, x) && |v| == |x|
  {
    (h: Arg) => EdgeAdds(p, ex, el, Shift(x, h, v))
  }

  lemma MatchEdge(p: Params, ex: ExpFun, el: Element, x: seq<real>, v: seq<real>, i: nat, w: SlotTest, t: SlotMove)
    requires IsExp(ex) && p.Positive() && Fits(el, x) && |v| == |x| && i < |el.edges| && Carries(el, v, t)
    requires ElementModelsCorrect(p, el, x, v) && ElementOffThresholds(p, el, x)
    ensures Tracks(Piece(EdgesAlong(p, ex, el, x, v), i), EdgeJac(p, ex, el, x)(i), w, Both(w, t))
  {
    hide HasDeriv, NodeModelCorrect, Carries, Tracks, CarrierBlock, PoissonFlux, Flat, OffThreshold;
    var e := el.edges[i];
    var c := PoissonCoefficient(p, el, e);
    MatchPoisson(p, el, x, v, e, w, t);
    var blocks := CarrierBlockAlong(p, ex, el, x, v, e);
    forall k: nat | k < |el.dofs| ensures Tracks(Piece(blocks, k), CarrierJac(p, ex, el, x, e)(k), w, Both(w, t)) {
      MatchCarrier(p, ex, el, x, v, e, k, w, t);
    }
    TrackFlat(blocks, CarrierJac(p, ex, el, x, e), |el.dofs|, w, Both(w, t));
    var f := Piece(EdgesAlong(p, ex, el, x, v), i);
    TrackConcat(PoissonAddsAlong(p, el, x, v, e), AcrossJac(el, e, el.u, el.u, c, -c),
                Joined(blocks, |el.dofs|), Flat(CarrierJac(p, ex, el, x, e), |el.dofs|), f, w, Both(w, t));
  }

  // ---------------------------------------------------------------------------------------
  // Sides

  lemma DotRow(j: JacAdds, f: nat -> JacAdds, n: nat, z: Place -> real, k: real, g: nat -> real)
    requires j == Flat(f, n)
    requires forall i: nat :: i < n ==> Dot(f(i), z) == k * g(i)
    ensures Dot(j, z) == k * Sum(g, n)
  {
    DotFlat(f, n, z);
    SumScale(g, k, DotOf(f, z), n);
  }

  function SideBlockAlong(p: Params, el: Element, x: seq<real>, v: seq<real>, s: Side, i: nat): Arg -> (nat -> Adds)
    requires p.Positive() && Fits(el, x) && |v| == |x| && WellFormedSide(el, s) && s.Modelled? && i < |s.nodes|
  {
    (h: Arg) => SideBlock(p, el, Shift(x, h, v), s, i)
  }

  lemma SideRowTested(p: Params, el: Element, x: seq<real>, v: seq<real>, s: Side, i: nat, k: nat, w: SlotTest,
                      t: SlotMove)
    requires p.Positive() && Fits(el, x) && |v| == |x| && WellFormedSide(el, s) && s.Modelled? && i < |s.nodes|
    requires k < |el.dofs|
    requires Carries(el, v, t)
    ensures Dot(Flat(SideRow(p, el, x, s, i, k), |el.dofs|), Both(w, t))
         == (w(At(el, k, s.nodes[i])) * -SideScale(p, el, s, i, k)) * Sum(BoundaryMove(p, el, x, v, s, i, k), |el.dofs|)
  {
    hide SideScale, BoundaryRows, At, Move, Dot, Flat, Sum;
    var f, g := SideRow(p, el, x, s, i, k), BoundaryMove(p, el, x, v, s, i, k);
    var n, c := s.nodes[i], SideScale(p, el, s, i, k);
    var factor := w(At(el, k, n)) * -c;
    forall j: nat | j < |el.dofs| ensures Dot(f(j), Both(w, t)) == factor * g(j) {
      DotSingle(SideEntry(p, el, x, s, i, k, j), Both(w, t));
      assert t(At(el, j, n)) == Move(el, v, j, n);
      SideTerm(w(At(el, k, n)), Move(el, v, j, n), c, p.phi0 * BoundaryRows(p, el, x, s, i)(k).jac(j));
    }
    DotRow(Flat(f, |el.dofs|), f, |el.dofs|, Both(w, t), factor, g);
  }

  lemma SideTerm(w: real, t: real, c: real, b: real)
    ensures (w * t) * -(c * b) == (w * -c) * (b * t)
  {}

  lemma MatchSideBlock(p: Params, el: Element, x: seq<real>, v: seq<real>, s: Side, i: nat, k: nat, w: SlotTest,
                       t: SlotMove)
    requires p.Positive() && Fits(el, x) && |v| == |x| && WellFormedSide(el, s) && s.Modelled? && i < |s.nodes|
    requires k < |el.dofs|
    requires BoundaryModelCorrect(p, el, x, v, s, i, k) && Carries(el, v, t)
    ensures Tracks(Piece(SideBlockAlong(p, el, x, v, s, i), k), SideJacBlock(p, el, x, s, i)(k), w, Both(w, t))
  {
    hide HasDeriv, Carries, SideScale, BoundaryValue, Dot, Flat, At, SideRow, BoundaryMove, Sum;
    var f := Piece(SideBlockAlong(p, el, x, v, s, i), k);
    forall h: Arg
      ensures BoundaryRows(p, el, Shift(x, h, v), s, i)(k).dirichlet == BoundaryRows(p, el, x, s, i)(k).dirichlet
    {
      assert ImposedAlong(p, el, x, v, s, i, k, h) == BoundaryRows(p, el, x, s, i)(k).dirichlet;
    }
    hide BoundaryRows;
    if BoundaryRows(p, el, x, s, i)(k).dirichlet {
      TrackConstant(f, w, Both(w, t));
    } else {
      var value := BoundaryAlong(p, el, x, v, s, i, k);
      var d := Sum(BoundaryMove(p, el, x, v, s, i, k), |el.dofs|);
      var factor := w(At(el, k, s.nodes[i])) * -SideScale(p, el, s, i, k);
      forall h: Arg ensures DotCurve(f, w)(h) == factor * value(h) {
        DotSingle(SideAdd(p, el, Shift(x, h, v), s, i, k), w);
        NegatedProduct(w(At(el, k, s.nodes[i])), SideScale(p, el, s, i, k), value(h));
      }
      SideRowTested(p, el, x, v, s, i, k, w, t);
      DerivScale(value, d, factor, DotCurve(f, w), Dot(SideJacBlock(p, el, x, s, i)(k), Both(w, t)));
    }
  }

  lemma NegatedProduct(w: real, c: real, b: real)
    ensures w * -(c * b) == (w * -c) * b
  {}

  function SidePointsAlong(p: Params, el: Element, x: seq<real>, v: seq<real>, s: Side): Arg -> (nat -> Adds)
    requires p.Positive() && Fits(el, x) && |v| == |x| && WellFormedSide(el, s)
  {
    (h: Arg) => SidePoint(p, el, Shift(x, h, v), s)
  }

  function SidesAlong(p: Params, el: Element, x: seq<real>, v: seq<real>): Arg -> (nat -> Adds)
    requires p.Positive() && Fits(el, x) && |v| == |x|
  {
    (h: Arg) => SideAdds(p, el, Shift(x, h, v))
  }

  lemma MatchSidePoint(p: Params, el: Element, x: seq<real>, v: seq<real>, s: Side, i: nat, w: SlotTest, t: SlotMove)
    requires p.Positive() && Fits(el, x) && |v| == |x| && WellFormedSide(el, s) && i < |s.nodes| && Carries(el, v, t)
    requires s.Modelled? ==> forall k: nat :: k < |el.dofs| ==> BoundaryModelCorrect(p, el, x, v, s, i, k)
    ensures Tracks(Piece(SidePointsAlong(p, el, x, v, s), i), SideJacPoint(p, el, x, s)(i), w, Both(w, t))
  {
    hide HasDeriv, Carries, Tracks, BoundaryModelCorrect, SideBlock, SideJacBlock, Flat;
    var f := Piece(SidePointsAlong(p, el, x, v, s), i);
    if s.Modelled? {
      var blocks := SideBlockAlong(p, el, x, v, s, i);
      forall k: nat | k < |el.dofs| ensures Tracks(Piece(blocks, k), SideJacBlock(p, el, x, s, i)(k), w, Both(w, t)) {
        MatchSideBlock(p, el, x, v, s, i, k, w, t);
      }
      TrackFlat(blocks, SideJacBlock(p, el, x, s, i), |el.dofs|, w, Both(w, t));
      TrackSame(Joined(blocks, |el.dofs|), f, Flat(SideJacBlock(p, el, x, s, i), |el.dofs|), w, Both(w, t));
    } else {
      TrackConstant(f, w, Both(w, t));
    }
  }

  lemma MatchSide(p: Params, el: Element, x: seq<real>, v: seq<real>, j: nat, w: SlotTest, t: SlotMove)
    requires p.Positive() && Fits(el, x) && |v| == |x| && j < |el.sides| && Carries(el, v, t)
    requires ElementModelsCorrect(p, el, x, v)
    ensures Tracks(Piece(SidesAlong(p, el, x, v), j), SideJac(p, el, x)(j), w, Both(w, t))
  {
    hide HasDeriv, Carries, Tracks, BoundaryModelCorrect, NodeModelCorrect, SidePoint, SideJacPoint, Flat;
    var s := el.sides[j];
    var f, points := Piece(SidesAlong(p, el, x, v), j), SidePointsAlong(p, el, x, v, s);
    forall i: nat | i < |s.nodes| ensures Tracks(Piece(points, i), SideJacPoint(p, el, x, s)(i), w, Both(w, t)) {
      MatchSidePoint(p, el, x, v, s, i, w, t);
    }
    TrackFlat(points, SideJacPoint(p, el, x, s), |s.nodes|, w, Both(w, t));
    TrackSame(Joined(points, |s.nodes|), f, Flat(SideJacPoint(p, el, x, s), |s.nodes|), w, Both(w, t));
  }

  // ---------------------------------------------------------------------------------------
  // Nodes

  function NodesAlong(p: Params, el: Element, x: seq<real>, v: seq<real>): Arg -> (nat -> Adds)
    requires p.Positive() && Fits(el, x) && |v| == |x|
  {
    (h: Arg) => NodeAdds(p, el, Shift(x, h, v))
  }

  function NodeTerms(p: Params, el: Element, x: seq<real>, v: seq<real>, n: nat, w: SlotTest): nat -> Curve
    requires p.Positive() && Fits(el, x) && |v| == |x| && n < el.nNodes
  {
    (k: nat) => ((h: Arg) => Dot(NodeBlock(p, el, Shift(x, h, v), n)(k), w))
  }

  /** Change of the recombination term of carrier block k, tested. */
  function RateTerm(p: Params, el: Element, x: seq<real>, v: seq<real>, n: nat, w: SlotTest): nat -> real
    requires p.Positive() && Fits(el, x) && |v| == |x| && n < el.nNodes
  {
    (k: nat) => if k < |el.dofs| && k != el.u then
        w(At(el, k, n)) * (Signed(el.positive[k], el.volumes[n] / p.r0) * Sum(RateMove(p, el, x, v, n, k), |el.dofs|))
      else 0.0
  }

  function ChargeFactor(p: Params, el: Element, n: nat, w: SlotTest): real
    requires p.Positive() && WellFormed(el) && n < el.nNodes
  {
    w(At(el, el.u, n)) * -(el.volumes[n] / p.c0)
  }

  function ChargeTerm(p: Params, el: Element, x: seq<real>, v: seq<real>, n: nat, w: SlotTest): real
    requires p.Positive() && Fits(el, x) && |v| == |x| && n < el.nNodes
  {
    ChargeFactor(p, el, n, w) * Sum(ChargeMove(p, el, x, v, n), |el.dofs|)
  }

  function NodeTermMoves(p: Params, el: Element, x: seq<real>, v: seq<real>, n: nat, w: SlotTest): nat -> real
    requires p.Positive() && Fits(el, x) && |v| == |x| && n < el.nNodes
  {
    (k: nat) => if k == el.u then ChargeTerm(p, el, x, v, n, w) else RateTerm(p, el, x, v, n, w)(k)
  }

  lemma DerivNodeTerm(p: Params, el: Element, x: seq<real>, v: seq<real>, n: nat, w: SlotTest, k: nat)
    requires p.Positive() && Fits(el, x) && |v| == |x| && n < el.nNodes && k < |el.dofs|
    requires NodeModelCorrect(p, el, x, v, n)
    ensures HasDeriv(NodeTerms(p, el, x, v, n, w)(k), NodeTermMoves(p, el, x, v, n, w)(k))
  {
    hide HasDeriv, Local, At, NodeBlock, Dot, ChargeMove, RateMove, Sum, ChargeFactor;
    var f := NodeTerms(p, el, x, v, n, w)(k);
    if k == el.u {
      var rho := RhoAlong(p, el, x, v, n);
      var factor := ChargeFactor(p, el, n, w);
      forall h: Arg ensures f(h) == factor * rho(h) {
        ChargeTested(p, el, Shift(x, h, v), n, w);
      }
      DerivScale(rho, Sum(ChargeMove(p, el, x, v, n), |el.dofs|), factor, f, ChargeTerm(p, el, x, v, n, w));
    } else {
      assert CarrierModelCorrect(p, el, x, v, n, k);
      var rate := RateAlong(p, el, x, v, n, k);
      var q := Signed(el.positive[k], el.volumes[n] / p.r0);
      var factor := w(At(el, k, n)) * q;
      forall h: Arg ensures f(h) == factor * rate(h) {
        RateTested(p, el, Shift(x, h, v), n, k, w);
      }
      var d := Sum(RateMove(p, el, x, v, n, k), |el.dofs|);
      RegroupProduct(w(At(el, k, n)), q, d);
      DerivScale(rate, d, factor, f, RateTerm(p, el, x, v, n, w)(k));
    }
  }

  lemma ChargeTested(p: Params, el: Element, y: seq<real>, n: nat, w: SlotTest)
    requires p.Positive() && Fits(el, y) && n < el.nNodes
    ensures Dot(NodeBlock(p, el, y, n)(el.u), w) == ChargeFactor(p, el, n, w) * Local(p, el, y, n).rho
  {}

  lemma RateTested(p: Params, el: Element, y: seq<real>, n: nat, k: nat, w: SlotTest)
    requires p.Positive() && Fits(el, y) && n < el.nNodes && k < |el.dofs| && k != el.u
    ensures Dot(NodeBlock(p, el, y, n)(k), w)
         == (w(At(el, k, n)) * Signed(el.positive[k], el.volumes[n] / p.r0)) * Local(p, el, y, n).rate(k)
  {}

  lemma RegroupProduct(a: real, b: real, c: real)
    ensures (a * b) * c == a * (b * c)
  {}

  lemma DerivNode(p: Params, el: Element, x: seq<real>, v: seq<real>, n: nat, w: SlotTest)
    requires p.Positive() && Fits(el, x) && |v| == |x| && n < el.nNodes && NodeModelCorrect(p, el, x, v, n)
    ensures HasDeriv(DotCurve(Piece(NodesAlong(p, el, x, v), n), w), Sum(NodeTermMoves(p, el, x, v, n, w), |el.dofs|))
  {
    hide HasDeriv, NodeModelCorrect, NodeTermMoves, NodeBlock, Dot, Flat, Sum;
    var total := DotCurve(Piece(NodesAlong(p, el, x, v), n), w);
    var f := NodeTerms(p, el, x, v, n, w);
    forall k: nat | k < |el.dofs| ensures HasDeriv(f(k), NodeTermMoves(p, el, x, v, n, w)(k)) {
      DerivNodeTerm(p, el, x, v, n, w, k);
    }
    forall h: Arg ensures total(h) == Sum(ValuesAt(f, h), |el.dofs|) {
      var blocks := NodeBlock(p, el, Shift(x, h, v), n);
      DotFlat(blocks, |el.dofs|, w);
      SumEqual(DotOf(blocks, w), ValuesAt(f, h), |el.dofs|);
    }
    DerivSumOf(f, NodeTermMoves(p, el, x, v, n, w), |el.dofs|, total);
  }

  function ChargeColumn(p: Params, el: Element, x: seq<real>, v: seq<real>, n: nat, w: SlotTest): nat -> real
    requires p.Positive() && Fits(el, x) && |v| == |x| && n < el.nNodes
  {
    (k: nat) => if k < |el.dofs| then ChargeFactor(p, el, n, w) * (ChargeSlope(p, el, x, n)(k) * Move(el, v, k, n))
      else 0.0
  }

  lemma RateRowTested(p: Params, el: Element, x: seq<real>, v: seq<real>, n: nat, k: nat, w: SlotTest, t: SlotMove)
    requires p.Positive() && Fits(el, x) && |v| == |x| && n < el.nNodes && k < |el.dofs| && k != el.u
    requires Carries(el, v, t)
    ensures Dot(Flat(RateRow(p, el, x, n, k), |el.dofs|), Both(w, t)) == RateTerm(p, el, x, v, n, w)(k)
  {
    hide Local, At, Move, Dot, Flat, Sum;
    var f, g := RateRow(p, el, x, n, k), RateMove(p, el, x, v, n, k);
    var q := Signed(el.positive[k], el.volumes[n] / p.r0);
    var factor := w(At(el, k, n)) * q;
    forall j: nat | j < |el.dofs| ensures Dot(f(j), Both(w, t)) == factor * g(j) {
      DotSingle(RateEntry(p, el, x, n, k, j), Both(w, t));
      assert t(At(el, j, n)) == Move(el, v, j, n);
      RateEntryTerm(w(At(el, k, n)), Move(el, v, j, n), el.positive[k], el.volumes[n], p.r0,
                    Local(p, el, x, n).drate(k, j) * p.phi0);
    }
    DotRow(Flat(f, |el.dofs|), f, |el.dofs|, Both(w, t), factor, g);
    RegroupProduct(w(At(el, k, n)), q, Sum(g, |el.dofs|));
  }

  lemma RateEntryTerm(w: real, t: real, positive: bool, vol: real, r0: real, d: real)
    requires r0 > 0.0
    ensures (w * t) * Signed(positive, vol * d / r0) == (w * Signed(positive, vol / r0)) * (d * t)
  {}

  lemma NodeJacBlockTested(p: Params, el: Element, x: seq<real>, v: seq<real>, n: nat, k: nat, w: SlotTest, t: SlotMove)
    requires p.Positive() && Fits(el, x) && |v| == |x| && n < el.nNodes && k < |el.dofs| && Carries(el, v, t)
    ensures Dot(NodeJacBlock(p, el, x, n)(k), Both(w, t)) == ChargeColumn(p, el, x, v, n, w)(k)
      + RateTerm(p, el, x, v, n, w)(k)
  {
    hide Local, At, Move, Dot, Flat, Sum, ChargeFactor, WellFormed, Covers;
    if k == el.u {
      assert ChargeSlope(p, el, x, n)(k) == 0.0;
      NoContributions(Both(w, t));
      ZeroProduct(ChargeFactor(p, el, n, w), Move(el, v, k, n));
    } else {
      CarrierJacBlockTested(p, el, x, v, n, k, w, t);
    }
  }

  lemma NoContributions(z: Place -> real)
    ensures Dot([], z) == 0.0
  {}

  lemma CarrierJacBlockTested(p: Params, el: Element, x: seq<real>, v: seq<real>, n: nat, k: nat, w: SlotTest,
                              t: SlotMove)
    requires p.Positive() && Fits(el, x) && |v| == |x| && n < el.nNodes && k < |el.dofs| && k != el.u
    requires Carries(el, v, t)
    ensures Dot([ChargeEntry(p, el, x, n, k)] + Flat(RateRow(p, el, x, n, k), |el.dofs|), Both(w, t))
         == ChargeColumn(p, el, x, v, n, w)(k) + RateTerm(p, el, x, v, n, w)(k)
  {
    hide Local, At, Move, Dot, Flat, Sum, RateTerm, ChargeSlope, RateRow;
    RateRowTested(p, el, x, v, n, k, w, t);
    DotConcat([ChargeEntry(p, el, x, n, k)], Flat(RateRow(p, el, x, n, k), |el.dofs|), Both(w, t));
    DotSingle(ChargeEntry(p, el, x, n, k), Both(w, t));
    assert t(At(el, k, n)) == Move(el, v, k, n);
    ChargeEntryTerm(w(At(el, el.u, n)), Move(el, v, k, n), el.volumes[n], p.c0, ChargeSlope(p, el, x, n)(k));
  }

  lemma ZeroProduct(a: real, b: real)
    ensures a * (0.0 * b) == 0.0
  {}

  lemma ChargeEntryTerm(w: real, t: real, vol: real, c0: real, s: real)
    requires c0 > 0.0
    ensures (w * t) * -(vol * s / c0) == (w * -(vol / c0)) * (s * t)
    ensures (w * t) * (vol * s / c0) == -((w * -(vol / c0)) * (s * t))
  {}

  /** The charge columns together act on the difference of the potentials. */
  lemma ChargeColumns(p: Params, el: Element, x: seq<real>, v: seq<real>, n: nat, w: SlotTest)
    requires p.Positive() && Fits(el, x) && |v| == |x| && n < el.nNodes
    ensures Sum(ChargeColumn(p, el, x, v, n, w), |el.dofs|)
          - ChargeFactor(p, el, n, w) * (Sum(ChargeSlope(p, el, x, n), |el.dofs|) * Move(el, v, el.u, n))
         == ChargeTerm(p, el, x, v, n, w)
  {
    hide Local, Move, ChargeFactor, Sum, ChargeSlope;
    var k0, tu := ChargeFactor(p, el, n, w), Move(el, v, el.u, n);
    var a, s, m := ChargeColumn(p, el, x, v, n, w), ChargeSlope(p, el, x, n), ChargeMove(p, el, x, v, n);
    var st := ScaledBy(s, tu);
    var full := PlusOf(m, st);
    forall k: nat | k < |el.dofs| ensures a(k) == k0 * full(k) {
      assert s(k) * (Move(el, v, k, n) - tu) + s(k) * tu == s(k) * Move(el, v, k, n);
    }
    SumScale(full, k0, a, |el.dofs|);
    SumPlus(m, st, full, |el.dofs|);
    SumScaled(s, tu, |el.dofs|);
    Distribute(k0, Sum(m, |el.dofs|), Sum(s, |el.dofs|) * tu);
  }

  function ScaledBy(f: nat -> real, k: real): nat -> real {
    (i: nat) => f(i) * k
  }

  function PlusOf(f: nat -> real, g: nat -> real): nat -> real {
    (i: nat) => f(i) + g(i)
  }

  lemma SumScaled(f: nat -> real, k: real, n: nat)
    ensures Sum(ScaledBy(f, k), n) == Sum(f, n) * k
  {}

  lemma NodeJacTested(p: Params, el: Element, x: seq<real>, v: seq<real>, n: nat, w: SlotTest, t: SlotMove)
    requires p.Positive() && Fits(el, x) && |v| == |x| && n < el.nNodes && Carries(el, v, t)
    ensures Dot(NodeJac(p, el, x)(n), Both(w, t)) == Sum(NodeTermMoves(p, el, x, v, n, w), |el.dofs|)
  {
    hide Local, At, Move, NodeJacBlock, ChargeSlope, ChargeColumn, RateTerm, ChargeTerm, Dot, Flat, Sum, Carries;
    var blocks, z := NodeJacBlock(p, el, x, n), Both(w, t);
    var a, b := ChargeColumn(p, el, x, v, n, w), RateTerm(p, el, x, v, n, w);
    DotConcat(Flat(blocks, |el.dofs|), [ChargeDiagonal(p, el, x, n)], z);
    DotFlat(blocks, |el.dofs|, z);
    forall k: nat | k < |el.dofs| ensures DotOf(blocks, z)(k) == a(k) + b(k) {
      NodeJacBlockTested(p, el, x, v, n, k, w, t);
    }
    SumPlus(a, b, DotOf(blocks, z), |el.dofs|);
    ChargeColumns(p, el, x, v, n, w);
    DiagonalTested(p, el, x, v, n, w, t);
    NodeMovesSplit(p, el, x, v, n, w);
  }

  lemma DiagonalTested(p: Params, el: Element, x: seq<real>, v: seq<real>, n: nat, w: SlotTest, t: SlotMove)
    requires p.Positive() && Fits(el, x) && |v| == |x| && n < el.nNodes && Carries(el, v, t)
    ensures Dot([ChargeDiagonal(p, el, x, n)], Both(w, t))
         == -(ChargeFactor(p, el, n, w) * (Sum(ChargeSlope(p, el, x, n), |el.dofs|) * Move(el, v, el.u, n)))
  {}

  lemma NodeMovesSplit(p: Params, el: Element, x: seq<real>, v: seq<real>, n: nat, w: SlotTest)
    requires p.Positive() && Fits(el, x) && |v| == |x| && n < el.nNodes
    ensures Sum(NodeTermMoves(p, el, x, v, n, w), |el.dofs|)
         == Sum(RateTerm(p, el, x, v, n, w), |el.dofs|) + ChargeTerm(p, el, x, v, n, w)
  {
    hide ChargeTerm, Sum;
    var b := RateTerm(p, el, x, v, n, w);
    var one := Spike(el.u, ChargeTerm(p, el, x, v, n, w));
    SumSingle(one, el.u, |el.dofs|);
    SumPlus(b, one, NodeTermMoves(p, el, x, v, n, w), |el.dofs|);
  }

  lemma MatchNode(p: Params, el: Element, x: seq<real>, v: seq<real>, n: nat, w: SlotTest, t: SlotMove)
    requires p.Positive() && Fits(el, x) && |v| == |x| && n < el.nNodes && Carries(el, v, t)
    requires NodeModelCorrect(p, el, x, v, n)
    ensures Tracks(Piece(NodesAlong(p, el, x, v), n), NodeJac(p, el, x)(n), w, Both(w, t))
  {
    hide HasDeriv, Carries, NodeModelCorrect, NodeJac, NodeTermMoves, Sum, Dot;
    DerivNode(p, el, x, v, n, w);
    NodeJacTested(p, el, x, v, n, w, t);
  }

  // ---------------------------------------------------------------------------------------
  // Whole elements

  function ElementAlong(p: Params, ex: ExpFun, el: Element, x: seq<real>, v: seq<real>): Arg -> Adds
    requires IsExp(ex) && p.Positive() && Fits(el, x) && |v| == |x|
  {
    (h: Arg) => ElementAdds(p, ex, el, Shift(x, h, v))
  }

  lemma MatchElement(p: Params, ex: ExpFun, el: Element, x: seq<real>, v: seq<real>, w: SlotTest, t: SlotMove)
    requires IsExp(ex) && p.Positive() && Fits(el, x) && |v| == |x| && Carries(el, v, t)
    requires ElementModelsCorrect(p, el, x, v) && ElementOffThresholds(p, el, x)
    ensures Tracks(ElementAlong(p, ex, el, x, v), ElementJac(p, ex, el, x), w, Both(w, t))
  {
    hide Tracks, Carries, NodeModelCorrect, BoundaryModelCorrect, ElementOffThresholds,
         NodeAdds, EdgeAdds, SideAdds, NodeJac, EdgeJac, SideJac, Flat;
    var nodes, edges, sides := NodesAlong(p, el, x, v), EdgesAlong(p, ex, el, x, v), SidesAlong(p, el, x, v);
    forall n: nat | n < el.nNodes ensures Tracks(Piece(nodes, n), NodeJac(p, el, x)(n), w, Both(w, t)) {
      MatchNode(p, el, x, v, n, w, t);
    }
    forall i: nat | i < |el.edges| ensures Tracks(Piece(edges, i), EdgeJac(p, ex, el, x)(i), w, Both(w, t)) {
      MatchEdge(p, ex, el, x, v, i, w, t);
    }
    forall j: nat | j < |el.sides| ensures Tracks(Piece(sides, j), SideJac(p, el, x)(j), w, Both(w, t)) {
      MatchSide(p, el, x, v, j, w, t);
    }
    TrackFlat(nodes, NodeJac(p, el, x), el.nNodes, w, Both(w, t));
    TrackFlat(edges, EdgeJac(p, ex, el, x), |el.edges|, w, Both(w, t));
    TrackFlat(sides, SideJac(p, el, x), |el.sides|, w, Both(w, t));
    var first := Both2(Joined(nodes, el.nNodes), Joined(edges, |el.edges|));
    var firstJac := Flat(NodeJac(p, el, x), el.nNodes) + Flat(EdgeJac(p, ex, el, x), |el.edges|);
    TrackConcat(Joined(nodes, el.nNodes), Flat(NodeJac(p, el, x), el.nNodes),
                Joined(edges, |el.edges|), Flat(EdgeJac(p, ex, el, x), |el.edges|), first, w, Both(w, t));
    TrackConcat(first, firstJac, Joined(sides, |el.sides|), Flat(SideJac(p, el, x), |el.sides|),
                ElementAlong(p, ex, el, x, v), w, Both(w, t));
  }

  function Both2(f: Arg -> Adds, g: Arg -> Adds): (s: Arg -> Adds)
    ensures forall h: Arg {:trigger s(h)} :: s(h) == f(h) + g(h)
  {
    (h: Arg) => f(h) + g(h)
  }
}
