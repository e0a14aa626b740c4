/** Boundary models: a condition g - a*phi per unknown, with its derivatives. Unknown i < n is a
    carrier, unknown n the electric potential. */
module InterfaceModel {
  import opened Calculus
  import opened Forms

  /** Mixed conditions share the value of Neumann conditions. */
  datatype BCType = DIRICHLET | NEUMANN

  /** Local properties at the boundary point: density and its derivative with respect to the
      Fermi level, ionized traps, net rates; derivatives by unknown. */
  datatype Point = Point(density: seq<real>, slope: seq<real>, electronTraps: real, holeTraps: real,
                         trapSlopes: seq<real>, rates: seq<real>, rateSlopes: seq<seq<real>>)

  /** An electrical contact: applied voltage, Fermi level, recombination velocities and
      equilibrium densities; plain interfaces do nothing of their own. */
  datatype Kind =
    | Plain
    | Contact(voltage: real, fermiLevel: real, vrec: seq<real>, dens0: seq<real>, carriers: set<nat>)

  /** The coefficients the assembly reads. */
  datatype Coefficients = Coefficients(a: seq<real>, b: seq<BCType>, g: seq<real>, jac: seq<seq<real>>)

  datatype Setup = Setup(n: nat, internal: bool, models: bool, zeroFlux: set<nat>)

  ghost predicate Square(s: seq<seq<real>>, rows: nat, columns: nat) {
    |s| == rows && forall i :: 0 <= i < rows ==> |s[i]| == columns
  }

  ghost predicate ValidPoint(n: nat, p: Point) {
    |p.density| == |p.slope| == |p.trapSlopes| == |p.rates| == n && Square(p.rateSlopes, n, n + 1)
  }

  ghost predicate ValidKind(n: nat, k: Kind) {
    k.Contact? ==> |k.vrec| == |k.dens0| == n && forall c :: c in k.carriers ==> c < n
  }

  ghost predicate Prepared(n: nat, s: Coefficients) {
    |s.a| == |s.b| == |s.g| == n + 1 && Square(s.jac, n + 1, n + 1)
  }

  // ---------------------------------------------------------------------------------------
  // What a computation leaves behind

  /** Halved on internal boundaries, which are visited from both sides. */
  function Divisor(s: Setup): (d: real)
    ensures d > 0.0
  {
    if s.internal then 2.0 else 1.0
  }

  function Recombination(k: Kind, p: Point, i: nat): real
    requires k.Contact? && ValidKind(|p.density|, k) && i < |p.density|
  {
    k.vrec[i] * (p.density[i] - k.dens0[i])
  }

  function RecombinationSlope(k: Kind, p: Point, i: nat): real
    requires k.Contact? && |k.vrec| == |p.slope| && i < |p.slope|
  {
    k.vrec[i] * p.slope[i]
  }

  /** Is there a contact that exchanges carrier i? */
  predicate Exchanged(k: Kind, i: nat) {
    k.Contact? && i in k.carriers
  }

  /** Value the contact gives a carrier: the voltage if imposed, else the recombination current. */
  function ContactValue(s: Setup, k: Kind, p: Point, was: Coefficients, i: nat): real
    requires ValidPoint(s.n, p) && ValidKind(s.n, k) && Prepared(s.n, was) && i < s.n
  {
    if was.b[i] == NEUMANN then (if Exchanged(k, i) then Recombination(k, p, i) else 0.0)
    else if Exchanged(k, i) then k.voltage
    else was.g[i]
  }

  function ContactEntry(s: Setup, k: Kind, p: Point, was: Coefficients, i: nat, j: nat): real
    requires ValidPoint(s.n, p) && ValidKind(s.n, k) && Prepared(s.n, was) && i < s.n && j <= s.n
  {
    if was.b[i] == DIRICHLET then was.jac[i][j]
    else if !Exchanged(k, i) then 0.0
    else if j == s.n then RecombinationSlope(k, p, i)
    else if j == i then -RecombinationSlope(k, p, i)
    else 0.0
  }

  /** Isolated carriers exchange nothing. */
  function OwnValue(s: Setup, k: Kind, p: Point, was: Coefficients, i: nat): real
    requires ValidPoint(s.n, p) && ValidKind(s.n, k) && Prepared(s.n, was) && i < s.n
  {
    if i in s.zeroFlux then 0.0 else ContactValue(s, k, p, was, i)
  }

  function OwnEntry(s: Setup, k: Kind, p: Point, was: Coefficients, i: nat, j: nat): real
    requires ValidPoint(s.n, p) && ValidKind(s.n, k) && Prepared(s.n, was) && i < s.n && j <= s.n
  {
    if i in s.zeroFlux then 0.0 else ContactEntry(s, k, p, was, i, j)
  }

  /** dq/dEf of carrier i for trapped surface charge. */
  function TrapSlope(s: Setup, p: Point): nat -> real {
    (i: nat) => if i < |p.trapSlopes| then -p.trapSlopes[i] / Divisor(s) else 0.0
  }

  function NewValue(s: Setup, k: Kind, p: Point, was: Coefficients, i: nat): real
    requires ValidPoint(s.n, p) && ValidKind(s.n, k) && Prepared(s.n, was) && i <= s.n
  {
    if i == s.n then
      if was.b[i] == NEUMANN then (p.electronTraps + p.holeTraps) / Divisor(s)
      else if k.Contact? then k.fermiLevel + k.voltage
      else was.g[i]
    else OwnValue(s, k, p, was, i) + (if s.models then p.rates[i] / Divisor(s) else 0.0)
  }

  function NewEntry(s: Setup, k: Kind, p: Point, was: Coefficients, i: nat, j: nat): real
    requires ValidPoint(s.n, p) && ValidKind(s.n, k) && Prepared(s.n, was) && i <= s.n && j <= s.n
  {
    if i == s.n then
      if was.b[i] == NEUMANN then (if j == s.n then Sum(TrapSlope(s, p), s.n) else -TrapSlope(s, p)(j))
      else was.jac[i][j]
    else OwnEntry(s, k, p, was, i, j) + (if s.models then p.rateSlopes[i][j] / Divisor(s) else 0.0)
  }

  function NewType(s: Setup, was: Coefficients, i: nat): BCType
    requires Prepared(s.n, was) && i <= s.n
  {
    if i < s.n && i in s.zeroFlux then NEUMANN else was.b[i]
  }

  function NewA(s: Setup, was: Coefficients, i: nat): real
    requires Prepared(s.n, was) && i <= s.n
  {
    if i < s.n && i in s.zeroFlux then 0.0 else was.a[i]
  }

  /** All coefficients after one computation. */
  ghost predicate Computed(s: Setup, k: Kind, p: Point, was: Coefficients, now: Coefficients)
    requires ValidPoint(s.n, p) && ValidKind(s.n, k) && Prepared(s.n, was)
  {
    && Prepared(s.n, now)
    && (forall i :: 0 <= i <= s.n ==> now.a[i] == NewA(s, was, i) && now.b[i] == NewType(s, was, i))
    && (forall i :: 0 <= i <= s.n ==> now.g[i] == NewValue(s, k, p, was, i))
    && forall i, j :: 0 <= i <= s.n && 0 <= j <= s.n ==> now.jac[i][j] == NewEntry(s, k, p, was, i, j)
  }

  // ---------------------------------------------------------------------------------------
  // Setting up

  function Fresh(n: nat): (c: Coefficients)
    ensures Prepared(n, c)
  {
    Coefficients(seq(n + 1, _ => 0.0), seq(n + 1, _ => NEUMANN), seq(n + 1, _ => 0.0),
      seq(n + 1, _ => seq(n + 1, _ => 0.0)))
  }

  const NOTHING := Coefficients([], [], [], [])

  ghost predicate Usable(n: nat, c: Coefficients) {
    c == NOTHING || Prepared(n, c)
  }

  function Ready(n: nat, c: Coefficients): (r: Coefficients)
    requires Usable(n, c)
    ensures Prepared(n, r)
  {
    if c.a == [] then Fresh(n) else c
  }

  /** Unknown i changes its type; an imposed unknown gets a = 1 and the derivative -1. */
  function WithType(n: nat, c: Coefficients, i: nat, t: BCType): (r: Coefficients)
    requires Prepared(n, c) && i <= n
    ensures Prepared(n, r)
  {
    if t == DIRICHLET then
      c.(a := c.a[i := 1.0], b := c.b[i := t], jac := c.jac[i := c.jac[i][i := -1.0]])
    else
      c.(a := c.a[i := 0.0], b := c.b[i := t])
  }

  /** The row says phi_i = g: coefficient one, derivative minus one for itself only. */
  ghost predicate Imposing(n: nat, c: Coefficients, i: nat)
    requires Prepared(n, c) && i <= n
  {
    && c.b[i] == DIRICHLET && c.a[i] == 1.0
    && forall j: nat :: j <= n ==> c.jac[i][j] == if j == i then -1.0 else 0.0
  }

  /** Before any computation: the imposed unknowns have their rows, the others no coefficient a. */
  ghost predicate Initial(n: nat, c: Coefficients) {
    && Prepared(n, c)
    && forall i: nat :: i <= n ==>
         && (c.b[i] == DIRICHLET ==> Imposing(n, c, i))
         && (c.b[i] == NEUMANN ==> c.a[i] == 0.0)
         && forall j: nat :: j <= n && j != i ==> c.jac[i][j] == 0.0
  }

  lemma FreshIsInitial(n: nat)
    ensures Initial(n, Fresh(n))
  {}

  lemma FreshStays(n: nat, i: nat)
    requires i <= n
    ensures WithType(n, Fresh(n), i, NEUMANN) == Fresh(n)
  {}

  lemma TypeKeepsInitial(n: nat, c: Coefficients, i: nat, t: BCType)
    requires Initial(n, c) && i <= n
    ensures Initial(n, WithType(n, c, i, t))
  {}

  // ---------------------------------------------------------------------------------------
  // The contact's rows, carrier by carrier

  function WithPotential(n: nat, k: Kind, c: Coefficients): (r: Coefficients)
    requires Prepared(n, c) && k.Contact?
    ensures Prepared(n, r)
  {
    if c.b[n] != NEUMANN then c.(g := c.g[n := k.fermiLevel + k.voltage]) else c
  }

  function Contacted(n: nat, k: Kind, p: Point, s: Coefficients, c: nat): (r: Coefficients)
    requires Prepared(n, s) && ValidPoint(n, p) && ValidKind(n, k) && k.Contact? && c < n
    ensures Prepared(n, r)
  {
    if s.b[c] != NEUMANN then s.(g := s.g[c := k.voltage])
    else
      var row := s.jac[c][n := s.jac[c][n] + RecombinationSlope(k, p, c)];
      s.(g := s.g[c := s.g[c] + Recombination(k, p, c)],
         jac := s.jac[c := row[c := row[c] - RecombinationSlope(k, p, c)]])
  }

  /** What the contact adds to entry (i, j). */
  function ContactSlope(n: nat, k: Kind, p: Point, b: BCType, i: nat, j: nat): real
    requires k.Contact? && ValidKind(n, k) && ValidPoint(n, p) && i < n
  {
    if b == DIRICHLET then 0.0
    else if j == n then RecombinationSlope(k, p, i)
    else if j == i then -RecombinationSlope(k, p, i)
    else 0.0
  }

  /** All carriers but those in rest are done. */
  ghost predicate ContactDone(n: nat, k: Kind, p: Point, was: Coefficients, now: Coefficients, rest: set<nat>)
    requires Prepared(n, was) && ValidPoint(n, p) && ValidKind(n, k) && k.Contact?
  {
    && Prepared(n, now) && now.a == was.a && now.b == was.b && now.g[n] == was.g[n] && now.jac[n] == was.jac[n]
    && (forall i: nat :: i < n ==>
          now.g[i] == if i !in k.carriers || i in rest then was.g[i]
                      else if was.b[i] == NEUMANN then was.g[i] + Recombination(k, p, i)
                      else k.voltage)
    && forall i: nat, j: nat :: i < n && j <= n ==>
         now.jac[i][j] == if i !in k.carriers || i in rest then was.jac[i][j]
                          else was.jac[i][j] + ContactSlope(n, k, p, was.b[i], i, j)
  }

  lemma NothingDone(n: nat, k: Kind, p: Point, was: Coefficients)
    requires Prepared(n, was) && ValidPoint(n, p) && ValidKind(n, k) && k.Contact?
    ensures ContactDone(n, k, p, was, was, k.carriers)
  {}

  lemma ContactStep(n: nat, k: Kind, p: Point, was: Coefficients, now: Coefficients, rest: set<nat>, c: nat)
    requires Prepared(n, was) && ValidPoint(n, p) && ValidKind(n, k) && k.Contact?
    requires ContactDone(n, k, p, was, now, rest) && rest <= k.carriers && c in rest
    ensures ContactDone(n, k, p, was, Contacted(n, k, p, now, c), rest - {c})
  {}

  // ---------------------------------------------------------------------------------------
  // The other steps

  /** Rows that are not imposed start from zero. */
  ghost predicate Cleared(n: nat, was: Coefficients, now: Coefficients)
    requires Prepared(n, was)
  {
    && Prepared(n, now) && now.a == was.a && now.b == was.b
    && (forall i: nat :: i <= n ==> now.g[i] == if was.b[i] == NEUMANN then 0.0 else was.g[i])
    && forall i: nat, j: nat :: i <= n && j <= n ==> now.jac[i][j] == if was.b[i] == NEUMANN then 0.0 else was.jac[i][j]
  }

  ghost predicate ContactRowsDone(s: Setup, k: Kind, p: Point, was: Coefficients, now: Coefficients)
    requires Prepared(s.n, was) && ValidPoint(s.n, p) && ValidKind(s.n, k)
  {
    if k.Contact? then ContactDone(s.n, k, p, WithPotential(s.n, k, was), now, {}) else now == was
  }

  /** Isolated carriers outside rest are done. */
  ghost predicate Isolated(n: nat, zeroFlux: set<nat>, was: Coefficients, now: Coefficients, rest: set<nat>)
    requires Prepared(n, was)
  {
    && Prepared(n, now)
    && (forall i: nat :: i <= n ==>
          var cut := i < n && i in zeroFlux && i !in rest;
          && now.a[i] == (if cut then 0.0 else was.a[i]) && now.b[i] == (if cut then NEUMANN else was.b[i])
          && now.g[i] == if cut then 0.0 else was.g[i])
    && forall i: nat, j: nat :: i <= n && j <= n ==>
         now.jac[i][j] == if i < n && i in zeroFlux && i !in rest then 0.0 else was.jac[i][j]
  }

  /** The potential's row holds the traps of the first m carriers. */
  ghost predicate Trapped(s: Setup, p: Point, was: Coefficients, now: Coefficients, m: nat)
    requires Prepared(s.n, was) && m <= s.n
  {
    && Prepared(s.n, now) && now.a == was.a && now.b == was.b
    && now.g[s.n] == was.g[s.n] + (p.electronTraps + p.holeTraps) / Divisor(s)
    && (forall i: nat :: i < s.n ==> now.g[i] == was.g[i] && now.jac[i] == was.jac[i])
    && now.jac[s.n][s.n] == was.jac[s.n][s.n] + Sum(TrapSlope(s, p), m)
    && forall i: nat :: i < s.n ==> now.jac[s.n][i] == if i < m then was.jac[s.n][i] - TrapSlope(s, p)(i)
         else was.jac[s.n][i]
  }

  lemma TrapStep(s: Setup, p: Point, was: Coefficients, now: Coefficients, i: nat, dq: real)
    requires Prepared(s.n, was) && i < s.n && Trapped(s, p, was, now, i) && dq == TrapSlope(s, p)(i)
    ensures var row := now.jac[s.n][s.n := now.jac[s.n][s.n] + dq];
            Trapped(s, p, was, now.(jac := now.jac[s.n := row[i := row[i] - dq]]), i + 1)
  {}

  /** The rates of the first m carriers are added. */
  ghost predicate Recombined(s: Setup, p: Point, was: Coefficients, now: Coefficients, m: nat)
    requires Prepared(s.n, was) && ValidPoint(s.n, p) && m <= s.n
  {
    && Prepared(s.n, now) && now.a == was.a && now.b == was.b
    && (forall i: nat :: i <= s.n ==> now.g[i] == if i < m then was.g[i] + p.rates[i] / Divisor(s) else was.g[i])
    && forall i: nat, j: nat :: i <= s.n && j <= s.n ==>
         now.jac[i][j] == if i < m then was.jac[i][j] + p.rateSlopes[i][j] / Divisor(s) else was.jac[i][j]
  }

  lemma ClearedPrepared(n: nat, was: Coefficients, now: Coefficients)
    requires Prepared(n, was) && Cleared(n, was, now)
    ensures Prepared(n, now)
  {}

  lemma ContactPrepared(s: Setup, k: Kind, p: Point, was: Coefficients, now: Coefficients)
    requires Prepared(s.n, was) && ValidPoint(s.n, p) && ValidKind(s.n, k)
    requires if k.Contact? then ContactDone(s.n, k, p, WithPotential(s.n, k, was), now, {}) else now == was
    ensures Prepared(s.n, now) && ContactRowsDone(s, k, p, was, now)
  {}

  lemma IsolatedPrepared(s: Setup, was: Coefficients, now: Coefficients)
    requires Prepared(s.n, was) && Isolated(s.n, s.zeroFlux, was, now, {})
    ensures Prepared(s.n, now)
  {}

  lemma TrappedPrepared(s: Setup, p: Point, was: Coefficients, now: Coefficients)
    requires Prepared(s.n, was)
    requires if was.b[s.n] == NEUMANN then Trapped(s, p, was, now, s.n) else now == was
    ensures Prepared(s.n, now)
  {}

  /** The steps together. */
  lemma StepsCompose(s: Setup, k: Kind, p: Point, c0: Coefficients, c1: Coefficients, c2: Coefficients,
                     c3: Coefficients, c4: Coefficients, c5: Coefficients)
    requires ValidPoint(s.n, p) && ValidKind(s.n, k) && Prepared(s.n, c0) && Prepared(s.n, c1) && Prepared(s.n, c2)
    requires Prepared(s.n, c3) && Prepared(s.n, c4)
    requires Cleared(s.n, c0, c1) && ContactRowsDone(s, k, p, c1, c2) && Isolated(s.n, s.zeroFlux, c2, c3, {})
    requires if c3.b[s.n] == NEUMANN then Trapped(s, p, c3, c4, s.n) else c4 == c3
    requires if s.models then Recombined(s, p, c4, c5, s.n) else c5 == c4
    ensures Computed(s, k, p, c0, c5)
  {
    CarriersCompose(s, k, p, c0, c1, c2, c3);
    hide OwnValue, OwnEntry, TrapSlope, Divisor, Cleared, Isolated, ContactRowsDone;
  }

  /** The carriers before surface recombination, and the potential before traps. */
  lemma CarriersCompose(s: Setup, k: Kind, p: Point, c0: Coefficients, c1: Coefficients, c2: Coefficients,
                        c3: Coefficients)
    requires ValidPoint(s.n, p) && ValidKind(s.n, k) && Prepared(s.n, c0) && Prepared(s.n, c1) && Prepared(s.n, c2)
    requires Cleared(s.n, c0, c1) && ContactRowsDone(s, k, p, c1, c2) && Isolated(s.n, s.zeroFlux, c2, c3, {})
    ensures Prepared(s.n, c3)
    ensures forall i: nat :: i <= s.n ==> c3.a[i] == NewA(s, c0, i) && c3.b[i] == NewType(s, c0, i)
    ensures forall i: nat :: i < s.n ==> c3.g[i] == OwnValue(s, k, p, c0, i)
    ensures forall i: nat, j: nat :: i < s.n && j <= s.n ==> c3.jac[i][j] == OwnEntry(s, k, p, c0, i, j)
    ensures forall j: nat :: j <= s.n ==> c3.jac[s.n][j] == if c0.b[s.n] == NEUMANN then 0.0 else c0.jac[s.n][j]
    ensures c3.g[s.n] == if c0.b[s.n] == NEUMANN then 0.0 else if k.Contact? then k.fermiLevel + k.voltage
      else c0.g[s.n]
  {}

  // ---------------------------------------------------------------------------------------
  // Contacts

  /** Zero gradient or a given recombination velocity releases a carrier for good. */
  predicate Released(zeroGradFermi: bool, given: real) {
    zeroGradFermi || given >= 0.0
  }

  /** Velocity a contact starts with; negative stands for not given. */
  function StartVelocity(zeroGradFermi: bool, given: real): (v: real)
    ensures v >= 0.0
  {
    if zeroGradFermi || given < 0.0 then 0.0 else given
  }

  /** A Schottky contact imposes the potential, and either all carriers or none. */
  function SchottkyState(n: nat, carriers: bool): (c: Coefficients)
    ensures Prepared(n, c)
  {
    Coefficients(
      seq(n + 1, i => if i == n || carriers then 1.0 else 0.0),
      seq(n + 1, i => if i == n || carriers then DIRICHLET else NEUMANN),
      seq(n + 1, _ => 0.0),
      seq(n + 1, i => seq(n + 1, j => if i == j && (i == n || carriers) then -1.0 else 0.0)))
  }

  /** The first m carriers of a Schottky contact have got type t. */
  ghost predicate PartlyImposed(n: nat, c: Coefficients, t: BCType, m: nat) {
    && Prepared(n, c) && c.g == seq(n + 1, _ => 0.0)
    && forall i :: 0 <= i <= n ==>
         var imposed := i == n || (i < m && t == DIRICHLET);
         && c.a[i] == (if imposed then 1.0 else 0.0) && c.b[i] == (if imposed then DIRICHLET else NEUMANN)
         && forall j :: 0 <= j <= n ==> c.jac[i][j] == if i == j && imposed then -1.0 else 0.0
  }

  lemma AllImposed(n: nat, c: Coefficients, t: BCType)
    requires PartlyImposed(n, c, t, n)
    ensures c == SchottkyState(n, t == DIRICHLET)
  {
    var s := SchottkyState(n, t == DIRICHLET);
    assert c.a == s.a && c.b == s.b;
    assert c.jac == s.jac by {
      forall i | 0 <= i <= n ensures c.jac[i] == s.jac[i] {}
    }
  }

  lemma PotentialImposed(n: nat)
    ensures WithType(n, Fresh(n), n, DIRICHLET) == SchottkyState(n, false)
  {
    AllImposed(n, WithType(n, Fresh(n), n, DIRICHLET), NEUMANN);
  }

  // ---------------------------------------------------------------------------------------
  // The model object

  class Boundary {
    const setup: Setup
    var kind: Kind
    var fixed: seq<bool>
    var coeffA: seq<real>
    var coeffB: seq<BCType>
    var coeffG: seq<real>
    var jacobian: seq<seq<real>>

    function Contents(): Coefficients
      reads this
    {
      Coefficients(coeffA, coeffB, coeffG, jacobian)
    }

    ghost predicate Valid()
      reads this
    {
      ValidKind(setup.n, kind) && Usable(setup.n, Contents())
    }

    constructor (setup: Setup, kind: Kind)
      requires ValidKind(setup.n, kind)
      ensures Valid() && this.setup == setup && this.kind == kind && Contents() == NOTHING
    {
      this.setup, this.kind, fixed := setup, kind, [];
      coeffA, coeffB, coeffG, jacobian := [], [], [], [];
    }

    method SetType(i: nat, t: BCType)
      requires Usable(setup.n, Contents()) && i <= setup.n
      modifies `coeffA, `coeffB, `coeffG, `jacobian
      ensures Contents() == WithType(setup.n, Ready(setup.n, old(Contents())), i, t)
    {
      if |coeffA| == 0 {
        var m := setup.n + 1;
        coeffA, coeffB, coeffG := seq(m, _ => 0.0), seq(m, _ => NEUMANN), seq(m, _ => 0.0);
        jacobian := seq(m, _ => seq(m, _ => 0.0));
        assert Contents() == Fresh(setup.n);
      }
      coeffB := coeffB[i := t];
      if t == DIRICHLET {
        coeffA := coeffA[i := 1.0];
        jacobian := jacobian[i := jacobian[i][i := -1.0]];
      } else {
        coeffA := coeffA[i := 0.0];
      }
    }

    /** Rows of unknowns that are not imposed are cleared. */
    method ClearRows()
      requires Prepared(setup.n, Contents())
      modifies `coeffA, `coeffB, `coeffG, `jacobian
      ensures Cleared(setup.n, old(Contents()), Contents())
    {
      for i := 0 to setup.n + 1
        invariant Prepared(setup.n, Contents()) && coeffA == old(coeffA) && coeffB == old(coeffB)
        invariant forall r :: 0 <= r <= setup.n ==>
                    coeffG[r] == if r < i && coeffB[r] == NEUMANN then 0.0 else old(coeffG)[r]
        invariant forall r, c :: 0 <= r <= setup.n && 0 <= c <= setup.n ==>
                    jacobian[r][c] == if r < i && coeffB[r] == NEUMANN then 0.0 else old(jacobian)[r][c]
      {
        if coeffB[i] == NEUMANN {
          coeffG := coeffG[i := 0.0];
          jacobian := jacobian[i := seq(setup.n + 1, _ => 0.0)];
        }
      }
    }

    /** One carrier at the contact. */
    method ContactCarrier(p: Point, c: nat)
      requires Prepared(setup.n, Contents()) && ValidPoint(setup.n, p) && ValidKind(setup.n, kind)
      requires kind.Contact? && c in kind.carriers
      modifies `coeffA, `coeffB, `coeffG, `jacobian
      ensures Contents() == Contacted(setup.n, kind, p, old(Contents()), c)
    {
      if coeffB[c] != NEUMANN {
        coeffG := coeffG[c := kind.voltage];
      } else {
        var r := kind.vrec[c] * (p.density[c] - kind.dens0[c]);
        var dR := kind.vrec[c] * p.slope[c];
        assert r == Recombination(kind, p, c) && dR == RecombinationSlope(kind, p, c);
        hide Recombination, RecombinationSlope;
        coeffG := coeffG[c := coeffG[c] + r];
        var row := jacobian[c][setup.n := jacobian[c][setup.n] + dR];
        jacobian := jacobian[c := row[c := row[c] - dR]];
      }
    }

    /** The contact's own rows. */
    method ContactRows(p: Point)
      requires Prepared(setup.n, Contents()) && ValidPoint(setup.n, p) && ValidKind(setup.n, kind) && kind.Contact?
      modifies `coeffA, `coeffB, `coeffG, `jacobian
      ensures ContactDone(setup.n, kind, p, WithPotential(setup.n, kind, old(Contents())), Contents(), {})
    {
      if coeffB[setup.n] != NEUMANN {
        coeffG := coeffG[setup.n := kind.fermiLevel + kind.voltage];
      }
      ghost var was := WithPotential(setup.n, kind, old(Contents()));
      assert Contents() == was;
      var rest := kind.carriers;
      NothingDone(setup.n, kind, p, was);
      hide ContactDone, Contacted, WithPotential;
      while rest != {}
        invariant rest <= kind.carriers && Prepared(setup.n, Contents())
        invariant ContactDone(setup.n, kind, p, was, Contents(), rest)
        decreases |rest|
      {
        var c :| c in rest;
        ContactStep(setup.n, kind, p, was, Contents(), rest, c);
        ContactCarrier(p, c);
        rest := rest - {c};
      }
    }

    /** Isolated carriers are made insulating. */
    method IsolateRows()
      requires Prepared(setup.n, Contents())
      modifies `coeffA, `coeffB, `coeffG, `jacobian
      ensures Isolated(setup.n, setup.zeroFlux, old(Contents()), Contents(), {})
    {
      var rest := setup.zeroFlux;
      while rest != {}
        invariant rest <= setup.zeroFlux
        invariant Isolated(setup.n, setup.zeroFlux, old(Contents()), Contents(), rest)
        decreases |rest|
      {
        var c :| c in rest;
        rest := rest - {c};
        if c < setup.n {
          coeffB, coeffA := coeffB[c := NEUMANN], coeffA[c := 0.0];
          coeffG := coeffG[c := 0.0];
          jacobian := jacobian[c := seq(setup.n + 1, _ => 0.0)];
        }
      }
    }

    /** Charge trapped at the surface enters the potential's row. */
    method TrapRow(p: Point)
      requires Prepared(setup.n, Contents()) && ValidPoint(setup.n, p) && coeffB[setup.n] == NEUMANN
      modifies `coeffA, `coeffB, `coeffG, `jacobian
      ensures Trapped(setup, p, old(Contents()), Contents(), setup.n)
    {
      var q := p.electronTraps + p.holeTraps;
      if setup.internal {
        q := q / 2.0;
      }
      coeffG := coeffG[setup.n := coeffG[setup.n] + q];
      for i := 0 to setup.n
        invariant Trapped(setup, p, old(Contents()), Contents(), i)
      {
        var dq := -p.trapSlopes[i];
        if setup.internal {
          dq := dq / 2.0;
        }
        assert dq == TrapSlope(setup, p)(i);
        TrapStep(setup, p, old(Contents()), Contents(), i, dq);
        hide Trapped, TrapSlope;
        var row := jacobian[setup.n][setup.n := jacobian[setup.n][setup.n] + dq];
        jacobian := jacobian[setup.n := row[i := row[i] - dq]];
      }
    }

    /** Surface recombination is added to every carrier. */
    method ModelRows(p: Point)
      requires Prepared(setup.n, Contents()) && ValidPoint(setup.n, p)
      modifies `coeffA, `coeffB, `coeffG, `jacobian
      ensures Recombined(setup, p, old(Contents()), Contents(), setup.n)
    {
      var div := if setup.internal then 2.0 else 1.0;
      assert div == Divisor(setup);
      hide Divisor;
      for i := 0 to setup.n
        invariant Recombined(setup, p, old(Contents()), Contents(), i)
      {
        coeffG := coeffG[i := coeffG[i] + p.rates[i] / div];
        ghost var row := jacobian[i];
        for j := 0 to setup.n + 1
          invariant Prepared(setup.n, Contents()) && coeffA == old(coeffA) && coeffB == old(coeffB)
          invariant forall r :: 0 <= r <= setup.n ==>
                      coeffG[r] == if r <= i then old(coeffG)[r] + p.rates[r] / div else old(coeffG)[r]
          invariant forall r, c :: 0 <= r <= setup.n && 0 <= c <= setup.n && r != i ==>
                      jacobian[r][c] == if r < i then old(jacobian)[r][c] + p.rateSlopes[r][c] / div
                        else old(jacobian)[r][c]
          invariant forall c :: 0 <= c <= setup.n ==>
                      jacobian[i][c] == if c < j then old(jacobian)[i][c] + p.rateSlopes[i][c] / div
                        else old(jacobian)[i][c]
        {
          jacobian := jacobian[i := jacobian[i][j := jacobian[i][j] + p.rateSlopes[i][j] / div]];
        }
      }
    }

    /** One computation at a boundary point. */
    method Compute(p: Point)
      requires Prepared(setup.n, Contents()) && ValidPoint(setup.n, p) && ValidKind(setup.n, kind)
      modifies `coeffA, `coeffB, `coeffG, `jacobian
      ensures Computed(setup, kind, p, old(Contents()), Contents())
    {
      hide Cleared, ContactRowsDone, ContactDone, Isolated, Trapped, Recombined, Computed, WithPotential;
      ghost var c0 := Contents();
      ClearRows();
      ghost var c1 := Contents();
      ClearedPrepared(setup.n, c0, c1);
      if kind.Contact? {
        ContactRows(p);
      }
      ghost var c2 := Contents();
      ContactPrepared(setup, kind, p, c1, c2);
      IsolateRows();
      ghost var c3 := Contents();
      IsolatedPrepared(setup, c2, c3);
      if coeffB[setup.n] == NEUMANN {
        TrapRow(p);
      }
      ghost var c4 := Contents();
      TrappedPrepared(setup, p, c3, c4);
      if setup.models {
        ModelRows(p);
      }
      StepsCompose(setup, kind, p, c0, c1, c2, c3, c4, Contents());
    }

    // Initialization

    /** All carriers get one type. */
    method SetCarriers(t: BCType)
      requires Initial(setup.n, Contents())
      modifies `coeffA, `coeffB, `coeffG, `jacobian
      ensures Initial(setup.n, Contents()) && coeffB[setup.n] == old(coeffB)[setup.n]
      ensures forall i :: 0 <= i < setup.n ==> coeffB[i] == t
      ensures t == NEUMANN && old(Contents()) == Fresh(setup.n) ==> Contents() == Fresh(setup.n)
      ensures old(Contents()) == SchottkyState(setup.n, false) ==> Contents() == SchottkyState(setup.n, t == DIRICHLET)
    {
      for i := 0 to setup.n
        invariant Initial(setup.n, Contents()) && coeffB[setup.n] == old(coeffB)[setup.n]
        invariant forall r :: 0 <= r < i ==> coeffB[r] == t
        invariant t == NEUMANN && old(Contents()) == Fresh(setup.n) ==> Contents() == Fresh(setup.n)
        invariant old(Contents()) == SchottkyState(setup.n, false) ==> PartlyImposed(setup.n, Contents(), t, i)
      {
        TypeKeepsInitial(setup.n, Contents(), i, t);
        SetType(i, t);
      }
      if old(Contents()) == SchottkyState(setup.n, false) { AllImposed(setup.n, Contents(), t); }
    }

    /** Interfaces with surface recombination exchange carriers. */
    method InitInterface()
      requires Contents() == NOTHING || Initial(setup.n, Contents())
      modifies `coeffA, `coeffB, `coeffG, `jacobian
      ensures Initial(setup.n, Contents())
      ensures forall i :: 0 <= i < setup.n ==>
                coeffB[i] == if setup.models || old(coeffB) == [] then NEUMANN else old(coeffB)[i]
      ensures coeffB[setup.n] == if old(coeffB) == [] then NEUMANN else old(coeffB)[setup.n]
      ensures old(Contents()) == NOTHING ==> Contents() == Fresh(setup.n)
    {
      if |coeffA| == 0 {
        var m := setup.n + 1;
        coeffA, coeffB, coeffG := seq(m, _ => 0.0), seq(m, _ => NEUMANN), seq(m, _ => 0.0);
        jacobian := seq(m, _ => seq(m, _ => 0.0));
        assert Contents() == Fresh(setup.n);
      }
      if setup.models {
        SetCarriers(NEUMANN);
      }
    }

    /** A carrier with a recombination velocity is released and keeps it; the others start at rest. */
    method ReleaseCarrier(zeroGradFermi: bool, given: real, i: nat)
      requires kind.Contact? && i < |kind.vrec| == |fixed| == setup.n && Initial(setup.n, Contents())
      modifies this
      ensures Contents() == if Released(zeroGradFermi, given) then WithType(setup.n, old(Contents()), i, NEUMANN)
                            else old(Contents())
      ensures kind == old(kind).(vrec := old(kind).vrec[i := StartVelocity(zeroGradFermi, given)])
      ensures fixed == old(fixed)[i := Released(zeroGradFermi, given) || old(fixed)[i]]
    {
      if zeroGradFermi || given >= 0.0 {
        SetType(i, NEUMANN);
        fixed := fixed[i := true];
        kind := kind.(vrec := kind.vrec[i := if zeroGradFermi then 0.0 else given]);
      } else {
        kind := kind.(vrec := kind.vrec[i := 0.0]);
      }
    }

    /** Contacts exchange the carriers with a recombination velocity, or all of them. */
    method InitContact(zeroField: bool, zeroGradFermi: bool, vrec: seq<real>)
      requires kind.Contact? && ValidKind(setup.n, kind) && |vrec| == setup.n
      requires Contents() == NOTHING || Initial(setup.n, Contents())
      modifies this
      ensures Initial(setup.n, Contents()) && (old(Contents()) == NOTHING ==> Contents() == Fresh(setup.n))
      ensures kind.Contact? && kind == old(kind).(vrec := kind.vrec) && ValidKind(setup.n, kind) && |fixed| == setup.n
      ensures forall i :: 0 <= i < setup.n ==>
                coeffB[i] == if setup.models || old(coeffB) == [] || Released(zeroGradFermi, vrec[i]) then NEUMANN
                             else old(coeffB)[i]
      ensures coeffB[setup.n] == if old(coeffB) == [] || zeroField then NEUMANN else old(coeffB)[setup.n]
      ensures forall i :: 0 <= i < setup.n ==>
                kind.vrec[i] == StartVelocity(zeroGradFermi, vrec[i]) && fixed[i] == Released(zeroGradFermi, vrec[i])
    {
      InitInterface();
      label common:
      fixed := seq(setup.n, _ => false);
      if zeroField {
        TypeKeepsInitial(setup.n, Contents(), setup.n, NEUMANN);
        SetType(setup.n, NEUMANN);
      }
      ReleaseCarriers(zeroGradFermi, vrec);
    }

    method ReleaseCarriers(zeroGradFermi: bool, vrec: seq<real>)
      requires kind.Contact? && |kind.vrec| == |fixed| == |vrec| == setup.n && Initial(setup.n, Contents())
      requires forall r :: 0 <= r < setup.n ==> !fixed[r]
      modifies this
      ensures Initial(setup.n, Contents()) && (old(Contents()) == Fresh(setup.n) ==> Contents() == Fresh(setup.n))
      ensures kind.Contact? && kind == old(kind).(vrec := kind.vrec) && |kind.vrec| == |fixed| == setup.n
      ensures coeffB[setup.n] == old(coeffB)[setup.n]
      ensures forall r :: 0 <= r < setup.n ==>
                coeffB[r] == if Released(zeroGradFermi, vrec[r]) then NEUMANN else old(coeffB)[r]
      ensures forall r :: 0 <= r < setup.n ==>
                kind.vrec[r] == StartVelocity(zeroGradFermi, vrec[r]) && fixed[r] == Released(zeroGradFermi, vrec[r])
    {
      hide Fresh, StartVelocity, Released, Imposing;
      for i := 0 to setup.n
        invariant Initial(setup.n, Contents())
        invariant old(Contents()) == Fresh(setup.n) ==> Contents() == Fresh(setup.n)
        invariant kind.Contact? && kind == old(kind).(vrec := kind.vrec) && |kind.vrec| == |fixed| == setup.n
        invariant coeffB[setup.n] == old(coeffB)[setup.n]
        invariant forall r :: 0 <= r < setup.n ==>
                    coeffB[r] == if r < i && Released(zeroGradFermi, vrec[r]) then NEUMANN else old(coeffB)[r]
        invariant forall r :: 0 <= r < i ==>
                    kind.vrec[r] == StartVelocity(zeroGradFermi, vrec[r])
                      && fixed[r] == Released(zeroGradFermi, vrec[r])
        invariant forall r :: i <= r < setup.n ==> !fixed[r]
      {
        TypeKeepsInitial(setup.n, Contents(), i, NEUMANN);
        FreshStays(setup.n, i);
        ReleaseCarrier(zeroGradFermi, vrec[i], i);
      }
    }

    /** Ohmic contacts impose everything first; later settings may release carriers. */
    method InitOhmic(zeroField: bool, zeroGradFermi: bool, vrec: seq<real>)
      requires kind.Contact? && ValidKind(setup.n, kind) && |vrec| == setup.n && Contents() == NOTHING
      modifies this
      ensures Initial(setup.n, Contents())
      ensures forall i :: 0 <= i < setup.n ==>
                coeffB[i] == if setup.models || Released(zeroGradFermi, vrec[i]) then NEUMANN else DIRICHLET
      ensures coeffB[setup.n] == if zeroField then NEUMANN else DIRICHLET
      ensures kind.Contact? && kind == old(kind).(vrec := kind.vrec) && ValidKind(setup.n, kind)
      ensures forall i :: 0 <= i < setup.n ==> kind.vrec[i] == StartVelocity(zeroGradFermi, vrec[i])
    {
      FreshIsInitial(setup.n);
      for i := 0 to setup.n + 1
        invariant kind == old(kind)
        invariant i == 0 ==> Contents() == NOTHING
        invariant i > 0 ==> Initial(setup.n, Contents()) && forall r :: 0 <= r < i ==> coeffB[r] == DIRICHLET
      {
        TypeKeepsInitial(setup.n, Ready(setup.n, Contents()), i, DIRICHLET);
        SetType(i, DIRICHLET);
      }
      InitContact(zeroField, zeroGradFermi, vrec);
    }

    /** A velocity set later counts, and frees the carrier, only if it is positive and the carrier has
        none of its own. */
    method SetVelocity(carrier: nat, v: real)
      requires kind.Contact? && carrier < |kind.vrec| == |fixed| == setup.n && Initial(setup.n, Contents())
      modifies this
      ensures fixed == old(fixed)
      ensures Contents() == if v > 0.0 && !fixed[carrier] then WithType(setup.n, old(Contents()), carrier, NEUMANN)
                            else old(Contents())
      ensures kind == if v > 0.0 && !fixed[carrier] then old(kind).(vrec := old(kind).vrec[carrier := v]) else old(kind)
    {
      if v > 0.0 && !fixed[carrier] {
        kind := kind.(vrec := kind.vrec[carrier := v]);
        SetType(carrier, NEUMANN);
      }
    }

    /** Velocities of thermionic emission, by carrier. */
    method SetVelocities(emission: map<nat, real>)
      requires kind.Contact? && |kind.vrec| == |fixed| == setup.n && Initial(setup.n, Contents())
      requires forall c :: c in emission ==> c < setup.n && coeffB[c] == NEUMANN
      modifies this
      ensures Contents() == old(Contents()) && fixed == old(fixed)
      ensures kind.Contact? && kind == old(kind).(vrec := kind.vrec) && |kind.vrec| == setup.n
      ensures forall i :: 0 <= i < setup.n ==>
                kind.vrec[i] == if i in emission && emission[i] > 0.0 && !fixed[i] then emission[i]
                  else old(kind).vrec[i]
    {
      var rest := emission.Keys;
      while rest != {}
        invariant rest <= emission.Keys && Contents() == old(Contents()) && fixed == old(fixed)
        invariant kind.Contact? && kind == old(kind).(vrec := kind.vrec) && |kind.vrec| == setup.n
        invariant forall i :: 0 <= i < setup.n ==>
                    kind.vrec[i] == if i in emission && i !in rest && emission[i] > 0.0 && !fixed[i] then emission[i]
                                    else old(kind).vrec[i]
        decreases |rest|
      {
        var c :| c in rest;
        assert WithType(setup.n, Contents(), c, NEUMANN) == Contents();
        SetVelocity(c, emission[c]);
        rest := rest - {c};
      }
    }

    /** Schottky contacts impose the potential; the carriers are imposed unless emission is modelled. */
    method InitSchottky(thermionic: bool, zeroField: bool, zeroGradFermi: bool, vrec: seq<real>,
                        emission: map<nat, real>)
      requires kind.Contact? && ValidKind(setup.n, kind) && |vrec| == setup.n && Contents() == NOTHING
      requires forall c :: c in emission ==> c < setup.n
      modifies this
      ensures Initial(setup.n, Contents()) && Contents() == SchottkyState(setup.n, !thermionic)
      ensures kind.Contact? && kind == old(kind).(vrec := kind.vrec) && ValidKind(setup.n, kind)
      ensures forall i :: 0 <= i < setup.n ==>
                kind.vrec[i] == if thermionic && i in emission && emission[i] > 0.0 && !Released(zeroGradFermi, vrec[i])
                                then emission[i] else StartVelocity(zeroGradFermi, vrec[i])
    {
      InitContact(zeroField, zeroGradFermi, vrec);
      TypeKeepsInitial(setup.n, Contents(), setup.n, DIRICHLET);
      SetType(setup.n, DIRICHLET);
      PotentialImposed(setup.n);
      if thermionic {
        SetCarriers(NEUMANN);
        SetVelocities(emission);
      } else {
        SetCarriers(DIRICHLET);
      }
    }
  }
}
