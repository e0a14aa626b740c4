/** The k.p density-of-states model with its cache of element data. */
module KPCache {
  /** Components of the symmetric strain tensor in the crystal frame. */
  datatype Strain = Strain(xx: real, yy: real, zz: real, xy: real, yz: real, xz: real)

  const UNSTRAINED := Strain(0.0, 0.0, 0.0, 0.0, 0.0, 0.0)

  datatype Particle = Electron | Hole

  /** A band extremum. */
  datatype Extremum = Extremum(energy: real, mass: real, degeneracy: int)

  /** The band structure solver, the density of states of one band, and the strain of an element
      after the n-th strain solve (zero where there is no solution). */
  datatype Physics = Physics(particle: Particle, conduction: Strain -> seq<Extremum>, valence: Strain -> seq<Extremum>,
                             dos: (int, real) -> real, strain: (nat, nat) -> Strain)
  {
    function Bands(s: Strain): seq<Extremum> {
      if particle.Electron? then conduction(s) else valence(s)
    }
  }

  ghost predicate Valid(p: Physics) {
    forall s: Strain {:trigger p.Bands(s)} :: |p.Bands(s)| > 0
  }

  datatype Data = Data(strainSeqNum: nat, refEnergy: seq<real>, dosMass: seq<real>, effDos: real)

  /** The model's quantities. */
  datatype Fields = Fields(bandEdge: seq<real>, dosMass: seq<real>, degeneracy: seq<int>, effectiveDos: real,
                           referenceEnergy: seq<real>, effectiveMass: seq<real>)

  function Energies(b: seq<Extremum>): seq<real> { seq(|b|, i requires 0 <= i < |b| => b[i].energy) }

  function Masses(b: seq<Extremum>): seq<real> { seq(|b|, i requires 0 <= i < |b| => b[i].mass) }

  function Degeneracies(b: seq<Extremum>): seq<int> { seq(|b|, i requires 0 <= i < |b| => b[i].degeneracy) }

  /** What a fresh calculation at a given strain yields. */
  function Solved(p: Physics, s: Strain): Fields
    requires Valid(p)
  {
    var b := p.Bands(s);
    Fields(Energies(b), Masses(b), Degeneracies(b), p.dos(b[0].degeneracy, b[0].mass), Energies(b), Masses(b))
  }

  function DataOf(n: nat, f: Fields): Data {
    Data(n, f.referenceEnergy, f.effectiveMass, f.effectiveDos)
  }

  // ---------------------------------------------------------------------------------------
  // The cache

  class Cache {
    var entries: map<nat, Data>

    constructor ()
      ensures entries == map[]
    {
      entries := map[];
    }

    /** Data of an element, if it is at least as recent as the strain. */
    method GetData(elem: nat, strainSeq: nat) returns (valid: bool, data: Data)
      ensures valid <==> elem in entries && entries[elem].strainSeqNum >= strainSeq
      ensures valid ==> data == entries[elem]
    {
      valid, data := false, Data(0, [], [], 0.0);
      if elem in entries && entries[elem].strainSeqNum >= strainSeq {
        valid, data := true, entries[elem];
      }
    }

    method SetData(elem: nat, data: Data)
      modifies this
      ensures entries == old(entries)[elem := data]
    {
      entries := entries[elem := data];
    }
  }

  /** Quantities, cache contents and the number of strain solves. */
  datatype State = State(fields: Fields, entries: map<nat, Data>, solves: nat)

  function Restored(f: Fields, d: Data): Fields {
    f.(effectiveDos := d.effDos, bandEdge := d.refEnergy, referenceEnergy := d.refEnergy,
       effectiveMass := d.dosMass, dosMass := d.dosMass)
  }

  /** Reinitialisation for an element: cached data or a fresh calculation that is then stored. */
  function Reinit(p: Physics, s: State, elem: nat): State
    requires Valid(p)
  {
    if elem in s.entries && s.entries[elem].strainSeqNum >= s.solves then
      s.(fields := Restored(s.fields, s.entries[elem]))
    else
      var f := Solved(p, p.strain(elem, s.solves));
      s.(fields := f, entries := s.entries[elem := DataOf(s.solves, f)])
  }

  class KPBulkDOS {
    const p: Physics
    const recompute: bool
    const cache: Cache
    var fields: Fields

    ghost function Contents(solves: nat): State
      reads this, cache
    {
      State(fields, cache.entries, solves)
    }

    /** Starts from the unstrained material with an empty cache; elements are prepared one by one only
        where strain or temperature is calculated. */
    constructor (p: Physics, strained: bool, heated: bool)
      requires Valid(p)
      ensures this.p == p && recompute == (strained || heated) && fresh(cache)
      ensures forall n: nat :: Contents(n) == State(Solved(p, UNSTRAINED), map[], n)
    {
      this.p, recompute := p, strained || heated;
      cache := new Cache();
      fields := Fields([], [], [], 0.0, [], []);
      new;
      SolveKP(UNSTRAINED);
    }

    method SolveKP(s: Strain)
      requires Valid(p)
      modifies this
      ensures fields == Solved(p, s)
    {
      var bands: seq<Extremum>;
      if p.particle.Electron? {
        bands := p.conduction(s);
      } else {
        bands := p.valence(s);
      }
      assert bands == p.Bands(s);
      var edge, mass, degeneracy := [bands[0].energy], [bands[0].mass], [bands[0].degeneracy];
      for i := 1 to |bands|
        invariant edge == Energies(bands)[..i] && mass == Masses(bands)[..i] && degeneracy == Degeneracies(bands)[..i]
      {
        edge, mass, degeneracy := edge + [bands[i].energy], mass + [bands[i].mass], degeneracy + [bands[i].degeneracy];
      }
      fields := Fields(edge, mass, degeneracy, p.dos(degeneracy[0], mass[0]), edge, mass);
    }

    /** Prepares the model for an element; solves is the number of strain solves so far. */
    method DoReinit(elem: nat, solves: nat)
      requires Valid(p)
      modifies this, cache
      ensures Contents(solves) == if recompute then Reinit(p, old(Contents(solves)), elem) else old(Contents(solves))
    {
      if !recompute {
        return;
      }
      var valid, data := cache.GetData(elem, solves);
      if valid {
        fields := fields.(effectiveDos := data.effDos, bandEdge := data.refEnergy, referenceEnergy := data.refEnergy);
        fields := fields.(effectiveMass := data.dosMass, dosMass := data.dosMass);
      } else {
        SolveKP(p.strain(elem, solves));
        cache.SetData(elem, Data(solves, fields.referenceEnergy, fields.effectiveMass, fields.effectiveDos));
      }
    }
  }

  // ---------------------------------------------------------------------------------------
  // Runs

  /** The strain is solved again, or an element is prepared. */
  datatype Event = StrainSolve | Prepare(elem: nat)

  function After(p: Physics, s: State, e: Event): State
    requires Valid(p)
  {
    match e
    case StrainSolve => s.(solves := s.solves + 1)
    case Prepare(elem) => Reinit(p, s, elem)
  }

  function Run(p: Physics, s: State, events: seq<Event>): State
    requires Valid(p)
  {
    if events == [] then s else After(p, Run(p, s, events[..|events| - 1]), events[|events| - 1])
  }

  /** Everything cached is what a fresh calculation at its strain solve gave, and no entry comes
      from the future. */
  ghost predicate Faithful(p: Physics, s: State)
    requires Valid(p)
  {
    forall elem: nat :: elem in s.entries ==>
      && s.entries[elem].strainSeqNum <= s.solves
      && s.entries[elem] == DataOf(s.entries[elem].strainSeqNum,
           Solved(p, p.strain(elem, s.entries[elem].strainSeqNum)))
  }

  lemma {:induction false} RunFaithful(p: Physics, s: State, events: seq<Event>)
    requires Valid(p) && Faithful(p, s)
    ensures Faithful(p, Run(p, s, events))
  {
    if events != [] {
      RunFaithful(p, s, events[..|events| - 1]);
      hide Solved;
    }
  }

  /** The quantities the cache stores. */
  ghost predicate SameStored(a: Fields, b: Fields) {
    a.bandEdge == b.bandEdge && a.dosMass == b.dosMass && a.effectiveDos == b.effectiveDos
    && a.referenceEnergy == b.referenceEnergy && a.effectiveMass == b.effectiveMass
  }

  /** Transparency: after any interleaving of strain solves and preparations, preparing an element
      yields the band edges, masses, reference energies and effective density of states that a
      fresh calculation at the current strain yields. */
  lemma CacheIsTransparent(p: Physics, s: State, events: seq<Event>, elem: nat)
    requires Valid(p) && Faithful(p, s)
    ensures var now := Run(p, s, events);
            SameStored(Reinit(p, now, elem).fields, Solved(p, p.strain(elem, now.solves)))
  {
    RunFaithful(p, s, events);
    var now := Run(p, s, events);
    hide Run;
    if elem in now.entries && now.entries[elem].strainSeqNum >= now.solves {
      assert now.entries[elem].strainSeqNum == now.solves;
    }
  }

  // ---------------------------------------------------------------------------------------
  // The degeneracies are not part of the cached data

  /** The state the model starts from when the strain has been solved n times. */
  function Start(p: Physics, n: nat): State
    requires Valid(p)
  {
    State(Solved(p, UNSTRAINED), map[], n)
  }

  function DegeneraciesOf(p: Physics, elem: nat, n: nat): seq<int>
    requires Valid(p)
  {
    Degeneracies(p.Bands(p.strain(elem, n)))
  }

  /** After any run, any preparation leaves what a fresh calculation leaves, in all quantities. */
  ghost predicate AlwaysFresh(p: Physics, n0: nat)
    requires Valid(p)
  {
    forall events: seq<Event>, elem: nat ::
      var now := Run(p, Start(p, n0), events);
      Reinit(p, now, elem).fields == Solved(p, p.strain(elem, now.solves))
  }

  /** At each strain solve all elements have the same degeneracies. */
  ghost predicate Uniform(p: Physics, n0: nat)
    requires Valid(p)
  {
    forall n: nat, e: nat, f: nat :: n0 <= n ==> DegeneraciesOf(p, e, n) == DegeneraciesOf(p, f, n)
  }

  /** A cached preparation keeps the degeneracies of the element calculated last, so all quantities
      agree with fresh calculations in all runs exactly if the elements never differ in them. */
  lemma DegeneraciesAgree(p: Physics, n0: nat)
    requires Valid(p)
    ensures AlwaysFresh(p, n0) <==> Uniform(p, n0)
  {
    if Uniform(p, n0) {
      forall events: seq<Event>, elem: nat
        ensures var now := Run(p, Start(p, n0), events);
                Reinit(p, now, elem).fields == Solved(p, p.strain(elem, now.solves))
      {
        RunSettled(p, n0, events);
        RunFaithful(p, Start(p, n0), events);
        SettledAgrees(p, Run(p, Start(p, n0), events), elem);
      }
    }
    if AlwaysFresh(p, n0) {
      forall n: nat, e: nat, f: nat | n0 <= n ensures DegeneraciesOf(p, e, n) == DegeneraciesOf(p, f, n) {
        if e != f { TwiceAround(p, n0, n - n0, e, f); }
      }
    }
  }

  /** The degeneracies fit every element cached since the last strain solve. */
  ghost predicate Settled(p: Physics, s: State)
    requires Valid(p)
  {
    forall elem: nat :: elem in s.entries && s.entries[elem].strainSeqNum >= s.solves ==>
      s.fields.degeneracy == DegeneraciesOf(p, elem, s.solves)
  }

  lemma {:induction false} RunSettled(p: Physics, n0: nat, events: seq<Event>)
    requires Valid(p) && Uniform(p, n0)
    ensures var now := Run(p, Start(p, n0), events); now.solves >= n0 && Settled(p, now)
  {
    if events != [] {
      var before := events[..|events| - 1];
      RunSettled(p, n0, before);
      RunFaithful(p, Start(p, n0), before);
      StepSettled(p, n0, Run(p, Start(p, n0), before), events[|events| - 1]);
    }
  }

  lemma StepSettled(p: Physics, n0: nat, s: State, e: Event)
    requires Valid(p) && Uniform(p, n0) && n0 <= s.solves && Settled(p, s) && Faithful(p, s)
    ensures Settled(p, After(p, s, e))
  {
    hide Solved, DegeneraciesOf, Valid;
    if e.Prepare? {
      SolvedDegeneracies(p, e.elem, s.solves);
      var now := After(p, s, e);
      forall elem: nat | elem in now.entries && now.entries[elem].strainSeqNum >= now.solves
        ensures now.fields.degeneracy == DegeneraciesOf(p, elem, now.solves)
      {
        assert DegeneraciesOf(p, elem, s.solves) == DegeneraciesOf(p, e.elem, s.solves);
      }
    }
  }

  lemma SettledAgrees(p: Physics, s: State, elem: nat)
    requires Valid(p) && Settled(p, s) && Faithful(p, s)
    ensures Reinit(p, s, elem).fields == Solved(p, p.strain(elem, s.solves))
  {}

  lemma {:induction false} RunSolves(p: Physics, n0: nat, k: nat)
    requires Valid(p)
    ensures Run(p, Start(p, n0), seq(k, _ => StrainSolve)) == Start(p, n0 + k)
  {
    var events: seq<Event> := seq(k, _ => StrainSolve);
    if k > 0 {
      RunSolves(p, n0, k - 1);
      assert events[..k - 1] == seq(k - 1, _ => StrainSolve);
    }
  }

  /** Preparing one element, another one, and the first again. */
  lemma TwiceAround(p: Physics, n0: nat, k: nat, e: nat, f: nat)
    requires Valid(p) && e != f
    ensures var now := Run(p, Start(p, n0), seq(k, _ => StrainSolve) + [Prepare(e)] + [Prepare(f)]);
            && now.solves == n0 + k
            && Reinit(p, now, e).fields.degeneracy == DegeneraciesOf(p, f, n0 + k)
  {
    hide Solved, Valid, DegeneraciesOf, Run, After;
    var solves: seq<Event> := seq(k, _ => StrainSolve);
    RunSolves(p, n0, k);
    RunOneMore(p, Start(p, n0), solves, Prepare(e));
    RunOneMore(p, Start(p, n0), solves + [Prepare(e)], Prepare(f));
    PreparedTwice(p, n0 + k, e, f);
  }

  lemma RunOneMore(p: Physics, s: State, events: seq<Event>, e: Event)
    requires Valid(p)
    ensures Run(p, s, events + [e]) == After(p, Run(p, s, events), e)
  {
    hide After, Valid;
    assert (events + [e])[..|events|] == events;
  }

  lemma PreparedTwice(p: Physics, n: nat, e: nat, f: nat)
    requires Valid(p) && e != f
    ensures var now := After(p, After(p, Start(p, n), Prepare(e)), Prepare(f));
            now.solves == n && Reinit(p, now, e).fields.degeneracy == DegeneraciesOf(p, f, n)
  {
    hide Solved, Valid, DegeneraciesOf;
    SolvedDegeneracies(p, f, n);
  }

  lemma SolvedDegeneracies(p: Physics, elem: nat, n: nat)
    requires Valid(p)
    ensures Solved(p, p.strain(elem, n)).degeneracy == DegeneraciesOf(p, elem, n)
  {}

  /** Conduction bands whose extremum is twofold except without strain; element 0 is unstrained. */
  const SPLIT := Physics(Electron, (s: Strain) => [Extremum(0.0, 1.0, if s.xx == 0.0 then 1 else 2)],
                         (s: Strain) => [Extremum(0.0, 1.0, 1)], (d: int, m: real) => m,
                         (elem: nat, n: nat) => Strain(elem as real, 0.0, 0.0, 0.0, 0.0, 0.0))

  /** Preparing elements 0, 1 and 0 again leaves element 0 with the degeneracy of element 1. */
  lemma StaleDegeneracies()
    ensures Valid(SPLIT)
    ensures Run(SPLIT, Start(SPLIT, 0), [Prepare(0), Prepare(1), Prepare(0)]).fields.degeneracy == [2]
    ensures Solved(SPLIT, SPLIT.strain(0, 0)).degeneracy == [1]
  {
    assert Valid(SPLIT);
    TwiceAround(SPLIT, 0, 0, 0, 1);
    var events := [Prepare(0), Prepare(1), Prepare(0)];
    assert events[..2] == seq(0, _ => StrainSolve) + [Prepare(0)] + [Prepare(1)];
    SolvedDegeneracies(SPLIT, 0, 0);
    SolvedDegeneracies(SPLIT, 1, 0);
  }

  // ---------------------------------------------------------------------------------------
  // What is reported

  /** Every band reports its own energy, mass and degeneracy; the effective density of states is that of the
      first one alone. */
  lemma BandsReported(p: Physics, s: Strain, i: nat)
    requires Valid(p) && i < |p.Bands(s)|
    ensures var f := Solved(p, s);
      && |f.bandEdge| == |f.dosMass| == |f.degeneracy| == |f.referenceEnergy| == |f.effectiveMass| == |p.Bands(s)|
      && f.bandEdge[i] == f.referenceEnergy[i] == p.Bands(s)[i].energy
      && f.dosMass[i] == f.effectiveMass[i] == p.Bands(s)[i].mass && f.degeneracy[i] == p.Bands(s)[i].degeneracy
      && f.effectiveDos == p.dos(p.Bands(s)[0].degeneracy, p.Bands(s)[0].mass)
  {}

  /** Strains that give the first band the same degeneracy and mass give the same effective density of states. */
  lemma FirstBandCounts(p: Physics, s: Strain, t: Strain)
    requires Valid(p) && p.Bands(s)[0].degeneracy == p.Bands(t)[0].degeneracy
    requires p.Bands(s)[0].mass == p.Bands(t)[0].mass
    ensures Solved(p, s).effectiveDos == Solved(p, t).effectiveDos
  {}
}
