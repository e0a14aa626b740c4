/** Carriers of an interface: for each carrier the side where it has the lower energy. */
module CarrierSelection {
  datatype CarrierInfo = CarrierInfo(charge: real, bandEdge: real)

  type Carriers = map<nat, CarrierInfo>

  /** The choice for a carrier that exists on both sides. */
  function Chosen(a: CarrierInfo, b: CarrierInfo): CarrierInfo {
    if a.bandEdge > b.bandEdge then (if a.charge <= 0.0 then b else a)
    else (if a.charge > 0.0 then b else a)
  }

  ghost predicate Compared(a: Carriers, b: Carriers, now: Carriers, rest: set<nat>) {
    && now.Keys == a.Keys
    && forall c: nat :: c in a ==> now[c] == if c in b && c !in rest then Chosen(a[c], b[c]) else a[c]
  }

  method CompareSides(a: Carriers, b: Carriers) returns (carriers: Carriers)
    ensures Compared(a, b, carriers, {})
  {
    carriers := a;
    var rest := a.Keys;
    while rest != {}
      invariant rest <= a.Keys && Compared(a, b, carriers, rest)
      decreases |rest|
    {
      var c :| c in rest;
      if c in b {
        if a[c].bandEdge > b[c].bandEdge {
          if a[c].charge <= 0.0 {
            carriers := carriers[c := b[c]];
          }
        } else {
          if a[c].charge > 0.0 {
            carriers := carriers[c := b[c]];
          }
        }
      }
      rest := rest - {c};
    }
  }

  method AddMissing(start: Carriers, b: Carriers) returns (carriers: Carriers)
    ensures carriers.Keys == start.Keys + b.Keys
    ensures forall c: nat :: c in carriers ==> carriers[c] == if c in start then start[c] else b[c]
  {
    carriers := start;
    var rest := b.Keys;
    while rest != {}
      invariant rest <= b.Keys && start.Keys <= carriers.Keys <= start.Keys + b.Keys
      invariant forall c: nat :: c in b && c !in rest ==> c in carriers
      invariant forall c: nat :: c in carriers ==> carriers[c] == if c in start then start[c] else b[c]
      decreases |rest|
    {
      var c :| c in rest;
      if c !in carriers {
        carriers := carriers[c := b[c]];
      }
      rest := rest - {c};
    }
  }

  /** Energy of the particle at its band edge; holes count downwards. */
  function ParticleEnergy(charge: real, edge: real): real {
    if charge > 0.0 then -edge else edge
  }

  /** All carriers of either side, each from the side where the particle has the lower energy;
      at equal edges electrons stay on the first side and holes go to the second. */
  ghost predicate LowestEnergies(a: Carriers, b: Carriers, r: Carriers) {
    && r.Keys == a.Keys + b.Keys
    && (forall c: nat :: c in a && c !in b ==> r[c] == a[c])
    && (forall c: nat :: c in b && c !in a ==> r[c] == b[c])
    && forall c: nat :: c in a && c in b ==>
         && (r[c] == a[c] || r[c] == b[c])
         && ParticleEnergy(a[c].charge, r[c].bandEdge) <= ParticleEnergy(a[c].charge, a[c].bandEdge)
         && ParticleEnergy(a[c].charge, r[c].bandEdge) <= ParticleEnergy(a[c].charge, b[c].bandEdge)
         && (a[c].bandEdge == b[c].bandEdge ==> r[c] == if a[c].charge > 0.0 then b[c] else a[c])
  }

  method Select(a: Carriers, b: Carriers) returns (carriers: Carriers)
    ensures LowestEnergies(a, b, carriers)
  {
    var compared := CompareSides(a, b);
    carriers := AddMissing(compared, b);
  }
}
