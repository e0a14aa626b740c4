/** Conservation of carrier numbers: the prescribed density or number fixes the other, and one
    scalar row of the system demands that number. */
module NumberConservation {
  import opened Calculus
  import opened Forms

  /** An element: its volume and the carriers it holds. */
  datatype Cell = Cell(volume: real, carriers: seq<nat>)

  /** The quantities of one conservation law. */
  datatype Law = Law(density: real, number: real, volume: real)

  predicate Shares(a: seq<nat>, b: seq<nat>) {
    exists i :: 0 <= i < |a| && a[i] in b
  }

  /** Volume of the elements that hold a conserved carrier. */
  function Occupied(cells: seq<Cell>, carriers: seq<nat>): nat -> real {
    (e: nat) => if e < |cells| && Shares(cells[e].carriers, carriers) then cells[e].volume else 0.0
  }

  function TotalVolume(cells: seq<Cell>, carriers: seq<nat>): real {
    Sum(Occupied(cells, carriers), |cells|)
  }

  /** A length to the power of the dimension. */
  function Power(dim: nat, u: real): real {
    if dim == 3 then u * u * u else if dim == 2 then u * u else u
  }

  /** The scaling by the dimension, starting from a factor. */
  method Scale(dim: nat, u: real, factor: real) returns (scale: real)
    ensures scale == Power(dim, u) * factor
  {
    scale := u * factor;
    if dim == 3 {
      scale := scale * u;
      scale := scale * u;
    } else if dim == 2 {
      scale := scale * u;
    }
    assert u * factor * u == u * u * factor;
    assert u * factor * u * u == u * u * u * factor;
  }

  method Volume(cells: seq<Cell>, carriers: seq<nat>) returns (volume: real)
    ensures volume == TotalVolume(cells, carriers)
  {
    volume := 0.0;
    for e := 0 to |cells|
      invariant volume == Sum(Occupied(cells, carriers), e)
    {
      var present := Present(cells[e].carriers, carriers);
      if present {
        volume := volume + cells[e].volume;
      }
    }
  }

  /** The quantities after one calculation on elements of total volume v. */
  function Calculated(l: Law, v: real, scale: real): Law
    requires v * scale != 0.0
  {
    if l.density > 0.0 then Law(l.density, v * scale * l.density, v)
    else Law(l.number / (v * scale), l.number, v)
  }

  class Conservation {
    const carriers: seq<nat>
    var density: real
    var number: real
    var volume: real

    function Contents(): Law
      reads this
    {
      Law(density, number, volume)
    }

    constructor (carriers: seq<nat>, density: real, number: real)
      ensures this.carriers == carriers && Contents() == Law(density, number, 0.0)
    {
      this.carriers, this.density, this.number, this.volume := carriers, density, number, 0.0;
    }

    method Calculate(cells: seq<Cell>, dim: nat, unit: real)
      requires TotalVolume(cells, carriers) * Power(dim, unit) != 0.0
      modifies this
      ensures Contents() == Calculated(old(Contents()), TotalVolume(cells, carriers), Power(dim, unit))
    {
      hide TotalVolume, Power;
      volume := 0.0;
      if density > 0.0 {
        number := 0.0;
      }
      volume := Volume(cells, carriers);
      var scale := Scale(dim, unit, 1.0);
      assert scale == Power(dim, unit);
      if density > 0.0 {
        number := volume * scale * density;
      } else {
        density := number / (volume * scale);
      }
    }
  }

  method Present(a: seq<nat>, b: seq<nat>) returns (present: bool)
    ensures present <==> Shares(a, b)
  {
    present := false;
    for i := 0 to |a|
      invariant !present && forall j :: 0 <= j < i ==> a[j] !in b
    {
      if a[i] in b {
        return true;
      }
    }
  }

  // ---------------------------------------------------------------------------------------
  // Repeated solves

  function Solves(l: Law, v: real, scale: real, n: nat): Law
    requires v * scale != 0.0
  {
    if n == 0 then l else Calculated(Solves(l, v, scale, n - 1), v, scale)
  }

  lemma NumberRecovered(number: real, w: real)
    requires w != 0.0
    ensures w * (number / w) == number
  {}

  /** One more solve on the same mesh changes neither number nor density. */
  lemma CalculatedTwice(l: Law, v: real, scale: real)
    requires v * scale != 0.0
    ensures Calculated(Calculated(l, v, scale), v, scale) == Calculated(l, v, scale)
  {}

  /** Over any number of solves on a fixed mesh the conserved number never drifts: it is the given
      number, or the one the given density stands for. */
  lemma {:induction false} NumberNeverDrifts(l: Law, v: real, scale: real, n: nat)
    requires v * scale != 0.0 && n > 0
    ensures Solves(l, v, scale, n) == Solves(l, v, scale, 1)
    ensures Solves(l, v, scale, n).number == if l.density > 0.0 then v * scale * l.density else l.number
    ensures Solves(l, v, scale, n).number == v * scale * Solves(l, v, scale, n).density
  {
    assert Solves(l, v, scale, 1) == Calculated(Solves(l, v, scale, 0), v, scale);
    if n > 1 {
      NumberNeverDrifts(l, v, scale, n - 1);
      CalculatedTwice(l, v, scale);
    }
    NumberRecovered(l.number, v * scale);
  }

  /** On a changed mesh the number follows the volume once a positive density is known. */
  lemma NumberFollowsVolume(l: Law, v: real, w: real, scale: real)
    requires v * scale != 0.0 && w * scale != 0.0 && Calculated(l, v, scale).density > 0.0
    ensures Calculated(Calculated(l, v, scale), w, scale).number == Calculated(l, v, scale).number <==> v == w
  {}

  // ---------------------------------------------------------------------------------------
  // The scalar row

  /** A node of an element: box volume (scaled) and the densities of the element's carriers. */
  datatype BoxNode = BoxNode(volume: real, density: nat -> real)

  datatype BoxElement = BoxElement(carriers: seq<nat>, nodes: seq<BoxNode>)

  function CarrierNumber(el: BoxElement, b: BoxNode, carriers: seq<nat>): nat -> real {
    (c: nat) => if c < |carriers| && carriers[c] in el.carriers then b.volume * b.density(carriers[c]) else 0.0
  }

  function NodeNumber(el: BoxElement, carriers: seq<nat>): nat -> real {
    (n: nat) => if n < |el.nodes| then Sum(CarrierNumber(el, el.nodes[n], carriers), |carriers|) else 0.0
  }

  function ElementNumber(elements: seq<BoxElement>, carriers: seq<nat>): nat -> real {
    (e: nat) => if e < |elements| then Sum(NodeNumber(elements[e], carriers), |elements[e].nodes|) else 0.0
  }

  /** Scaled number of conserved carriers in the whole mesh. */
  function CarriersIn(elements: seq<BoxElement>, carriers: seq<nat>): real {
    Sum(ElementNumber(elements, carriers), |elements|)
  }

  /** The residual of the scalar unknown. */
  method ScalarRow(elements: seq<BoxElement>, carriers: seq<nat>, number: real, dim: nat, x0: real, c0: real)
    returns (row: real)
    requires x0 > 0.0 && c0 > 0.0
    ensures Power(dim, x0) * c0 > 0.0
    ensures row == number / (Power(dim, x0) * c0) - CarriersIn(elements, carriers) / c0
  {
    hide Power, CarriersIn;
    row := SumRow(elements, carriers, c0);
    var scale := Scale(dim, x0, c0);
    ScalePositive(dim, x0, c0);
    Quotient(row, c0, -CarriersIn(elements, carriers));
    row := row + number / scale;
  }

  method SumRow(elements: seq<BoxElement>, carriers: seq<nat>, c0: real) returns (row: real)
    requires c0 > 0.0
    ensures row * c0 == -CarriersIn(elements, carriers)
  {
    hide CarrierNumber;
    row := 0.0;
    for e := 0 to |elements|
      invariant row * c0 == -Sum(ElementNumber(elements, carriers), e)
    {
      var el := elements[e];
      ghost var before := row * c0;
      for n := 0 to |el.nodes|
        invariant row * c0 == before - Sum(NodeNumber(el, carriers), n)
      {
        row := AddBox(el, el.nodes[n], carriers, c0, row);
      }
    }
  }

  method AddBox(el: BoxElement, b: BoxNode, carriers: seq<nat>, c0: real, start: real) returns (row: real)
    requires c0 > 0.0
    ensures row * c0 == start * c0 - Sum(CarrierNumber(el, b, carriers), |carriers|)
  {
    hide CarrierNumber;
    row := start;
    for c := 0 to |carriers|
      invariant row * c0 == start * c0 - Sum(CarrierNumber(el, b, carriers), c)
    {
      CarrierNumberAt(el, b, carriers, c);
      if carriers[c] in el.carriers {
        var number := b.volume * b.density(carriers[c]);
        RowStep(row, number, c0);
        row := row - number / c0;
      }
    }
  }

  lemma CarrierNumberAt(el: BoxElement, b: BoxNode, carriers: seq<nat>, c: nat)
    requires c < |carriers|
    ensures CarrierNumber(el, b, carriers)(c) == if carriers[c] in el.carriers then b.volume * b.density(carriers[c])
      else 0.0
  {}

  lemma RowStep(row: real, a: real, c0: real)
    requires c0 > 0.0
    ensures (row - a / c0) * c0 == row * c0 - a
  {}

  lemma Quotient(row: real, c0: real, a: real)
    requires c0 > 0.0 && row * c0 == a
    ensures row == a / c0 == -(-a / c0)
  {}

  lemma ScalePositive(dim: nat, x0: real, c0: real)
    requires x0 > 0.0 && c0 > 0.0
    ensures Power(dim, x0) * c0 > 0.0
  {
    Powers(x0);
    Positive(Power(dim, x0), c0);
  }

  lemma Powers(u: real)
    requires u > 0.0
    ensures u * u > 0.0 && u * u * u > 0.0
  {}

  /** The row vanishes exactly when the mesh holds the conserved number of carriers. */
  lemma RowVanishes(elements: seq<BoxElement>, carriers: seq<nat>, number: real, dim: nat, x0: real, c0: real)
    requires x0 > 0.0 && c0 > 0.0 && Power(dim, x0) * c0 > 0.0
    ensures number / (Power(dim, x0) * c0) - CarriersIn(elements, carriers) / c0 == 0.0
       <==> Power(dim, x0) * CarriersIn(elements, carriers) == number
  {}

  // ---------------------------------------------------------------------------------------
  // Volume and row agree

  function BoxVolume(el: BoxElement): nat -> real {
    (n: nat) => if n < |el.nodes| then el.nodes[n].volume else 0.0
  }

  /** The boxes of an element fill it. */
  ghost predicate Filled(cell: Cell, el: BoxElement) {
    cell.carriers == el.carriers && Sum(BoxVolume(el), |el.nodes|) == cell.volume
  }

  ghost predicate UniformDensity(el: BoxElement, c: nat, density: real) {
    forall n :: 0 <= n < |el.nodes| ==> el.nodes[n].density(c) == density
  }

  lemma OneElement(cell: Cell, el: BoxElement, c: nat, density: real)
    requires Filled(cell, el) && UniformDensity(el, c, density)
    ensures Sum(NodeNumber(el, [c]), |el.nodes|) == if c in el.carriers then density * cell.volume else 0.0
  {
    hide Sum;
    var f := NodeNumber(el, [c]);
    forall n: nat | n < |el.nodes|
      ensures f(n) == if c in el.carriers then density * BoxVolume(el)(n) else 0.0
    {
      SumSingle(CarrierNumber(el, el.nodes[n], [c]), 0, 1);
    }
    if c in el.carriers {
      SumScale(BoxVolume(el), density, f, |el.nodes|);
    } else {
      SumZero(f, |el.nodes|);
    }
  }

  /** A uniform density of one carrier counts, in the row, the volume its number is computed with. */
  lemma UniformNumber(cells: seq<Cell>, elements: seq<BoxElement>, c: nat, density: real)
    requires |cells| == |elements|
    requires forall e :: 0 <= e < |cells| ==> Filled(cells[e], elements[e]) && UniformDensity(elements[e], c, density)
    ensures CarriersIn(elements, [c]) == density * TotalVolume(cells, [c])
  {
    hide Sum, NodeNumber;
    var f := ElementNumber(elements, [c]);
    forall e: nat | e < |cells| ensures f(e) == density * Occupied(cells, [c])(e) {
      OneElement(cells[e], elements[e], c, density);
      Single(cells[e].carriers, c);
      NoVolume(density);
    }
    SumScale(Occupied(cells, [c]), density, f, |cells|);
  }

  lemma NoVolume(density: real)
    ensures density * 0.0 == 0.0
  {}

  lemma Single(a: seq<nat>, c: nat)
    ensures Shares(a, [c]) <==> c in a
  {
    if c in a {
      var i :| 0 <= i < |a| && a[i] == c;
      assert a[i] in [c];
    }
  }

  /** So a uniform density solves the conserved row exactly if it is the one the number was computed from or
      gives: number and row use the same volume and the same scale. */
  lemma UniformConserves(l: Law, cells: seq<Cell>, elements: seq<BoxElement>, c: nat, density: real, dim: nat, x0: real)
    requires |cells| == |elements|
    requires forall e :: 0 <= e < |cells| ==> Filled(cells[e], elements[e]) && UniformDensity(elements[e], c, density)
    requires TotalVolume(cells, [c]) * Power(dim, x0) != 0.0
    ensures Power(dim, x0) * CarriersIn(elements, [c]) == Calculated(l, TotalVolume(cells, [c]), Power(dim, x0)).number
      <==> density == Calculated(l, TotalVolume(cells, [c]), Power(dim, x0)).density
  {
    UniformNumber(cells, elements, c, density);
    var v, s := TotalVolume(cells, [c]), Power(dim, x0);
    hide TotalVolume, CarriersIn, Power;
    var r := Calculated(l, v, s);
    assert r.number == v * s * r.density by {
      if l.density <= 0.0 { NumberRecovered(l.number, v * s); }
    }
    SameNumber(v, s, density, r.density);
  }

  lemma SameNumber(v: real, s: real, a: real, b: real)
    requires v * s != 0.0
    ensures s * (a * v) == v * s * b <==> a == b
  {
    var w := v * s;
    assert s * (a * v) == w * a;
    assert w * (a - b) == w * a - w * b;
  }

  /** The scale of a volume: each dimension multiplies by the length once more. */
  lemma PowerOfDimension(u: real)
    ensures Power(1, u) == u && Power(2, u) == u * Power(1, u) && Power(3, u) == u * Power(2, u)
  {}
}
