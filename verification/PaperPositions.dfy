/** Net paper positions from fills: signed quantity and average cost, per instrument. */
module PaperPositions {
  import opened Common

  /** One fill in time order; a SELL has a negative delta and an unpublished price is absent. */
  datatype Fill = Fill(key: string, delta: int, price: Option<real>)

  datatype Position = Position(net: int, average: real)

  const FLAT := Position(0, 0.0)

  function Abs(x: int): nat { if x < 0 then -x else x }

  function Sign(x: int): int { if x > 0 then 1 else if x < 0 then -1 else 0 }

  predicate Adds(net: int, delta: int) { net == 0 || Sign(net) == Sign(delta) }

  /** The cost of a larger lot: quantity-weighted. */
  function Blend(held: nat, average: real, added: nat, price: real): real {
    if held + added == 0 then 0.0 else (held as real * average + added as real * price) / (held + added) as real
  }

  function Fold(p: Position, delta: int, price: Option<real>): Position {
    if Adds(p.net, delta) then
      Position(p.net + delta, if price.None? then p.average else Blend(Abs(p.net), p.average, Abs(delta), price.value))
    else if Abs(delta) < Abs(p.net) then p.(net := p.net + delta)
    else if Abs(delta) == Abs(p.net) then FLAT
    else Position(p.net + delta, if price.Some? then price.value else p.average)
  }

  function After(fills: seq<Fill>): Position {
    if fills == [] then FLAT
    else Fold(After(fills[..|fills| - 1]), fills[|fills| - 1].delta, fills[|fills| - 1].price)
  }

  function OfKey(fills: seq<Fill>, key: string): seq<Fill> {
    if fills == [] then []
    else if fills[|fills| - 1].key == key then OfKey(fills[..|fills| - 1], key) + [fills[|fills| - 1]]
    else OfKey(fills[..|fills| - 1], key)
  }

  lemma OfKeyAppend(fills: seq<Fill>, f: Fill, key: string)
    ensures OfKey(fills + [f], key) == if f.key == key then OfKey(fills, key) + [f] else OfKey(fills, key)
  {
    assert (fills + [f])[..|fills|] == fills;
  }

  lemma AfterAppend(fills: seq<Fill>, f: Fill)
    ensures After(fills + [f]) == Fold(After(fills), f.delta, f.price)
  {
    assert (fills + [f])[..|fills|] == fills;
  }

  /** One pass over all fills keeps every instrument's own fold, and only open positions are listed. */
  method ListPositions(fills: seq<Fill>) returns (open: map<string, Position>)
    ensures forall key :: key in open <==> After(OfKey(fills, key)).net != 0
    ensures forall key :: key in open ==> open[key] == After(OfKey(fills, key))
  {
    var positions: map<string, Position> := map[];
    for i := 0 to |fills|
      invariant Holds(positions, fills[..i])
    {
      var f := fills[i];
      assert fills[..i + 1] == fills[..i] + [f];
      HoldsStep(positions, fills[..i], f);
      positions := positions[f.key := Fold(PositionOf(positions, f.key), f.delta, f.price)];
    }
    assert fills[..|fills|] == fills;
    open := map key | key in positions && positions[key].net != 0 :: positions[key];
    forall key ensures key in open <==> After(OfKey(fills, key)).net != 0 {
      assert PositionOf(positions, key) == After(OfKey(fills, key));
    }
  }

  function PositionOf(positions: map<string, Position>, key: string): Position {
    if key in positions then positions[key] else FLAT
  }

  /** The map has every instrument's own fold; an instrument without fills is flat. */
  ghost predicate Holds(positions: map<string, Position>, fills: seq<Fill>) {
    forall key :: PositionOf(positions, key) == After(OfKey(fills, key))
  }

  lemma HoldsStep(positions: map<string, Position>, fills: seq<Fill>, f: Fill)
    requires Holds(positions, fills)
    ensures Holds(positions[f.key := Fold(PositionOf(positions, f.key), f.delta, f.price)], fills + [f])
  {
    var next := positions[f.key := Fold(PositionOf(positions, f.key), f.delta, f.price)];
    forall key ensures PositionOf(next, key) == After(OfKey(fills + [f], key)) {
      OfKeyAppend(fills, f, key);
      assert PositionOf(positions, key) == After(OfKey(fills, key));
      if key == f.key { AfterAppend(OfKey(fills, key), f); }
    }
  }

  // ---------------------------------------------------------------- what the numbers mean

  function Total(fills: seq<Fill>): int {
    if fills == [] then 0 else Total(fills[..|fills| - 1]) + fills[|fills| - 1].delta
  }

  /** The net quantity is the signed sum of the fills, priced or not, and a flat position carries no cost. */
  lemma {:induction false} NetIsSignedSum(fills: seq<Fill>)
    ensures After(fills).net == Total(fills)
    ensures After(fills).net == 0 ==> After(fills).average == 0.0
  {
    if fills != [] {
      var before, f := fills[..|fills| - 1], fills[|fills| - 1];
      NetIsSignedSum(before);
      var p := After(before);
      if p.net == 0 && f.delta == 0 { assert Blend(0, p.average, 0, 1.0) == 0.0; }
    }
  }

  /** What a position cost, and what a fill moved; an unpriced fill moves nothing known. */
  function Cost(p: Position): real { Abs(p.net) as real * p.average }

  function FillCost(f: Fill): real { if f.price.Some? then Abs(f.delta) as real * f.price.value else 0.0 }

  /** Money moved by the fills, whatever their side. */
  function Turnover(fills: seq<Fill>): real {
    if fills == [] then 0.0 else Turnover(fills[..|fills| - 1]) + FillCost(fills[|fills| - 1])
  }

  /** All fills are priced and on one side. */
  ghost predicate OneSided(fills: seq<Fill>, sign: int) {
    forall i :: 0 <= i < |fills| ==> fills[i].price.Some? && Sign(fills[i].delta) == sign
  }

  lemma Quotient(a: real, n: real)
    requires n > 0.0
    ensures n * (a / n) == a
  {}

  lemma BlendCost(held: nat, average: real, added: nat, price: real)
    requires held + added > 0
    ensures (held + added) as real * Blend(held, average, added, price) ==
            held as real * average + added as real * price
  {
    Quotient(held as real * average + added as real * price, (held + added) as real);
  }

  lemma SameSideAdds(net: int, delta: int)
    requires net == 0 || Sign(net) == Sign(delta)
    ensures Abs(net + delta) == Abs(net) + Abs(delta) && (delta != 0 ==> Sign(net + delta) == Sign(delta))
  {}

  /** A priced fill on the same side adds its own cost. */
  lemma CostStep(p: Position, f: Fill)
    requires f.price.Some? && f.delta != 0 && Adds(p.net, f.delta)
    ensures Cost(Fold(p, f.delta, f.price)) == Cost(p) + FillCost(f)
    ensures Sign(Fold(p, f.delta, f.price).net) == Sign(f.delta)
  {
    SameSideAdds(p.net, f.delta);
    BlendCost(Abs(p.net), p.average, Abs(f.delta), f.price.value);
  }

  /** A position built on one side costs exactly what its fills moved. */
  lemma {:induction false} CostIsTurnover(fills: seq<Fill>, sign: int)
    requires sign != 0 && OneSided(fills, sign)
    ensures fills != [] ==> Sign(After(fills).net) == sign
    ensures Cost(After(fills)) == Turnover(fills)
  {
    if fills == [] {
      assert Cost(FLAT) == 0.0;
    } else {
      var before, f := fills[..|fills| - 1], fills[|fills| - 1];
      CostIsTurnover(before, sign);
      assert Sign(f.delta) == sign;
      CostStep(After(before), f);
    }
  }

  /** Closing part of a position leaves the cost of the rest; closing it all leaves nothing; crossing re-opens. */
  lemma ClosingMeans(fills: seq<Fill>, f: Fill)
    requires Sign(After(fills).net) * Sign(f.delta) == -1
    ensures var p, q := After(fills), After(fills + [f]);
            && q.net == p.net + f.delta
            && (Abs(f.delta) < Abs(p.net) ==> q.average == p.average)
            && (Abs(f.delta) == Abs(p.net) ==> q == Position(0, 0.0))
            && (Abs(f.delta) > Abs(p.net) && f.price.Some? ==> q.average == f.price.value)
            && (Abs(f.delta) > Abs(p.net) && f.price.None? ==> q.average == p.average)
  {
    AfterAppend(fills, f);
  }

  /** The fill starts a direction: from flat, or by crossing through it. */
  predicate Opens(net: int, delta: int) { net == 0 || (!Adds(net, delta) && Abs(delta) > Abs(net)) }

  /** Prices that built the current direction since it was last opened. */
  function Openers(fills: seq<Fill>): seq<real> {
    if fills == [] then []
    else
      var before, f := fills[..|fills| - 1], fills[|fills| - 1];
      var net := After(before).net;
      var own := if f.price.Some? then [f.price.value] else [];
      if Opens(net, f.delta) then own
      else if Adds(net, f.delta) then Openers(before) + own
      else if Abs(f.delta) < Abs(net) then Openers(before)
      else []
  }

  /** The fill that opened the current direction had a price. */
  predicate OpenedPriced(fills: seq<Fill>) {
    if fills == [] then true
    else
      var before, f := fills[..|fills| - 1], fills[|fills| - 1];
      if Opens(After(before).net, f.delta) then f.price.Some? else OpenedPriced(before)
  }

  /** The cost an unpriced opening fill starts its direction with: what the position carried before it. */
  function CarriedBasis(fills: seq<Fill>): seq<real> {
    if fills == [] then []
    else
      var before, f := fills[..|fills| - 1], fills[|fills| - 1];
      if Opens(After(before).net, f.delta)
      then (if f.price.Some? then [] else [After(before).average])
      else CarriedBasis(before)
  }

  ghost predicate Between(x: real, ps: seq<real>) {
    exists i, j :: 0 <= i < |ps| && 0 <= j < |ps| && ps[i] <= x <= ps[j]
  }

  lemma BlendBetween(held: nat, a: real, added: nat, b: real)
    requires held + added > 0
    ensures a <= b ==> a <= Blend(held, a, added, b) <= b
    ensures b <= a ==> b <= Blend(held, a, added, b) <= a
  {
    var h, d := held as real, added as real;
    var n := h + d;
    assert n > 0.0 && n == (held + added) as real;
    var x := (h * a + d * b) / n;
    assert x == Blend(held, a, added, b);
    assert x * n == h * a + d * b;
    WeightedGaps(h, d, a, b);
    assert x * n - a * n == d * (b - a);
    assert b * n - x * n == h * (b - a);
    Ordered(x, a, n, d, b - a);
    Ordered(b, x, n, h, b - a);
  }

  lemma WeightedGaps(h: real, d: real, a: real, b: real)
    ensures (h * a + d * b) - a * (h + d) == d * (b - a)
    ensures b * (h + d) - (h * a + d * b) == h * (b - a)
  {}

  lemma Above(x: real, y: real, n: real)
    requires n > 0.0 && (x - y) * n > 0.0
    ensures x > y
  {}

  lemma Ordered(x: real, y: real, n: real, w: real, gap: real)
    requires n > 0.0 && w >= 0.0 && x * n - y * n == w * gap
    ensures gap >= 0.0 ==> x >= y
    ensures gap <= 0.0 ==> x <= y
  {
    assert (x - y) * n == w * gap;
    if gap >= 0.0 { assert w * gap >= 0.0; }
    if gap <= 0.0 { assert w * gap <= 0.0; }
    if x < y { assert (x - y) * n < 0.0; }
    if x > y { assert (x - y) * n > 0.0; }
  }

  lemma BlendStaysBetween(held: nat, average: real, added: nat, price: real, ps: seq<real>)
    requires held + added > 0 && Between(average, ps)
    ensures Between(Blend(held, average, added, price), ps + [price])
  {
    BlendBetween(held, average, added, price);
    var i, j :| 0 <= i < |ps| && 0 <= j < |ps| && ps[i] <= average <= ps[j];
    var all := ps + [price];
    assert all[i] == ps[i] && all[j] == ps[j] && all[|ps|] == price;
    var x := Blend(held, average, added, price);
    if average <= price {
      assert all[i] <= x <= all[|ps|];
    } else {
      assert all[|ps|] <= x <= all[j];
    }
  }

  lemma {:induction false} PricedOpeningCarriesNothing(fills: seq<Fill>)
    ensures OpenedPriced(fills) <==> CarriedBasis(fills) == []
  {
    if fills != [] { PricedOpeningCarriesNothing(fills[..|fills| - 1]); }
  }

  /**
   For every sequence of fills, an open position's average lies between the lowest and the highest of the
   prices that built its current direction and the cost, if any, its unpriced opening fill carried over.
   */
  lemma {:induction false} AverageWithinRange(fills: seq<Fill>)
    ensures After(fills).net != 0 ==> Between(After(fills).average, CarriedBasis(fills) + Openers(fills))
  {
    if fills != [] {
      var before, f := fills[..|fills| - 1], fills[|fills| - 1];
      AverageWithinRange(before);
      var p := After(before);
      if Opens(p.net, f.delta) {
        if After(fills).net != 0 { OpeningWithinRange(p, f, CarriedBasis(fills) + Openers(fills)); }
      } else if Adds(p.net, f.delta) && f.price.Some? {
        var range := CarriedBasis(before) + Openers(before);
        BlendStaysBetween(Abs(p.net), p.average, Abs(f.delta), f.price.value, range);
        assert range + [f.price.value] == CarriedBasis(fills) + Openers(fills);
      } else if After(fills).net != 0 {
        assert Openers(fills) == Openers(before);
      }
    }
  }

  lemma OpeningWithinRange(p: Position, f: Fill, range: seq<real>)
    requires Opens(p.net, f.delta) && p.net + f.delta != 0
    requires range == [if f.price.Some? then f.price.value else p.average]
    ensures Between(Fold(p, f.delta, f.price).average, range)
  {
    if p.net == 0 && f.price.Some? { OpeningAverage(p.average, Abs(f.delta), f.price.value); }
    assert Fold(p, f.delta, f.price).average == range[0];
  }

  /** With a priced opening fill the prices alone bound the average. */
  lemma AverageBetweenOpeners(fills: seq<Fill>)
    requires OpenedPriced(fills)
    ensures After(fills).net != 0 ==> Between(After(fills).average, Openers(fills))
  {
    AverageWithinRange(fills);
    PricedOpeningCarriesNothing(fills);
    assert CarriedBasis(fills) + Openers(fills) == Openers(fills);
  }

  lemma OpeningAverage(average: real, added: nat, price: real)
    requires added > 0
    ensures Blend(0, average, added, price) == price
  {
    var d := added as real;
    assert d > 0.0 && 0 as real * average + d * price == d * price;
    assert (d * price) / d == price;
  }

  /**
   Without a price on the opening fill the code does count it as free: every later priced addition is
   averaged down, for all quantities and every positive price.
   */
  lemma UnpricedOpeningUnderstates(key: string, unpriced: nat, added: nat, price: real)
    requires unpriced > 0 && added > 0 && price > 0.0
    ensures var fills := [Fill(key, unpriced, None), Fill(key, added, Some(price))];
            && After(fills).net == unpriced + added
            && After(fills).average * (unpriced + added) as real == added as real * price
            && After(fills).average < price && !Between(After(fills).average, Openers(fills))
  {
    var first, second := Fill(key, unpriced, None), Fill(key, added, Some(price));
    var fills := [first, second];
    assert fills[..1] == [first] && [first][..0] == [];
    assert After([first]) == Position(unpriced, 0.0);
    assert After(fills) == Fold(Position(unpriced, 0.0), added, Some(price));
    var n := (unpriced + added) as real;
    var x := Blend(unpriced, 0.0, added, price);
    assert x * n == added as real * price;
    assert n * price == unpriced as real * price + added as real * price;
    assert (price - x) * n == unpriced as real * price > 0.0;
    Above(price, x, n);
    assert Openers([first]) == [];
    assert Openers(fills) == [price];
  }

  /** An unpriced fill that crosses through flat leaves the new direction at the old one's cost. */
  lemma UnpricedFlipKeepsOldCost(key: string, bought: int, sold: int, price: real)
    requires 0 < bought < sold
    ensures var fills := [Fill(key, bought, Some(price)), Fill(key, -sold, None)];
            After(fills) == Position(bought - sold, price) && Openers(fills) == [] && CarriedBasis(fills) == [price]
  {
    var first, second := Fill(key, bought, Some(price)), Fill(key, -sold, None);
    var fills := [first, second];
    assert fills[..1] == [first] && [first][..0] == [];
    OpeningAverage(0.0, bought, price);
    assert After([first]) == Fold(FLAT, bought, Some(price)) == Position(bought, price);
    assert After(fills) == Fold(Position(bought, price), -sold, None);
  }
}
