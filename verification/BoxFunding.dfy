/**
 Whether an account may enter a four-leg box: the rupees its bounded orders can transact, what each
 stage of the hedge-first sequence must fund, and the gate that compares that with fresh broker
 evidence. Amounts are integer paise; an amount that could not be obtained is absent, never zero.
 */
module BoxFunding {
  import opened Common
  import opened EntryOrder

  /** One bounded LIMIT request. A limit price that is not finite is absent. */
  datatype Request = Request(role: Role, side: Side, quantity: int, limit: Option<real>)

  function ToPaise(rupees: real): int { (rupees * 100.0 + 0.5).Floor }

  predicate Priced(r: Request) { r.quantity > 0 && r.limit.Some? && r.limit.value > 0.0 }

  function LegPaise(r: Request): nat
    requires Priced(r)
  {
    assert ToPaise(r.limit.value) >= 0;
    ToPaise(r.limit.value) * r.quantity
  }

  predicate AllPriced(rs: seq<Request>) { forall i :: 0 <= i < |rs| ==> Priced(rs[i]) }

  // ---------------------------------------------------------------- gross notional and worst-case cost

  /** Paise of the priced requests of one side. */
  function SidePaise(rs: seq<Request>, side: Side): nat {
    if rs == [] then 0
    else
      var last := rs[|rs| - 1];
      SidePaise(rs[..|rs| - 1], side) + (if last.side == side && Priced(last) then LegPaise(last) else 0)
  }

  datatype Metrics = Metrics(grossPaise: int, legCount: int, complete: bool)

  function PricedCount(rs: seq<Request>): nat {
    if rs == [] then 0 else PricedCount(rs[..|rs| - 1]) + (if Priced(rs[|rs| - 1]) then 1 else 0)
  }

  /** Gross, never netted: BUY and SELL legs add up, and a missing or unpriced leg makes it incomplete. */
  function MetricsOf(rs: seq<Request>, expectedLegs: int): Metrics {
    Metrics(SidePaise(rs, Buy) + SidePaise(rs, Sell), PricedCount(rs), AllPriced(rs) && |rs| == expectedLegs)
  }

  method GrossEntryNotional(rs: seq<Request>, expectedLegs: int) returns (m: Metrics)
    ensures m == MetricsOf(rs, expectedLegs)
  {
    var total, legs, problems := 0, 0, 0;
    for i := 0 to |rs|
      invariant total == SidePaise(rs[..i], Buy) + SidePaise(rs[..i], Sell)
      invariant legs == PricedCount(rs[..i]) && 0 <= problems && legs + problems == i
      invariant problems == 0 <==> AllPriced(rs[..i])
    {
      assert rs[..i + 1][..i] == rs[..i] && rs[..i + 1][i] == rs[i];
      if rs[i].quantity <= 0 || rs[i].limit.None? || rs[i].limit.value <= 0.0 {
        assert !AllPriced(rs[..i + 1]);
        problems := problems + 1;
      } else {
        total := total + LegPaise(rs[i]);
        legs := legs + 1;
      }
    }
    assert rs[..|rs|] == rs;
    if legs != expectedLegs { problems := problems + 1; }
    m := Metrics(total, legs, problems == 0);
  }

  datatype EntryCost = EntryCost(grossPaise: int, netDebitPaise: int, complete: bool)

  method WorstCaseEntryCost(rs: seq<Request>) returns (c: EntryCost)
    ensures c.grossPaise == SidePaise(rs, Buy) + SidePaise(rs, Sell)
    ensures c.netDebitPaise == SidePaise(rs, Buy) - SidePaise(rs, Sell)
    ensures -c.grossPaise <= c.netDebitPaise <= c.grossPaise
    ensures c.complete <==> AllPriced(rs) && |rs| == 4
  {
    var gross, priced, problems := 0, 0, 0;
    var net: int := 0;
    for i := 0 to |rs|
      invariant gross == SidePaise(rs[..i], Buy) + SidePaise(rs[..i], Sell)
      invariant net == SidePaise(rs[..i], Buy) - SidePaise(rs[..i], Sell)
      invariant 0 <= problems && priced + problems == i
      invariant problems == 0 <==> AllPriced(rs[..i])
    {
      assert rs[..i + 1][..i] == rs[..i] && rs[..i + 1][i] == rs[i];
      if rs[i].quantity <= 0 || rs[i].limit.None? || rs[i].limit.value <= 0.0 {
        assert !AllPriced(rs[..i + 1]);
        problems := problems + 1;
      } else {
        var leg := LegPaise(rs[i]);
        gross := gross + leg;
        net := if rs[i].side == Buy then net + leg else net - leg;
        priced := priced + 1;
      }
    }
    assert rs[..|rs|] == rs;
    if priced != 4 { problems := problems + 1; }
    c := EntryCost(gross, net, problems == 0);
  }

  /** The per-box rupee cap on its own. */
  predicate CapitalAllowed(m: Metrics, limit: Option<real>) {
    if limit.None? || limit.value <= 0.0 then true
    else m.complete && m.grossPaise <= ToPaise(limit.value)
  }

  // ---------------------------------------------------------------- the amounts in rupees

  /** Rupees one priced request can transact. */
  function LegRupees(r: Request): real { if Priced(r) then r.limit.value * r.quantity as real else 0.0 }

  function SideRupees(rs: seq<Request>, side: Side): real {
    if rs == [] then 0.0
    else SideRupees(rs[..|rs| - 1], side) + (if rs[|rs| - 1].side == side then LegRupees(rs[|rs| - 1]) else 0.0)
  }

  /** Contracts of the priced requests of one side. */
  function Units(rs: seq<Request>, side: Side): nat {
    if rs == [] then 0
    else
      var last := rs[|rs| - 1];
      Units(rs[..|rs| - 1], side) + (if last.side == side && Priced(last) then last.quantity else 0)
  }

  predicate WholePaise(rupees: real) { rupees * 100.0 == (rupees * 100.0).Floor as real }

  predicate WholeLimits(rs: seq<Request>) {
    forall i :: 0 <= i < |rs| && rs[i].limit.Some? ==> WholePaise(rs[i].limit.value)
  }

  lemma HalfUp(x: real)
    ensures var n := (x + 0.5).Floor; n as real - 0.5 <= x < n as real + 0.5
  {}

  lemma HalfUpOfWhole(n: int)
    ensures (n as real + 0.5).Floor == n
  {}

  /** The nearest whole paise, half up. */
  lemma ToPaiseIsNearest(rupees: real)
    ensures ToPaise(rupees) as real - 0.5 <= rupees * 100.0 < ToPaise(rupees) as real + 0.5
    ensures WholePaise(rupees) ==> ToPaise(rupees) as real == rupees * 100.0
  {
    var x := rupees * 100.0;
    HalfUp(x);
    HalfUpOfWhole(x.Floor);
  }

  lemma LegPaiseMeans(r: Request)
    requires Priced(r)
    ensures LegPaise(r) as real - 100.0 * LegRupees(r) <= 0.5 * r.quantity as real
    ensures LegPaise(r) as real - 100.0 * LegRupees(r) >= -0.5 * r.quantity as real
  {
    ToPaiseIsNearest(r.limit.value);
    LegGap(ToPaise(r.limit.value), r.quantity, r.limit.value);
  }

  lemma WholeLegPaise(r: Request)
    requires Priced(r) && WholePaise(r.limit.value)
    ensures LegPaise(r) as real == 100.0 * LegRupees(r)
  {
    ToPaiseIsNearest(r.limit.value);
    WholeLeg(ToPaise(r.limit.value), r.quantity, r.limit.value);
  }

  lemma LegGap(paise: int, quantity: int, limit: real)
    requires quantity > 0 && -0.5 <= paise as real - limit * 100.0 <= 0.5
    ensures (paise * quantity) as real - 100.0 * (limit * quantity as real) <= 0.5 * quantity as real
    ensures (paise * quantity) as real - 100.0 * (limit * quantity as real) >= -0.5 * quantity as real
  {
    ProductAsReal(paise, quantity);
    GapIdentity(paise as real, limit, quantity as real);
    ScaledGap(paise as real - limit * 100.0, quantity as real);
  }

  lemma WholeLeg(paise: int, quantity: int, limit: real)
    requires paise as real == limit * 100.0
    ensures (paise * quantity) as real == 100.0 * (limit * quantity as real)
  {
    ProductAsReal(paise, quantity);
    GapIdentity(paise as real, limit, quantity as real);
  }

  lemma ProductAsReal(a: int, b: int)
    ensures (a * b) as real == a as real * b as real
  {}

  lemma GapIdentity(p: real, limit: real, q: real)
    ensures p * q - 100.0 * (limit * q) == (p - limit * 100.0) * q
  {}

  lemma ScaledGap(gap: real, q: real)
    requires -0.5 <= gap <= 0.5 && q >= 0.0
    ensures -0.5 * q <= gap * q <= 0.5 * q
  {
    assert (gap + 0.5) * q >= 0.0 && (0.5 - gap) * q >= 0.0;
  }

  /**
   What a side's paise mean: price times quantity over its legs, to within half a paisa per contract, and
   exactly when every limit is a whole number of paise.
   */
  lemma {:induction false} SidePaiseMeans(rs: seq<Request>, side: Side)
    ensures var gap := SidePaise(rs, side) as real - 100.0 * SideRupees(rs, side);
            && -0.5 * Units(rs, side) as real <= gap <= 0.5 * Units(rs, side) as real
            && (WholeLimits(rs) ==> gap == 0.0)
  {
    if rs != [] {
      SidePaiseMeans(rs[..|rs| - 1], side);
      if Priced(rs[|rs| - 1]) {
        LegPaiseMeans(rs[|rs| - 1]);
        if WholeLimits(rs) { WholeLegPaise(rs[|rs| - 1]); }
      }
    }
  }

  function GrossRupees(rs: seq<Request>): real { SideRupees(rs, Buy) + SideRupees(rs, Sell) }

  /** The gross is never netted: both sides' rupees, exactly for limits in whole paise. */
  lemma GrossMeans(rs: seq<Request>, expectedLegs: int)
    requires WholeLimits(rs)
    ensures MetricsOf(rs, expectedLegs).grossPaise as real == 100.0 * GrossRupees(rs)
  {
    SidePaiseMeans(rs, Buy);
    SidePaiseMeans(rs, Sell);
  }

  /** A cap admits exactly the complete boxes whose gross is within it, the cap itself rounded half up. */
  lemma CapAdmitsIff(rs: seq<Request>, cap: real)
    requires WholeLimits(rs) && cap > 0.0
    ensures CapitalAllowed(MetricsOf(rs, 4), Some(cap)) <==>
            AllPriced(rs) && |rs| == 4 && 100.0 * GrossRupees(rs) <= 100.0 * cap + 0.5
    ensures WholePaise(cap) ==>
              (CapitalAllowed(MetricsOf(rs, 4), Some(cap)) <==> AllPriced(rs) && |rs| == 4 && GrossRupees(rs) <= cap)
  {
    GrossMeans(rs, 4);
    ToPaiseIsNearest(cap);
  }

  /** No cap, or one that is not positive, admits everything. */
  lemma NoCapAdmitsAll(m: Metrics, cap: Option<real>)
    requires cap.None? || cap.value <= 0.0
    ensures CapitalAllowed(m, cap)
  {}

  lemma {:induction false} SidePaiseConcat(a: seq<Request>, b: seq<Request>, side: Side)
    ensures SidePaise(a + b, side) == SidePaise(a, side) + SidePaise(b, side)
  {
    if b == [] {
      assert a + b == a;
    } else {
      SidePaiseConcat(a, b[..|b| - 1], side);
      assert (a + b)[..|a + b| - 1] == a + b[..|b| - 1];
    }
  }

  lemma SidePaiseOne(r: Request, side: Side)
    ensures SidePaise([r], side) == if r.side == side && Priced(r) then LegPaise(r) else 0
  {
    assert [r][..0] == [];
    assert SidePaise([r][..0], side) == 0;
  }

  /** Splitting a request into two at the same price changes neither side's paise. */
  lemma SplitChangesNothing(rs: seq<Request>, r: Request, a: nat, b: nat, side: Side)
    requires a > 0 && b > 0
    ensures SidePaise(rs + [r.(quantity := a), r.(quantity := b)], side) ==
            SidePaise(rs + [r.(quantity := a + b)], side)
  {
    var first, second, whole := r.(quantity := a), r.(quantity := b), r.(quantity := a + b);
    assert rs + [first, second] == (rs + [first]) + [second];
    SidePaiseConcat(rs + [first], [second], side);
    SidePaiseConcat(rs, [first], side);
    SidePaiseConcat(rs, [whole], side);
    SidePaiseOne(first, side);
    SidePaiseOne(second, side);
    SidePaiseOne(whole, side);
    if Priced(whole) { assert LegPaise(whole) == LegPaise(first) + LegPaise(second); }
  }

  // ---------------------------------------------------------------- the stages of the real sequence

  /** The request a role resolves to: the last one given for it. */
  function ByRole(rs: seq<Request>, role: Role): Option<Request> {
    if rs == [] then None
    else if rs[|rs| - 1].role == role then Some(rs[|rs| - 1])
    else ByRole(rs[..|rs| - 1], role)
  }

  lemma {:induction false} ByRoleMissing(rs: seq<Request>, role: Role)
    ensures ByRole(rs, role).None? <==> forall i :: 0 <= i < |rs| ==> rs[i].role != role
  {
    if rs != [] && rs[|rs| - 1].role != role {
      ByRoleMissing(rs[..|rs| - 1], role);
      assert forall i :: 0 <= i < |rs| - 1 ==> rs[..|rs| - 1][i] == rs[i];
    }
  }

  lemma {:induction false} ByRoleIsLast(rs: seq<Request>, role: Role) returns (i: nat)
    requires ByRole(rs, role).Some?
    ensures i < |rs| && ByRole(rs, role) == Some(rs[i]) && rs[i].role == role
    ensures forall j :: i < j < |rs| ==> rs[j].role != role
  {
    if rs[|rs| - 1].role == role { return |rs| - 1; }
    i := ByRoleIsLast(rs[..|rs| - 1], role);
    assert forall j :: 0 <= j < |rs| - 1 ==> rs[..|rs| - 1][j] == rs[j];
  }

  predicate SlotPriced(rs: seq<Request>, slot: Slot) {
    ByRole(rs, slot.role).Some? && Priced(ByRole(rs, slot.role).value)
  }

  function SlotPaise(rs: seq<Request>, slot: Slot): nat {
    if SlotPriced(rs, slot) then LegPaise(ByRole(rs, slot.role).value) else 0
  }

  /** Premium of the sent legs of one side. */
  function SentPaise(rs: seq<Request>, sent: seq<Slot>, side: Side): nat {
    if sent == [] then 0
    else
      var last := sent[|sent| - 1];
      SentPaise(rs, sent[..|sent| - 1], side) + (if last.side == side then SlotPaise(rs, last) else 0)
  }

  function InsertByRank(slot: Slot, slots: seq<Slot>): seq<Slot> {
    if slots == [] || slots[|slots| - 1].rank <= slot.rank then slots + [slot]
    else InsertByRank(slot, slots[..|slots| - 1]) + [slots[|slots| - 1]]
  }

  /** A stable sort by transport rank. */
  function SortByRank(slots: seq<Slot>): seq<Slot> {
    if slots == [] then [] else InsertByRank(slots[|slots| - 1], SortByRank(slots[..|slots| - 1]))
  }

  ghost predicate RankOrdered(slots: seq<Slot>) {
    forall i, j :: 0 <= i < j < |slots| ==> slots[i].rank <= slots[j].rank
  }

  /** The slots of one rank, in order. */
  function OfRank(slots: seq<Slot>, rank: int): seq<Slot> {
    if slots == [] then []
    else if slots[|slots| - 1].rank == rank then OfRank(slots[..|slots| - 1], rank) + [slots[|slots| - 1]]
    else OfRank(slots[..|slots| - 1], rank)
  }

  lemma OfRankAppend(slots: seq<Slot>, slot: Slot, rank: int)
    ensures OfRank(slots + [slot], rank) ==
            if slot.rank == rank then OfRank(slots, rank) + [slot] else OfRank(slots, rank)
  {
    assert (slots + [slot])[..|slots|] == slots;
  }

  lemma {:induction false} NoneOfRank(slots: seq<Slot>, rank: int)
    requires forall i :: 0 <= i < |slots| ==> slots[i].rank != rank
    ensures OfRank(slots, rank) == []
  {
    if slots != [] { NoneOfRank(slots[..|slots| - 1], rank); }
  }

  lemma {:induction false} InsertByRankMeans(slot: Slot, slots: seq<Slot>, rank: int)
    requires RankOrdered(slots)
    ensures RankOrdered(InsertByRank(slot, slots)) && |InsertByRank(slot, slots)| == |slots| + 1
    ensures forall i :: 0 <= i < |slots| + 1 ==>
              InsertByRank(slot, slots)[i] == slot || InsertByRank(slot, slots)[i] in slots
    ensures OfRank(InsertByRank(slot, slots), rank) ==
            if slot.rank == rank then OfRank(slots, rank) + [slot] else OfRank(slots, rank)
  {
    if slots == [] || slots[|slots| - 1].rank <= slot.rank {
      OfRankAppend(slots, slot, rank);
    } else {
      var before, last := slots[..|slots| - 1], slots[|slots| - 1];
      InsertByRankMeans(slot, before, rank);
      OfRankAppend(InsertByRank(slot, before), last, rank);
    }
  }

  /** The sort is one: ordered by rank, and within each rank exactly the slots given, in the order given. */
  lemma {:induction false} SortByRankMeans(slots: seq<Slot>, rank: int)
    ensures RankOrdered(SortByRank(slots)) && |SortByRank(slots)| == |slots|
    ensures OfRank(SortByRank(slots), rank) == OfRank(slots, rank)
  {
    if slots != [] {
      SortByRankMeans(slots[..|slots| - 1], rank);
      InsertByRankMeans(slots[|slots| - 1], SortByRank(slots[..|slots| - 1]), rank);
    }
  }

  lemma {:induction false} SortedStays(slots: seq<Slot>)
    requires forall i, j :: 0 <= i < j < |slots| ==> slots[i].rank <= slots[j].rank
    ensures SortByRank(slots) == slots
  {
    if slots != [] {
      SortedStays(slots[..|slots| - 1]);
      assert slots == slots[..|slots| - 1] + [slots[|slots| - 1]];
    }
  }

  datatype Basis = InitialBasket | FinalBasket | UnknownBasis

  datatype Stage = Stage(index: nat, role: Role, side: Side, debit: Option<int>, credit: Option<int>,
                         basis: Basis, requirement: Option<int>)

  datatype Margins = Margins(initial: Option<int>, final: Option<int>)

  /** While legging the initial figure applies; only the last stage may use the completed basket's. */
  function MarginAt(margins: Margins, i: nat, n: nat): Option<int> {
    if i + 1 == n then margins.final else margins.initial
  }

  function StageAt(rs: seq<Request>, ordered: seq<Slot>, margins: Margins, i: nat): Stage
    requires i < |ordered|
  {
    var slot := ordered[i];
    var debit := SentPaise(rs, ordered[..i + 1], Buy);
    var credit := SentPaise(rs, ordered[..i + 1], Sell);
    var margin := MarginAt(margins, i, |ordered|);
    var priced := SlotPriced(rs, slot);
    Stage(i, slot.role, slot.side,
          if priced then Some(debit) else None, if priced then Some(credit) else None,
          if margin.None? then UnknownBasis else if i + 1 == |ordered| then FinalBasket else InitialBasket,
          if priced && margin.Some? then Some(Max(margin.value, debit)) else None)
  }

  function Stages(rs: seq<Request>, ordered: seq<Slot>, margins: Margins): seq<Stage> {
    seq(|ordered|, i requires 0 <= i < |ordered| => StageAt(rs, ordered, margins, i))
  }

  datatype Unknown = Unpriced(role: Role) | NoMargin(role: Role, final: bool) | NotHedgeFirst

  predicate AllKnown(stages: seq<Stage>) { forall i :: 0 <= i < |stages| ==> stages[i].requirement.Some? }

  lemma AllKnownAppend(stages: seq<Stage>, stage: Stage)
    ensures AllKnown(stages + [stage]) <==> AllKnown(stages) && stage.requirement.Some?
  {
    var all := stages + [stage];
    assert all[|stages|] == stage && forall i :: 0 <= i < |stages| ==> all[i] == stages[i];
  }

  /** One leg's stage from the running totals, with the reason when its requirement is not known. */
  method NextStage(rs: seq<Request>, ordered: seq<Slot>, margins: Margins, i: nat, debit: nat, credit: nat)
    returns (stage: Stage, debit': nat, credit': nat, unknown: seq<Unknown>)
    requires i < |ordered|
    requires debit == SentPaise(rs, ordered[..i], Buy) && credit == SentPaise(rs, ordered[..i], Sell)
    ensures debit' == SentPaise(rs, ordered[..i + 1], Buy) && credit' == SentPaise(rs, ordered[..i + 1], Sell)
    ensures stage == StageAt(rs, ordered, margins, i)
    ensures unknown == [] <==> stage.requirement.Some?
  {
    var slot := ordered[i];
    assert ordered[..i + 1][..i] == ordered[..i];
    debit', credit', unknown := debit, credit, [];
    var request := ByRole(rs, slot.role);
    var priced := request.Some? && Priced(request.value);
    if priced {
      if slot.side == Buy {
        debit' := debit + LegPaise(request.value);
      } else {
        credit' := credit + LegPaise(request.value);
      }
    }
    var isFinal := i == |ordered| - 1;
    var margin := if isFinal then margins.final else margins.initial;
    var basis := if margin.None? then UnknownBasis else if isFinal then FinalBasket else InitialBasket;
    var requirement := None;
    if !priced {
      unknown := [Unpriced(slot.role)];
    } else if margin.None? {
      unknown := [NoMargin(slot.role, isFinal)];
    } else {
      requirement := Some(Max(margin.value, debit'));
    }
    stage := Stage(i, slot.role, slot.side, if priced then Some(debit') else None,
                   if priced then Some(credit') else None, basis, requirement);
  }

  /** Every stage in transmission order; `unknown` names whatever could not be established. */
  method BuildFundingStages(rs: seq<Request>, transport: seq<Slot>, margins: Margins)
    returns (stages: seq<Stage>, hedgeFirst: bool, unknown: seq<Unknown>)
    ensures stages == Stages(rs, SortByRank(transport), margins)
    ensures hedgeFirst <==> HedgeFirst(Sides(SortByRank(transport)))
    ensures unknown == [] <==> hedgeFirst && AllKnown(stages)
  {
    var ordered := SortByRank(transport);
    stages, unknown, hedgeFirst := [], [], true;
    var debit, credit, seenSell := 0, 0, false;
    for i := 0 to |ordered|
      invariant |stages| == i && forall j :: 0 <= j < i ==> stages[j] == StageAt(rs, ordered, margins, j)
      invariant debit == SentPaise(rs, ordered[..i], Buy) && credit == SentPaise(rs, ordered[..i], Sell)
      invariant seenSell <==> Sell in Sides(ordered[..i])
      invariant hedgeFirst <==> HedgeFirst(Sides(ordered[..i]))
      invariant unknown == [] <==> AllKnown(stages)
    {
      assert Sides(ordered[..i + 1]) == Sides(ordered[..i]) + [ordered[i].side];
      HedgeFirstAppend(Sides(ordered[..i]), ordered[i].side);
      if ordered[i].side == Sell {
        seenSell := true;
      } else if seenSell {
        hedgeFirst := false;
      }
      var stage, problems;
      stage, debit, credit, problems := NextStage(rs, ordered, margins, i, debit, credit);
      AllKnownAppend(stages, stage);
      stages := stages + [stage];
      unknown := unknown + problems;
    }
    assert ordered[..|ordered|] == ordered;
    if !hedgeFirst { unknown := unknown + [NotHedgeFirst]; }
  }

  lemma HedgeFirstAppend(sides: seq<Side>, side: Side)
    ensures HedgeFirst(sides + [side]) <==> HedgeFirst(sides) && (side == Sell || Sell !in sides)
  {
    var all := sides + [side];
    assert all[|sides|] == side && forall i :: 0 <= i < |sides| ==> all[i] == sides[i];
    if side == Buy && Sell in sides {
      var k :| 0 <= k < |sides| && sides[k] == Sell;
      assert all[k] == Sell && all[|sides|] == Buy;
    }
  }

  // ---------------------------------------------------------------- the worst stage

  /** The greatest known requirement. */
  function WorstStage(stages: seq<Stage>): Option<int> {
    if stages == [] then None
    else
      var rest := WorstStage(stages[..|stages| - 1]);
      var r := stages[|stages| - 1].requirement;
      if rest.None? then r else if r.None? then rest else Some(Max(rest.value, r.value))
  }

  ghost predicate PlanPriced(rs: seq<Request>, slots: seq<Slot>) {
    forall i :: 0 <= i < |slots| ==> SlotPriced(rs, slots[i])
  }

  lemma {:induction false} SentGrows(rs: seq<Request>, slots: seq<Slot>, i: nat, side: Side)
    requires i <= |slots|
    ensures SentPaise(rs, slots[..i], side) <= SentPaise(rs, slots, side)
  {
    if i == |slots| {
      assert slots[..i] == slots;
    } else {
      SentGrows(rs, slots[..|slots| - 1], i, side);
      assert slots[..|slots| - 1][..i] == slots[..i];
    }
  }

  /** The worst of the stages before the last one is the initial margin or the premium sent by then. */
  lemma {:induction false} WorstWhileLegging(rs: seq<Request>, slots: seq<Slot>, margins: Margins, k: nat)
    requires PlanPriced(rs, slots) && margins.initial.Some? && 0 < k < |slots|
    ensures WorstStage(Stages(rs, slots, margins)[..k]) ==
            Some(Max(margins.initial.value, SentPaise(rs, slots[..k], Buy)))
  {
    var stages := Stages(rs, slots, margins);
    assert stages[..k][..k - 1] == stages[..k - 1];
    assert stages[k - 1] == StageAt(rs, slots, margins, k - 1) && SlotPriced(rs, slots[k - 1]);
    if k == 1 {
      assert stages[..0] == [];
    } else {
      WorstWhileLegging(rs, slots, margins, k - 1);
      assert slots[..k][..k - 1] == slots[..k - 1];
      SentGrows(rs, slots[..k], k - 1, Buy);
    }
  }

  /** For a fully priced plan of several legs the worst stage is the greatest of the three figures. */
  lemma WorstStageIsMaximum(rs: seq<Request>, slots: seq<Slot>, margins: Margins)
    requires PlanPriced(rs, slots) && margins.initial.Some? && margins.final.Some? && |slots| >= 2
    ensures WorstStage(Stages(rs, slots, margins)) ==
            Some(Max(Max(margins.initial.value, margins.final.value), SentPaise(rs, slots, Buy)))
  {
    var n := |slots|;
    var stages := Stages(rs, slots, margins);
    WorstWhileLegging(rs, slots, margins, n - 1);
    assert stages[n - 1] == StageAt(rs, slots, margins, n - 1) && SlotPriced(rs, slots[n - 1]);
    assert slots[..n] == slots;
    SentGrows(rs, slots, n - 1, Buy);
  }

  // ---------------------------------------------------------------- the hedge premium, computed another way

  function RolesOn(slots: seq<Slot>, side: Side): set<Role> {
    set i | 0 <= i < |slots| && slots[i].side == side :: slots[i].role
  }

  function BuyRoles(slots: seq<Slot>): set<Role> { RolesOn(slots, Buy) }

  ghost predicate RolesDistinct(rs: seq<Request>) { forall i, j :: 0 <= i < j < |rs| ==> rs[i].role != rs[j].role }

  ghost predicate SlotsDistinct(slots: seq<Slot>) {
    forall i, j :: 0 <= i < j < |slots| ==> slots[i].role != slots[j].role
  }

  /** Paise of the requests whose role is in the set. */
  function PaiseOf(rs: seq<Request>, roles: set<Role>): nat {
    if rs == [] then 0
    else
      var last := rs[|rs| - 1];
      PaiseOf(rs[..|rs| - 1], roles) + (if last.role in roles && Priced(last) then LegPaise(last) else 0)
  }

  /**
   Premium of the BUY hedges, from the requests rather than the slots: present exactly when there are
   hedges, every request for one is priced, and as many requests match as there are hedges.
   */
  method HedgePremium(rs: seq<Request>, transport: seq<Slot>) returns (premium: Option<int>)
    ensures premium.Some? <==>
            var hedges := BuyRoles(transport);
            hedges != {} && HedgesPriced(rs, hedges) && Matches(rs, hedges) == |hedges|
    ensures premium.Some? ==> premium.value == PaiseOf(rs, BuyRoles(transport))
  {
    var hedges := BuyRoles(transport);
    if hedges == {} { return None; }
    var paise, seen := 0, 0;
    for i := 0 to |rs|
      invariant paise == PaiseOf(rs[..i], hedges)
      invariant seen == Matches(rs[..i], hedges)
      invariant forall j :: 0 <= j < i && rs[j].role in hedges ==> Priced(rs[j])
    {
      assert rs[..i + 1][..i] == rs[..i] && rs[..i + 1][i] == rs[i];
      if rs[i].role in hedges {
        if !Priced(rs[i]) { return None; }
        paise := paise + LegPaise(rs[i]);
        seen := seen + 1;
      }
    }
    assert rs[..|rs|] == rs;
    premium := if seen == |hedges| then Some(paise) else None;
  }

  predicate HedgesPriced(rs: seq<Request>, hedges: set<Role>) {
    forall i :: 0 <= i < |rs| && rs[i].role in hedges ==> Priced(rs[i])
  }

  /** For requests with distinct roles that means what it should: every hedge is requested and priced. */
  lemma HedgePremiumPresentIff(rs: seq<Request>, hedges: set<Role>)
    requires RolesDistinct(rs)
    ensures HedgesPriced(rs, hedges) && Matches(rs, hedges) == |hedges| <==>
            forall role :: role in hedges ==> ByRole(rs, role).Some? && Priced(ByRole(rs, role).value)
  {
    MatchesRequested(rs, hedges);
    if HedgesPriced(rs, hedges) && Matches(rs, hedges) == |hedges| {
      forall role | role in hedges ensures ByRole(rs, role).Some? && Priced(ByRole(rs, role).value) {
        var i :| 0 <= i < |rs| && rs[i].role == role;
        RoleIsFound(rs, i);
      }
    }
    if forall role :: role in hedges ==> ByRole(rs, role).Some? && Priced(ByRole(rs, role).value) {
      forall role | role in hedges ensures role in RolesOf(rs) { FoundIsRequested(rs, role); }
      forall i | 0 <= i < |rs| && rs[i].role in hedges ensures Priced(rs[i]) { RoleIsFound(rs, i); }
    }
  }

  /** In particular a fully priced plan always has a premium. */
  lemma PricedPlanHasPremium(rs: seq<Request>, slots: seq<Slot>)
    requires RolesDistinct(rs) && PlanPriced(rs, slots)
    ensures HedgesPriced(rs, BuyRoles(slots)) && Matches(rs, BuyRoles(slots)) == |BuyRoles(slots)|
  {
    forall role | role in BuyRoles(slots) ensures ByRole(rs, role).Some? && Priced(ByRole(rs, role).value) {
      var k :| 0 <= k < |slots| && slots[k].side == Buy && slots[k].role == role;
      assert SlotPriced(rs, slots[k]);
    }
    HedgePremiumPresentIff(rs, BuyRoles(slots));
  }

  lemma MatchesRequested(rs: seq<Request>, hedges: set<Role>)
    requires RolesDistinct(rs)
    ensures Matches(rs, hedges) == |hedges| <==> hedges <= RolesOf(rs)
  {
    var requested := hedges * RolesOf(rs);
    MatchesAll(rs, requested);
    SameMatchesOn(rs, hedges, requested);
    if requested != hedges { SmallerSet(requested, hedges); }
  }

  lemma SmallerSet(a: set<Role>, b: set<Role>)
    requires a < b
    ensures |a| < |b|
  {
    assert |b| == |a| + |b - a| by { assert b == a + (b - a); }
    assert b - a != {};
  }

  lemma {:induction false} SameMatchesOn(rs: seq<Request>, a: set<Role>, b: set<Role>)
    requires forall i :: 0 <= i < |rs| ==> (rs[i].role in a <==> rs[i].role in b)
    ensures Matches(rs, a) == Matches(rs, b)
  {
    if rs != [] { SameMatchesOn(rs[..|rs| - 1], a, b); }
  }

  /** A role requested twice can stand in for one that was never requested. */
  lemma RepeatedRoleHidesMissingHedge(r: Request, missing: Role)
    requires Priced(r) && r.role != missing
    ensures var hedges := {r.role, missing};
            HedgesPriced([r, r], hedges) && Matches([r, r], hedges) == |hedges| && ByRole([r, r], missing).None?
  {
    assert [r, r][..1] == [r] && [r][..0] == [];
    assert Matches([r], {r.role, missing}) == 1;
    assert ByRole([r], missing).None?;
  }

  function Matches(rs: seq<Request>, roles: set<Role>): nat {
    if rs == [] then 0
    else Matches(rs[..|rs| - 1], roles) + (if rs[|rs| - 1].role in roles then 1 else 0)
  }

  lemma {:induction false} RoleIsFound(rs: seq<Request>, i: nat)
    requires RolesDistinct(rs) && i < |rs|
    ensures ByRole(rs, rs[i].role) == Some(rs[i])
  {
    if i < |rs| - 1 { RoleIsFound(rs[..|rs| - 1], i); }
  }

  function RolesOf(rs: seq<Request>): set<Role> { set i | 0 <= i < |rs| :: rs[i].role }

  lemma {:induction false} FoundIsRequested(rs: seq<Request>, role: Role)
    requires ByRole(rs, role).Some?
    ensures role in RolesOf(rs)
  {
    if rs[|rs| - 1].role != role {
      FoundIsRequested(rs[..|rs| - 1], role);
      var i :| 0 <= i < |rs| - 1 && rs[..|rs| - 1][i].role == role;
      assert rs[i].role == role;
    }
  }

  /** Distinct requests that cover a set of roles match it as often as it has elements. */
  lemma {:induction false} MatchesAll(rs: seq<Request>, roles: set<Role>)
    requires RolesDistinct(rs) && roles <= RolesOf(rs)
    ensures Matches(rs, roles) == |roles|
  {
    if rs == [] {
      assert roles == {};
    } else {
      var before, last := rs[..|rs| - 1], rs[|rs| - 1];
      var rest := roles - {last.role};
      forall r | r in rest ensures r in RolesOf(before) {
        var i :| 0 <= i < |rs| && rs[i].role == r;
        assert before[i].role == r;
      }
      MatchesAll(before, rest);
      SameMatches(before, roles, rest, last.role);
      if last.role in roles { assert roles == rest + {last.role}; } else { assert roles == rest; }
    }
  }

  lemma {:induction false} SameMatches(rs: seq<Request>, a: set<Role>, b: set<Role>, extra: Role)
    requires a - {extra} == b - {extra} && forall i :: 0 <= i < |rs| ==> rs[i].role != extra
    ensures Matches(rs, a) == Matches(rs, b) && PaiseOf(rs, a) == PaiseOf(rs, b)
  {
    if rs != [] {
      var last := rs[|rs| - 1];
      SameMatches(rs[..|rs| - 1], a, b, extra);
      assert last.role in a <==> last.role in a - {extra};
      assert last.role in b <==> last.role in b - {extra};
    }
  }

  lemma {:induction false} PaiseOfInsert(rs: seq<Request>, roles: set<Role>, role: Role)
    requires RolesDistinct(rs) && role !in roles && ByRole(rs, role).Some? && Priced(ByRole(rs, role).value)
    ensures PaiseOf(rs, roles + {role}) == PaiseOf(rs, roles) + LegPaise(ByRole(rs, role).value)
  {
    var before, last := rs[..|rs| - 1], rs[|rs| - 1];
    if last.role == role {
      SameMatches(before, roles + {role}, roles, role);
    } else {
      PaiseOfInsert(before, roles, role);
    }
  }

  /** Summed over the slots in transmission order or over the requests by role, a side's premium is the same. */
  lemma {:induction false} PremiumTwoWays(rs: seq<Request>, slots: seq<Slot>, side: Side)
    requires RolesDistinct(rs) && SlotsDistinct(slots) && PlanPriced(rs, slots)
    ensures SentPaise(rs, slots, side) == PaiseOf(rs, RolesOn(slots, side))
  {
    if slots == [] {
      assert RolesOn(slots, side) == {};
      PaiseOfNothing(rs);
    } else {
      var before, last := slots[..|slots| - 1], slots[|slots| - 1];
      assert forall i :: 0 <= i < |before| ==> before[i] == slots[i];
      PremiumTwoWays(rs, before, side);
      assert SlotPriced(rs, last);
      if last.side == side {
        assert RolesOn(slots, side) == RolesOn(before, side) + {last.role};
        PaiseOfInsert(rs, RolesOn(before, side), last.role);
      } else {
        assert RolesOn(slots, side) == RolesOn(before, side);
      }
    }
  }

  /**
   What each stage of a priced plan needs: the greater of the BUY premium sent so far and the margin that
   then applies, the initial one while legging and the final one only when every leg is out.
   */
  lemma StageNeeds(rs: seq<Request>, slots: seq<Slot>, margins: Margins, i: nat)
    requires RolesDistinct(rs) && SlotsDistinct(slots) && PlanPriced(rs, slots) && i < |slots|
    ensures var stage := Stages(rs, slots, margins)[i];
            var premium := PaiseOf(rs, RolesOn(slots[..i + 1], Buy));
            && stage.index == i && stage.role == slots[i].role && stage.side == slots[i].side
            && (stage.basis == FinalBasket <==> i == |slots| - 1 && margins.final.Some?)
            && (stage.basis == InitialBasket <==> i < |slots| - 1 && margins.initial.Some?)
            && stage.debit == Some(premium) && stage.credit == Some(PaiseOf(rs, RolesOn(slots[..i + 1], Sell)))
            && (i < |slots| - 1 ==>
                  && (stage.requirement.Some? <==> margins.initial.Some?)
                  && (margins.initial.Some? ==> stage.requirement == Some(Max(margins.initial.value, premium))))
            && (i == |slots| - 1 ==>
                  && (stage.requirement.Some? <==> margins.final.Some?)
                  && (margins.final.Some? ==> stage.requirement == Some(Max(margins.final.value, premium))))
  {
    var sent := slots[..i + 1];
    assert forall j :: 0 <= j < |sent| ==> sent[j] == slots[j];
    PremiumTwoWays(rs, sent, Buy);
    PremiumTwoWays(rs, sent, Sell);
    assert SlotPriced(rs, slots[i]);
  }

  /** A leg nobody priced, or that is missing, has no known requirement whatever the margins. */
  lemma UnpricedStageIsUnknown(rs: seq<Request>, slots: seq<Slot>, margins: Margins, i: nat)
    requires i < |slots| && forall k :: 0 <= k < |rs| && rs[k].role == slots[i].role ==> !Priced(rs[k])
    ensures Stages(rs, slots, margins)[i].requirement.None?
  {
    if ByRole(rs, slots[i].role).Some? { var k := ByRoleIsLast(rs, slots[i].role); }
  }

  /** Over the requests a plan is for, the premium of a side's roles is what that side transacts. */
  lemma {:induction false} RolesAreSides(rs: seq<Request>, roles: set<Role>, side: Side)
    requires forall i :: 0 <= i < |rs| ==> (rs[i].role in roles <==> rs[i].side == side)
    ensures PaiseOf(rs, roles) == SidePaise(rs, side)
  {
    if rs != [] { RolesAreSides(rs[..|rs| - 1], roles, side); }
  }

  lemma {:induction false} PaiseOfNothing(rs: seq<Request>)
    ensures PaiseOf(rs, {}) == 0
  {
    if rs != [] { PaiseOfNothing(rs[..|rs| - 1]); }
  }

  /** A box sent in its own hedge-first order: the worst stage is the greatest of both margins and the hedge premium. */
  lemma BoxWorstStage(d: Direction, rs: seq<Request>, margins: Margins)
    requires RolesDistinct(rs) && PlanPriced(rs, EntrySlots(d)) && margins.initial.Some? && margins.final.Some?
    ensures SortByRank(EntrySlots(d)) == EntrySlots(d)
    ensures WorstStage(Stages(rs, EntrySlots(d), margins)) ==
            Some(Max(Max(margins.initial.value, margins.final.value), PaiseOf(rs, BuyRoles(EntrySlots(d)))))
  {
    EntryOrderIsHedgeFirst(d);
    SortedStays(EntrySlots(d));
    WorstStageIsMaximum(rs, EntrySlots(d), margins);
    PremiumTwoWays(rs, EntrySlots(d), Buy);
  }
}
