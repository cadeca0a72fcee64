/**
 The economic gate of an entry. Broker figures carry their provenance; a figure that is stale, invalid
 or missing proves nothing, and a gate that cannot prove refuses.
 */
module EconomicAdmission {
  import opened Common
  import opened EntryOrder
  import opened EvidenceTiming
  import opened BoxFunding

  datatype Provenance = BrokerConfirmed | Estimated | NotAvailable | TooOld | NotAttributable

  datatype Figure = Figure(value: Option<int>, provenance: Provenance, usable: bool)

  const UNKNOWN_FIGURE := Figure(None, NotAvailable, false)

  /** A remote figure, from a value and how its observation aged. */
  function BrokerFigure(value: Option<int>, aged: Aged): Figure {
    if value.None? then UNKNOWN_FIGURE
    else
      var provenance := match aged.status
        case Usable => BrokerConfirmed
        case Stale => TooOld
        case Invalid => NotAttributable
        case Unavailable => NotAvailable;
      Figure(value, provenance, provenance == BrokerConfirmed)
  }

  // ---------------------------------------------------------------- the funding picture

  /** What the stage model needs: the transport order, both basket margins, encumbrance and reserve. */
  datatype FundingInputs = FundingInputs(transport: seq<Slot>, margins: Margins,
                                         encumbrance: Option<int>, reserve: Option<int>)

  datatype Funding = Funding(stages: seq<Stage>, hedgeFirst: bool, allKnown: bool, worst: Figure,
                             charges: Option<int>, reserve: int, encumbrance: Option<int>, binding: Figure)

  function ReserveOf(reserve: Option<int>): nat { if reserve.Some? && reserve.value >= 0 then reserve.value else 0 }

  function FundingPicture(rs: seq<Request>, inputs: FundingInputs, marginAged: Aged, charges: Option<int>): Funding {
    var ordered := SortByRank(inputs.transport);
    var stages := Stages(rs, ordered, inputs.margins);
    var hedgeFirst := HedgeFirst(Sides(ordered));
    var allKnown := hedgeFirst && AllKnown(stages);
    var marginUsable := marginAged.status == Usable;
    var source := if marginUsable then BrokerConfirmed else TooOld;
    var worstValue := WorstStage(stages);
    var worst := if !allKnown || stages == [] || worstValue.None? then UNKNOWN_FIGURE
                 else Figure(worstValue, source, marginUsable);
    var reserve := ReserveOf(inputs.reserve);
    var binding :=
      if !worst.usable || worst.value.None? || charges.None? || inputs.encumbrance.None? then UNKNOWN_FIGURE
      else
        var total := worst.value.value + charges.value + reserve + inputs.encumbrance.value;
        Figure(Some(total), source, marginUsable);
    Funding(stages, hedgeFirst, allKnown, worst, charges, reserve, inputs.encumbrance, binding)
  }

  /** The observations a decision is made from, and the instant and identity it is made at. */
  datatype Evidence = Evidence(
    funds: Option<int>, fundsSeen: Observation, plannedMargin: Option<int>, marginSeen: Observation,
    evaluatedMono: int, maxAgeMs: int, graceMs: int, identity: Option<Identity>)

  function FundsAged(e: Evidence): Aged {
    AgeEvidence(e.fundsSeen, Some(e.evaluatedMono), e.maxAgeMs, e.graceMs, e.identity)
  }

  function MarginAged(e: Evidence): Aged {
    AgeEvidence(e.marginSeen, Some(e.evaluatedMono), e.maxAgeMs, e.graceMs, e.identity)
  }

  datatype Picture = Picture(availableFunds: Figure, plannedMargin: Figure, worstCaseEntry: Option<int>,
                             metrics: Metrics, funding: Option<Funding>)

  function EconomicPicture(rs: seq<Request>, e: Evidence, charges: Option<int>, inputs: Option<FundingInputs>): Picture
  {
    var metrics := MetricsOf(rs, 4);
    Picture(BrokerFigure(e.funds, FundsAged(e)), BrokerFigure(e.plannedMargin, MarginAged(e)),
            if metrics.complete then Some(metrics.grossPaise) else None, metrics,
            if inputs.Some? then Some(FundingPicture(rs, inputs.value, MarginAged(e), charges)) else None)
  }

  // ---------------------------------------------------------------- the gate

  datatype Controls = Controls(grossCap: Option<real>, requireFundsCover: bool,
                               requireMarginEvidence: bool, requireStageFunding: bool)

  datatype Reason =
    | GrossNotionalOverCap | InsufficientFunds | MarginStaleOrMissing | MarginInvalid
    | FundsInvalid | FundingStageUnknown | HedgeSequenceInvalid | MetricIncomplete

  /** The strongest requirement that can be proved: the stage model, else the broker margin, else the worst case. */
  function Need(p: Picture): Option<int> {
    if p.funding.Some? && p.funding.value.binding.usable && p.funding.value.binding.value.Some?
    then p.funding.value.binding.value
    else if p.plannedMargin.usable && p.plannedMargin.value.Some? then p.plannedMargin.value
    else p.worstCaseEntry
  }

  /** What each enabled control demands, stated once. */
  predicate Admissible(p: Picture, c: Controls) {
    && CapitalAllowed(p.metrics, c.grossCap)
    && (c.requireMarginEvidence ==> p.plannedMargin.usable)
    && (c.requireStageFunding ==>
          p.funding.Some? && p.funding.value.hedgeFirst && p.funding.value.allKnown && p.funding.value.binding.usable)
    && (c.requireFundsCover || c.requireStageFunding ==>
          && p.availableFunds.usable && p.availableFunds.provenance != NotAttributable
          && p.availableFunds.value.Some? && Need(p).Some? && p.availableFunds.value.value >= Need(p).value)
  }

  /** A cap is set, and the box is incomplete or over it. */
  predicate CapFault(p: Picture, cap: Option<real>, r: Reason) {
    && cap.Some? && cap.value > 0.0
    && (|| (r == MetricIncomplete && !p.metrics.complete)
        || (r == GrossNotionalOverCap && p.metrics.complete && p.metrics.grossPaise > ToPaise(cap.value)))
  }

  predicate MarginFault(p: Picture, required: bool, r: Reason) {
    && required && !p.plannedMargin.usable
    && r == if p.plannedMargin.provenance == NotAttributable then MarginInvalid else MarginStaleOrMissing
  }

  predicate StageFault(p: Picture, required: bool, r: Reason) {
    && required
    && (|| (r == HedgeSequenceInvalid && p.funding.Some? && !p.funding.value.hedgeFirst)
        || (r == FundingStageUnknown
            && (p.funding.None? || !p.funding.value.allKnown || !p.funding.value.binding.usable)))
  }

  /** Funds that cannot be attributed, are not known to suffice, or have nothing to be compared with. */
  predicate FundsFault(p: Picture, required: bool, r: Reason) {
    && required
    && if p.availableFunds.provenance == NotAttributable then r == FundsInvalid
       else if !p.availableFunds.usable || p.availableFunds.value.None? then r == InsufficientFunds
       else if Need(p).None? then r == MetricIncomplete
       else r == InsufficientFunds && p.availableFunds.value.value < Need(p).value
  }

  method CapReasons(p: Picture, cap: Option<real>) returns (reasons: seq<Reason>)
    ensures forall r :: r in reasons <==> CapFault(p, cap, r)
  {
    reasons := [];
    if cap.Some? && cap.value > 0.0 {
      if !p.metrics.complete {
        reasons := [MetricIncomplete];
      } else if p.metrics.grossPaise > ToPaise(cap.value) {
        reasons := [GrossNotionalOverCap];
      }
    }
  }

  method MarginReasons(p: Picture, required: bool) returns (reasons: seq<Reason>)
    ensures forall r :: r in reasons <==> MarginFault(p, required, r)
  {
    reasons := [];
    if required && !p.plannedMargin.usable {
      var reason := if p.plannedMargin.provenance == NotAttributable then MarginInvalid else MarginStaleOrMissing;
      reasons := [reason];
    }
  }

  method StageReasons(p: Picture, required: bool) returns (reasons: seq<Reason>)
    ensures forall r :: r in reasons <==> StageFault(p, required, r)
  {
    reasons := [];
    if required {
      if p.funding.None? {
        reasons := [FundingStageUnknown];
      } else {
        if !p.funding.value.hedgeFirst { reasons := [HedgeSequenceInvalid]; }
        if !p.funding.value.allKnown || !p.funding.value.binding.usable { reasons := reasons + [FundingStageUnknown]; }
      }
    }
  }

  method FundsReasons(p: Picture, required: bool) returns (reasons: seq<Reason>)
    ensures forall r :: r in reasons <==> FundsFault(p, required, r)
  {
    reasons := [];
    if required {
      if p.availableFunds.provenance == NotAttributable {
        reasons := [FundsInvalid];
      } else if !p.availableFunds.usable || p.availableFunds.value.None? {
        reasons := [InsufficientFunds];
      } else {
        var need := Need(p);
        if need.None? {
          reasons := [MetricIncomplete];
        } else if p.availableFunds.value.value < need.value {
          reasons := [InsufficientFunds];
        }
      }
    }
  }

  /** Asking for stage funding switches the funds comparison on. */
  predicate Fault(p: Picture, c: Controls, r: Reason) {
    || CapFault(p, c.grossCap, r)
    || MarginFault(p, c.requireMarginEvidence, r)
    || StageFault(p, c.requireStageFunding, r)
    || FundsFault(p, c.requireFundsCover || c.requireStageFunding, r)
  }

  /** What the controls demand holds exactly when none of the eight faults does. */
  lemma AdmissibleIffFaultless(p: Picture, c: Controls)
    ensures Admissible(p, c) <==> forall r :: !Fault(p, c, r)
  {
    if forall r :: !Fault(p, c, r) {
      assert !Fault(p, c, MetricIncomplete) && !Fault(p, c, GrossNotionalOverCap) && !Fault(p, c, MarginInvalid)
             && !Fault(p, c, MarginStaleOrMissing) && !Fault(p, c, HedgeSequenceInvalid)
             && !Fault(p, c, FundingStageUnknown) && !Fault(p, c, FundsInvalid) && !Fault(p, c, InsufficientFunds);
    }
  }

  lemma Joined(a: seq<Reason>, b: seq<Reason>, c: seq<Reason>, d: seq<Reason>)
    ensures forall r :: r in a + b + c + d <==> r in a || r in b || r in c || r in d
  {}

  /**
   Every failing control is reported under its own reason and no other, and admission is exactly the
   absence of any.
   */
  method EvaluateEconomicAdmission(p: Picture, c: Controls) returns (allowed: bool, reasons: seq<Reason>)
    ensures forall r :: r in reasons <==> Fault(p, c, r)
    ensures allowed <==> reasons == []
    ensures allowed <==> Admissible(p, c)
  {
    var cap := CapReasons(p, c.grossCap);
    var margin := MarginReasons(p, c.requireMarginEvidence);
    var stage := StageReasons(p, c.requireStageFunding);
    var funds := FundsReasons(p, c.requireFundsCover || c.requireStageFunding);
    reasons := cap + margin + stage + funds;
    allowed := reasons == [];
    Joined(cap, margin, stage, funds);
    AdmissibleIffFaultless(p, c);
    if reasons != [] { assert Fault(p, c, reasons[0]); }
  }

  // ---------------------------------------------------------------- what an admission proves

  /** A bound that covers the worst known stage covers every stage, and the other way round. */
  lemma {:induction false} WorstCoversEach(stages: seq<Stage>, funds: int, extra: int)
    requires AllKnown(stages) && stages != []
    ensures WorstStage(stages).Some?
    ensures funds >= WorstStage(stages).value + extra
       <==> forall i :: 0 <= i < |stages| ==> funds >= stages[i].requirement.value + extra
  {
    var before := stages[..|stages| - 1];
    assert forall i :: 0 <= i < |before| ==> before[i] == stages[i];
    if before != [] { WorstCoversEach(before, funds, extra); }
  }

  /** The account, on fresh evidence about itself, can pay for every stage plus everything set aside. */
  ghost predicate FundsEveryStage(rs: seq<Request>, e: Evidence, charges: Option<int>, inputs: FundingInputs) {
    var ordered := SortByRank(inputs.transport);
    var stages := Stages(rs, ordered, inputs.margins);
    && Fresh(e.fundsSeen, e.evaluatedMono, e.maxAgeMs, e.graceMs, e.identity)
    && Fresh(e.marginSeen, e.evaluatedMono, e.maxAgeMs, e.graceMs, e.identity)
    && HedgeFirst(Sides(ordered)) && stages != [] && AllKnown(stages)
    && e.funds.Some? && charges.Some? && inputs.encumbrance.Some?
    && forall i :: 0 <= i < |stages| ==>
         e.funds.value >=
         stages[i].requirement.value + Aside(charges.value, inputs.reserve, inputs.encumbrance.value)
  }

  /** What must stay untouched by the entry: its charges, a reserve that is not negative, and what is encumbered. */
  function Aside(charges: int, reserve: Option<int>, encumbrance: int): int {
    charges + encumbrance + (if reserve.Some? then Max(0, reserve.value) else 0)
  }

  /**
   With stage funding required, an entry is admitted exactly when the cap and any margin-evidence
   control hold and fresh funds cover every stage plus charges, reserve and encumbrance.
   */
  lemma StageAdmissionIff(rs: seq<Request>, e: Evidence, charges: Option<int>, inputs: FundingInputs, c: Controls)
    requires c.requireStageFunding
    ensures Admissible(EconomicPicture(rs, e, charges, Some(inputs)), c) <==>
            && CapitalAllowed(MetricsOf(rs, 4), c.grossCap)
            && (c.requireMarginEvidence ==> e.plannedMargin.Some?)
            && FundsEveryStage(rs, e, charges, inputs)
  {
    UsableIffFresh(e.fundsSeen, e.evaluatedMono, e.evaluatedMono, e.maxAgeMs, e.graceMs, e.identity);
    UsableIffFresh(e.marginSeen, e.evaluatedMono, e.evaluatedMono, e.maxAgeMs, e.graceMs, e.identity);
    var stages := Stages(rs, SortByRank(inputs.transport), inputs.margins);
    if AllKnown(stages) && stages != [] && e.funds.Some? && charges.Some? && inputs.encumbrance.Some? {
      WorstCoversEach(stages, e.funds.value, charges.value + ReserveOf(inputs.reserve) + inputs.encumbrance.value);
    }
  }

  /** What a remote figure is: usable only with a value that aged as usable, and labelled by how it aged. */
  lemma FigureMeans(value: Option<int>, aged: Aged)
    ensures var f := BrokerFigure(value, aged);
            && (f.usable <==> value.Some? && aged.status == Usable) && f.value == value
            && (f.provenance == BrokerConfirmed <==> value.Some? && aged.status == Usable)
            && (f.provenance == TooOld <==> value.Some? && aged.status == Stale)
            && (f.provenance == NotAttributable <==> value.Some? && aged.status == Invalid)
            && (f.provenance == NotAvailable <==> value.None? || aged.status == Unavailable)
  {}

  /**
   Without the stage model, asking for funds cover admits exactly when fresh funds cover the broker's own
   margin where that is fresh, and otherwise the gross of a complete box.
   */
  lemma PlainAdmissionIff(rs: seq<Request>, e: Evidence, charges: Option<int>, c: Controls)
    requires !c.requireStageFunding
    ensures Admissible(EconomicPicture(rs, e, charges, None), c) <==>
            var marginKnown := e.plannedMargin.Some?
                               && Fresh(e.marginSeen, e.evaluatedMono, e.maxAgeMs, e.graceMs, e.identity);
            && CapitalAllowed(MetricsOf(rs, 4), c.grossCap)
            && (c.requireMarginEvidence ==> marginKnown)
            && (c.requireFundsCover ==>
                  && e.funds.Some? && Fresh(e.fundsSeen, e.evaluatedMono, e.maxAgeMs, e.graceMs, e.identity)
                  && if marginKnown then e.funds.value >= e.plannedMargin.value
                     else AllPriced(rs) && |rs| == 4 && e.funds.value >= SidePaise(rs, Buy) + SidePaise(rs, Sell))
  {
    UsableIffFresh(e.fundsSeen, e.evaluatedMono, e.evaluatedMono, e.maxAgeMs, e.graceMs, e.identity);
    UsableIffFresh(e.marginSeen, e.evaluatedMono, e.evaluatedMono, e.maxAgeMs, e.graceMs, e.identity);
    FigureMeans(e.funds, FundsAged(e));
    FigureMeans(e.plannedMargin, MarginAged(e));
  }

  /** For a priced box in its own order, admission means funds for both margins and the whole hedge premium. */
  lemma AdmittedBoxIsFunded(d: Direction, rs: seq<Request>, e: Evidence, charges: Option<int>,
                            inputs: FundingInputs, c: Controls)
    requires c.requireStageFunding && inputs.transport == EntrySlots(d)
    requires RolesDistinct(rs) && PlanPriced(rs, EntrySlots(d))
    requires Admissible(EconomicPicture(rs, e, charges, Some(inputs)), c)
    ensures inputs.margins.initial.Some? && inputs.margins.final.Some?
    ensures e.funds.Some? && charges.Some? && inputs.encumbrance.Some?
    ensures var aside := Aside(charges.value, inputs.reserve, inputs.encumbrance.value);
            && e.funds.value >= inputs.margins.initial.value + aside
            && e.funds.value >= inputs.margins.final.value + aside
            && e.funds.value >= PaiseOf(rs, BuyRoles(EntrySlots(d))) + aside
  {
    StageAdmissionIff(rs, e, charges, inputs, c);
    EntryOrderIsHedgeFirst(d);
    SortedStays(EntrySlots(d));
    var stages := Stages(rs, EntrySlots(d), inputs.margins);
    assert stages[0].requirement.Some? && stages[3].requirement.Some?;
    BoxWorstStage(d, rs, inputs.margins);
    WorstCoversEach(stages, e.funds.value, charges.value + ReserveOf(inputs.reserve) + inputs.encumbrance.value);
  }
}
