/**
 Submission of orders within one session, as the atomic steps between awaits. Calls interleave freely,
 the broker answers as it likes, and no client order id is ever posted twice.
 */
module OrderSubmission {
  import opened Common
  import opened OrderEvidence

  /** Where a submission is: queued behind the pacer, refused before the wire, or posted and unanswered. */
  datatype Phase = AtPacer | NeverSent | OnWire

  /** `own` is the order object the submission created and keeps hold of until it is answered. */
  datatype Call = Call(id: string, phase: Phase, own: Order)

  /**
   How the transport reports a submission. A label that claims a terminal outcome is never accepted:
   what is stored then comes from a read. An unclear outcome is looked up by correlation id.
   */
  datatype Outcome =
    | PreSubmitRefused
    | NotTransmitted
    | DefinitiveReject
    | Ambiguous(found: Option<Remote>)
    | Working(brokerOrderId: string, status: Label)
    | Claimed(verified: Order)

  /** Outcomes by which the transport proves that nothing reached the wire. */
  predicate ProvesNoPost(o: Outcome) { o == PreSubmitRefused || o == NotTransmitted }

  datatype Session = Session(orders: map<string, Order>, calls: map<nat, Call>, wire: seq<string>)

  /** The local gates of a submission that the session does not decide. */
  datatype Gates = Gates(tradingReady: bool, boundedLimit: bool, identified: bool, budgetLeft: bool)

  datatype Event =
    | Submit(call: nat, id: string, quantity: int, gates: Gates)
    | SendBoundary(call: nat, guardPasses: bool)
    | Settle(call: nat, outcome: Outcome)
    | Observed(id: string, x: Observation)
    | Write(id: string, order: Order)

  /**
   A new call has its own number. A boundary or an answer needs a call in the right phase. The one
   thing assumed of the broker client: a reported no-post is true.
   */
  predicate Possible(s: Session, e: Event) {
    match e
    case Submit(c, _, _, _) => c !in s.calls
    case SendBoundary(c, _) => c in s.calls && s.calls[c].phase == AtPacer
    case Settle(c, o) =>
      c in s.calls && s.calls[c].phase != AtPacer && (ProvesNoPost(o) ==> s.calls[c].phase == NeverSent)
    case Observed(_, _) => true
    case Write(_, _) => true
  }

  function Next(s: Session, e: Event): Session
    requires Possible(s, e)
  {
    match e
    case Submit(c, id, quantity, g) =>
      if !g.tradingReady || !g.boundedLimit || id in s.orders || !g.identified || !g.budgetLeft then s
      else
        var own := FromRequest(quantity).(state := Submitting);
        s.(orders := s.orders[id := own], calls := s.calls[c := Call(id, AtPacer, own)])
    case SendBoundary(c, passes) =>
      if passes then s.(calls := s.calls[c := s.calls[c].(phase := OnWire)], wire := s.wire + [s.calls[c].id])
      else s.(calls := s.calls[c := s.calls[c].(phase := NeverSent)])
    case Settle(c, o) =>
      var id := s.calls[c].id;
      var rest := s.(calls := s.calls - {c});
      if ProvesNoPost(o) then rest.(orders := s.orders - {id})
      else rest.(orders := s.orders[id := Answered(s.calls[c].own, o)])
    case Observed(id, x) => if id in s.orders then s.(orders := s.orders[id := Observe(s.orders[id], x)]) else s
    case Write(id, order) => s.(orders := s.orders[id := order])
  }

  /** The order an answer leaves in the session: the submission's own object, or what a read found. */
  function Answered(own: Order, o: Outcome): Order {
    match o
    case DefinitiveReject => own.(state := Rejected)
    case Ambiguous(Some(remote)) => Project(own, remote)
    case Ambiguous(None) => own.(state := ReconciliationRequired)
    case Working(brokerOrderId, status) =>
      own.(brokerOrderId := Some(brokerOrderId), state := DhanOrderState(status, 0, own.quantity))
    case Claimed(verified) => verified
    case _ => own
  }

  function After(es: seq<Event>): Session {
    if es == [] then Session(map[], map[], [])
    else
      var s := After(es[..|es| - 1]);
      if Possible(s, es[|es| - 1]) then Next(s, es[|es| - 1]) else s
  }

  // ---------------------------------------------------------------- the session maps

  class OrderSession {
    var orders: map<string, Order>
    var calls: map<nat, Call>
    ghost var wire: seq<string>

    ghost function View(): Session
      reads this
    {
      Session(orders, calls, wire)
    }

    constructor ()
      ensures View() == Session(map[], map[], [])
    {
      orders, calls, wire := map[], map[], [];
    }

    /** Everything a submission does before its first await: the gates, the claim, the fast refusal. */
    method Submit(c: nat, id: string, quantity: int, gates: Gates) returns (claimed: bool)
      requires c !in calls
      modifies this
      ensures View() == Next(old(View()), Event.Submit(c, id, quantity, gates))
      ensures claimed <==> c in calls
    {
      if !gates.tradingReady || !gates.boundedLimit { return false; }
      if id in orders { return false; }
      if !gates.identified { return false; }
      var own := FromRequest(quantity).(state := Submitting);
      orders := orders[id := own];
      if !gates.budgetLeft {
        orders := orders - {id};
        return false;
      }
      calls := calls[c := Call(id, AtPacer, own)];
      return true;
    }

    /** The synchronous instant before the wire: the guards refuse, or the request leaves. */
    method SendBoundary(c: nat, guardPasses: bool)
      requires Possible(View(), Event.SendBoundary(c, guardPasses))
      modifies this
      ensures View() == Next(old(View()), Event.SendBoundary(c, guardPasses))
    {
      if guardPasses {
        wire := wire + [calls[c].id];
        calls := calls[c := calls[c].(phase := OnWire)];
      } else {
        calls := calls[c := calls[c].(phase := NeverSent)];
      }
    }

    method Settle(c: nat, outcome: Outcome)
      requires Possible(View(), Event.Settle(c, outcome))
      modifies this
      ensures View() == Next(old(View()), Event.Settle(c, outcome))
    {
      var id, own := calls[c].id, calls[c].own;
      calls := calls - {c};
      if ProvesNoPost(outcome) {
        orders := orders - {id};
      } else {
        orders := orders[id := Answered(own, outcome)];
      }
    }

    /** A stream update: ignored for an order this session does not hold or when it carries nothing new. */
    method ApplyOrderUpdate(id: string, u: Update) returns (applied: bool)
      modifies this`orders
      ensures applied <==> id in old(orders) && ApplyUpdate(old(orders)[id], u).1
      ensures View() == Next(old(View()), Observed(id, Stream(u)))
    {
      if id !in orders { return false; }
      var (merged, changed) := ApplyUpdate(orders[id], u);
      if !changed {
        assert merged == orders[id] && orders == orders[id := merged];
        return false;
      }
      orders := orders[id := merged];
      return true;
    }

    /** The end of a re-read: the answer is merged into the snapshot taken before it and stored. */
    method StoreRefresh(id: string, known: Order, remote: Remote) returns (projected: Order)
      modifies this`orders
      ensures projected == Refresh(known, remote)
      ensures View() == Next(old(View()), Write(id, projected))
      ensures id in old(orders) && old(orders)[id] == known ==>
                View() == Next(old(View()), Observed(id, Rest(remote)))
    {
      projected := Refresh(known, remote);
      orders := orders[id := projected];
    }
  }

  // ---------------------------------------------------------------- at most one post per id

  function Posts(wire: seq<string>, id: string): nat {
    if wire == [] then 0 else Posts(wire[..|wire| - 1], id) + (if wire[|wire| - 1] == id then 1 else 0)
  }

  ghost predicate Inv(s: Session) {
    && (forall c :: c in s.calls ==> s.calls[c].id in s.orders)
    && (forall c, d :: c in s.calls && d in s.calls && c != d ==> s.calls[c].id != s.calls[d].id)
    && (forall c :: c in s.calls && s.calls[c].phase != OnWire ==> s.calls[c].id !in s.wire)
    && (forall c :: c in s.calls ==> s.calls[c].own.filled == 0)
    && (forall id :: id in s.wire ==> id in s.orders)
    && (forall i, j :: 0 <= i < j < |s.wire| ==> s.wire[i] != s.wire[j])
  }

  lemma StepKeeps(s: Session, e: Event)
    requires Inv(s) && Possible(s, e)
    ensures Inv(Next(s, e))
  {
    match e
    case Submit(c, id, quantity, g) =>
      var s' := Next(s, e);
      if s' != s { assert id !in s.orders && id !in s.wire; }
    case SendBoundary(c, passes) =>
    case Settle(c, o) =>
    case Observed(id, x) =>
    case Write(id, order) =>
  }

  lemma {:induction false} EveryRunKeeps(es: seq<Event>)
    ensures Inv(After(es))
  {
    if es != [] {
      EveryRunKeeps(es[..|es| - 1]);
      var s := After(es[..|es| - 1]);
      if Possible(s, es[|es| - 1]) { StepKeeps(s, es[|es| - 1]); }
    }
  }

  lemma {:induction false} DistinctPostsOnce(wire: seq<string>, id: string)
    requires forall i, j :: 0 <= i < j < |wire| ==> wire[i] != wire[j]
    ensures Posts(wire, id) == if id in wire then 1 else 0
  {
    if wire != [] {
      var before := wire[..|wire| - 1];
      DistinctPostsOnce(before, id);
      assert wire == before + [wire[|wire| - 1]];
    }
  }

  /**
   Over every interleaving of submissions, boundaries, answers and other writes, at most one placement
   per client order id reaches the wire, and a posted id stays claimed for the rest of the session.
   */
  lemma AtMostOnePost(es: seq<Event>, id: string)
    ensures Posts(After(es).wire, id) <= 1
    ensures Posts(After(es).wire, id) == 1 ==> id in After(es).orders
  {
    EveryRunKeeps(es);
    DistinctPostsOnce(After(es).wire, id);
  }

  /** A later submission of a posted id changes nothing at all. */
  lemma PostedIdIsClosed(es: seq<Event>, c: nat, id: string, quantity: int, gates: Gates)
    requires Posts(After(es).wire, id) == 1 && c !in After(es).calls
    ensures Next(After(es), Submit(c, id, quantity, gates)) == After(es)
  {
    AtMostOnePost(es, id);
  }

  // ---------------------------------------------------------------- what a submission achieves

  lemma Extend(es: seq<Event>, s: Session, e: Event)
    requires After(es) == s && Possible(s, e)
    ensures After(es + [e]) == Next(s, e)
  {
    assert (es + [e])[..|es|] == es;
  }

  /** A submission is claimed exactly when every gate is open and the id is new; else nothing changes. */
  lemma ClaimedIff(s: Session, c: nat, id: string, quantity: int, g: Gates)
    requires Possible(s, Submit(c, id, quantity, g))
    ensures var s' := Next(s, Submit(c, id, quantity, g));
            && s'.wire == s.wire
            && (c in s'.calls <==>
                  g.tradingReady && g.boundedLimit && g.identified && g.budgetLeft && id !in s.orders)
            && (c !in s'.calls ==> s' == s)
            && (c in s'.calls ==>
                  && s'.calls == s.calls[c := s'.calls[c]] && s'.calls[c].id == id && s'.calls[c].phase == AtPacer
                  && s'.orders.Keys == s.orders.Keys + {id} && s'.orders[id].state == Submitting
                  && s'.orders[id].quantity == quantity && s'.orders[id].pending == quantity
                  && s'.orders[id].filled == 0 && s'.orders[id].fills == [] && s'.orders[id].averagePrice == None
                  && forall other :: other in s.orders ==> s'.orders[other] == s.orders[other])
  {}

  /** And a claimed one whose guards pass does reach the wire, once. */
  lemma ClaimedReachesWire(es: seq<Event>, c: nat, id: string, quantity: int, g: Gates)
    requires Possible(After(es), Submit(c, id, quantity, g)) && id !in After(es).orders
    requires g.tradingReady && g.boundedLimit && g.identified && g.budgetLeft
    ensures var run := es + [Submit(c, id, quantity, g)] + [SendBoundary(c, true)];
            After(run).wire == After(es).wire + [id] && Posts(After(run).wire, id) == 1
    ensures var run := es + [Submit(c, id, quantity, g)] + [SendBoundary(c, false)];
            After(run).wire == After(es).wire && Possible(After(run), Settle(c, PreSubmitRefused))
  {
    var s := After(es);
    ClaimedIff(s, c, id, quantity, g);
    Extend(es, s, Submit(c, id, quantity, g));
    var claimed := es + [Submit(c, id, quantity, g)];
    Extend(claimed, Next(s, Submit(c, id, quantity, g)), SendBoundary(c, true));
    Extend(claimed, Next(s, Submit(c, id, quantity, g)), SendBoundary(c, false));
    var run := claimed + [SendBoundary(c, true)];
    AtMostOnePost(run, id);
    EveryRunKeeps(run);
    DistinctPostsOnce(After(run).wire, id);
    assert After(run).wire[|s.wire|] == id;
  }

  /**
   What an answer leaves: a proven no-post frees the id, a refusal is final, an outcome nobody can resolve
   is quarantined and never taken for an end, and a working label gives a working order with its broker id.
   */
  lemma AnswerLeaves(es: seq<Event>, c: nat, o: Outcome)
    requires Possible(After(es), Settle(c, o))
    ensures var s := After(es);
            var id := s.calls[c].id;
            var s' := Next(s, Settle(c, o));
            && c !in s'.calls && s'.wire == s.wire
            && (id in s'.orders <==> o != PreSubmitRefused && o != NotTransmitted)
            && (o == DefinitiveReject ==> s'.orders[id].state == Rejected)
            && (o == Ambiguous(None) ==> s'.orders[id].state == ReconciliationRequired)
            && (o.Ambiguous? && o.found.Some? ==> s'.orders[id].state == Refresh(s.calls[c].own, o.found.value).state)
            && (o.Claimed? ==> s'.orders[id] == o.verified)
            && (o.Working? ==> s'.orders[id].brokerOrderId == Some(o.brokerOrderId)
                               && (o.status == Transit ==> s'.orders[id].state == Acknowledged)
                               && (o.status == Pending ==> s'.orders[id].state == Open))
            && (forall other :: other != id ==>
                  (other in s'.orders <==> other in s.orders)
                  && (other in s.orders ==> s'.orders[other] == s.orders[other]))
  {
    EveryRunKeeps(es);
    if o.Ambiguous? && o.found.Some? { RefreshGuardIsRedundant(After(es).calls[c].own, o.found.value); }
  }

  // ---------------------------------------------------------------- what an answer overwrites

  predicate Claims(s: Session, e: Event, id: string) {
    e.Submit? && e.id == id && Possible(s, e) && Next(s, e) != s
  }

  /** The observations of an order applied since its id was last claimed. */
  function Since(es: seq<Event>, id: string): seq<Observation> {
    if es == [] then []
    else
      var before, e := es[..|es| - 1], es[|es| - 1];
      if Claims(After(before), e, id) then []
      else if e.Observed? && e.id == id && id in After(before).orders then Since(before, id) + [e.x]
      else Since(before, id)
  }

  /** Nothing but observations applied one at a time touches the order besides its own submission. */
  ghost predicate OnlyObserved(es: seq<Event>, id: string) {
    forall i :: 0 <= i < |es| ==> !(es[i].Write? && es[i].id == id)
  }

  predicate Live(s: Session, id: string) { exists c :: c in s.calls && s.calls[c].id == id }

  lemma ObserveFill(o: Order, x: Observation, xs: seq<Observation>)
    requires o.filled == HighestExplicit(0, xs) >= 0
    ensures Observe(o, x).filled == HighestExplicit(0, xs + [x]) >= 0
  {
    assert (xs + [x])[..|xs|] == xs;
    var one := [x];
    assert one[..0] == [];
    FilledIsHighestExplicit(o, one);
    assert OrderEvidence.After(o, one) == Observe(OrderEvidence.After(o, one[..0]), x);
    assert HighestExplicit(o.filled, one[..0]) == o.filled;
  }

  /** A submission, a boundary or an answer leaves every other live order as it is. */
  lemma OthersUntouched(s: Session, e: Event, id: string)
    requires Inv(s) && Possible(s, e) && !(e.Write? && e.id == id) && !(e.Observed? && e.id == id)
    ensures Live(Next(s, e), id) && !Claims(s, e, id) ==>
              Live(s, id) && id in s.orders && id in Next(s, e).orders && Next(s, e).orders[id] == s.orders[id]
  {
    var s' := Next(s, e);
    if Live(s', id) && !Claims(s, e, id) {
      var c :| c in s'.calls && s'.calls[c].id == id;
      assert c in s.calls && s.calls[c].id == id;
    }
  }

  lemma ClaimIsEmpty(s: Session, e: Event, id: string)
    requires Inv(s) && Claims(s, e, id)
    ensures id in Next(s, e).orders && Next(s, e).orders[id].filled == 0
  {}

  lemma ObservedFill(s: Session, e: Event, id: string, xs: seq<Observation>)
    requires Inv(s) && e.Observed? && e.id == id && id in s.orders && s.orders[id].filled == HighestExplicit(0, xs) >= 0
    ensures id in Next(s, e).orders && Next(s, e).orders[id].filled == HighestExplicit(0, xs + [e.x]) >= 0
    ensures Next(s, e).calls == s.calls
  {
    ObserveFill(s.orders[id], e.x, xs);
  }

  lemma FillStep(s: Session, e: Event, id: string, xs: seq<Observation>)
    requires Inv(s) && Possible(s, e) && !(e.Write? && e.id == id)
    requires Live(s, id) ==> id in s.orders && s.orders[id].filled == HighestExplicit(0, xs) >= 0
    ensures var s' := Next(s, e);
            var xs' := if Claims(s, e, id) then []
                       else if e.Observed? && e.id == id && id in s.orders then xs + [e.x]
                       else xs;
            Live(s', id) ==> id in s'.orders && s'.orders[id].filled == HighestExplicit(0, xs') >= 0
  {
    if Claims(s, e, id) {
      ClaimIsEmpty(s, e, id);
    } else if e.Observed? && e.id == id {
      if id in s.orders && Live(s, id) { ObservedFill(s, e, id, xs); }
      assert Next(s, e).calls == s.calls;
    } else {
      OthersUntouched(s, e, id);
    }
  }

  /** While a submission is out, the stored fill is the highest stated since its claim. */
  lemma {:induction false} FillIsHighestSince(es: seq<Event>, id: string)
    requires OnlyObserved(es, id)
    ensures Live(After(es), id) ==>
              id in After(es).orders && After(es).orders[id].filled == HighestExplicit(0, Since(es, id)) >= 0
  {
    EveryRunKeeps(es);
    if es != [] {
      var before, e := es[..|es| - 1], es[|es| - 1];
      assert forall i :: 0 <= i < |before| ==> before[i] == es[i];
      FillIsHighestSince(before, id);
      EveryRunKeeps(before);
      if Possible(After(before), e) { FillStep(After(before), e, id, Since(before, id)); }
    }
  }

  /** What an answer itself says has been filled; the submission's own order says nothing. */
  function Stated(o: Outcome): nat {
    if o.Ambiguous? && o.found.Some? && ReadQuantity(o.found.value.filledQty).Some?
    then ReadQuantity(o.found.value.filledQty).value else 0
  }

  /** Answers after which the submission stores its own order, or one projected from its request. */
  predicate FromRequestOnly(o: Outcome) { o == DefinitiveReject || o.Ambiguous? || o.Working? }

  /**
   A working, rejected, unresolved or looked-up answer is written over whatever the session recorded
   meanwhile: in every run the fill does not drop exactly when no observation since the claim stated more
   than the answer itself does.
   */
  lemma AnswerKeepsFillIff(es: seq<Event>, c: nat, o: Outcome)
    requires Possible(After(es), Settle(c, o)) && FromRequestOnly(o)
    requires OnlyObserved(es, After(es).calls[c].id)
    ensures var s := After(es);
            var id := s.calls[c].id;
            var s' := Next(s, Settle(c, o));
            && id in s.orders && id in s'.orders && s'.orders[id].filled == Stated(o)
            && (s.orders[id].filled <= s'.orders[id].filled <==>
                  forall x :: x in Since(es, id) && Explicit(x).Some? ==> Explicit(x).value <= Stated(o))
  {
    var id := After(es).calls[c].id;
    EveryRunKeeps(es);
    FillIsHighestSince(es, id);
    HighestIsAttained(0, Since(es, id));
  }

  /** A reachable drop: five seen on the stream, then a working answer (none) or a looked-up one (three). */
  lemma AnswerCanRewind(o: Outcome) returns (es: seq<Event>)
    requires o.Working? || (o.Ambiguous? && Stated(o) == 3)
    ensures Possible(After(es), Settle(0, o)) && After(es).orders.Keys == {"a"} && After(es).orders["a"].filled == 5
    ensures After(es + [Settle(0, o)]).orders.Keys == {"a"}
    ensures After(es + [Settle(0, o)]).orders["a"].filled == Stated(o) < 5
  {
    var news := Update(PartTraded, Number(5.0), Number(7.0), None);
    var e1 := Submit(0, "a", 10, Gates(true, true, true, true));
    var e2, e3 := SendBoundary(0, true), Observed("a", Stream(news));
    var s := Session(map[], map[], []);
    es := [];
    Extend(es, s, e1);
    es, s := es + [e1], Next(s, e1);
    Extend(es, s, e2);
    es, s := es + [e2], Next(s, e2);
    Extend(es, s, e3);
    assert ReadQuantity(Number(5.0)) == Some(5);
    es, s := es + [e3], Next(s, e3);
    Extend(es, s, Settle(0, o));
  }
}
