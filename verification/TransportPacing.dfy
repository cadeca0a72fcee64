/**
 The transport pacer shared by the live adapters: one call at a time in arrival order, with a gap per
 class of call and an absolute gap between any two calls. Times are milliseconds.
 */
module TransportPacing {
  import opened Common

  datatype PacingClass = OrderMutation | General

  datatype Profile = Profile(broker: string, defaultMs: int, floorMs: int)

  const ZERODHA := Profile("zerodha", 110, 100)
  const DHAN := Profile("dhan", 120, 120)

  /** The most conservative figures of all known brokers, for a broker nobody knows. */
  const STRICTEST := Profile("zerodha", Max(ZERODHA.defaultMs, DHAN.defaultMs), Max(ZERODHA.floorMs, DHAN.floorMs))

  function ProfileOf(broker: string): Profile {
    if broker == "zerodha" then ZERODHA else if broker == "dhan" then DHAN else STRICTEST
  }

  datatype Source = BrokerDefault | OperatorOverride | ClampedToFloor

  datatype Pacing = Pacing(broker: string, orderMs: int, generalMs: int, source: Source, floorMs: int)

  /** The pacing in force for a broker; figures that are not finite are absent. */
  function ResolvePacing(broker: string, general: Option<real>, orderOverride: Option<real>): (p: Pacing)
    ensures p.orderMs >= p.floorMs == ProfileOf(broker).floorMs
    ensures p.generalMs >= 0
    ensures p.source == OperatorOverride ==> orderOverride.Some? && p.orderMs == orderOverride.value.Floor
    ensures p.source == ClampedToFloor ==> orderOverride.Some? && orderOverride.value.Floor < p.orderMs == p.floorMs
    ensures p.source == BrokerDefault ==> p.orderMs == ProfileOf(broker).defaultMs
    ensures p.source == BrokerDefault <==> orderOverride.None? || orderOverride.value < 1.0
    ensures p.generalMs == if general.None? then 250 else if general.value < 0.0 then 0 else general.value.Floor
  {
    var profile := ProfileOf(broker);
    var generalMs := if general.Some? then Max(0, general.value.Floor) else 250;
    if orderOverride.Some? && orderOverride.value.Floor > 0 then
      var requested := orderOverride.value.Floor;
      if requested < profile.floorMs
      then Pacing(profile.broker, profile.floorMs, generalMs, ClampedToFloor, profile.floorMs)
      else Pacing(profile.broker, requested, generalMs, OperatorOverride, profile.floorMs)
    else Pacing(profile.broker, profile.defaultMs, generalMs, BrokerDefault, profile.floorMs)
  }

  function Interval(p: Pacing, k: PacingClass): int { if k == OrderMutation then p.orderMs else p.generalMs }

  /** The wait before a call of this class; a clock that stepped back serves the full interval. */
  function PacingWait(p: Pacing, k: PacingClass, last: Option<int>, now: int): (wait: int)
    ensures last.Some? && last.value <= now ==>
              now + wait >= last.value + Interval(p, k) && (wait > 0 ==> now + wait == last.value + Interval(p, k))
    ensures last.Some? && now < last.value ==> wait == Interval(p, k)
    ensures last.None? ==> wait == 0
    ensures Interval(p, k) >= 0 ==> 0 <= wait <= Interval(p, k)
  {
    if last.None? then 0
    else if now < last.value then Interval(p, k)
    else Max(0, Interval(p, k) - (now - last.value))
  }

  function BurstBudget(p: Pacing, legs: int): int { if legs <= 1 then 0 else (legs - 1) * p.orderMs }

  // ---------------------------------------------------------------- the pacer as atomic steps

  datatype Call = Call(id: nat, k: PacingClass)

  /** Between turns, serving a wait, or inside the operation. */
  datatype Phase = Idle | Waiting(call: Call, pacing: Pacing, readyAt: int) | Running(call: Call)

  /** An operation that started; `done` once it settled, well or badly. */
  datatype Start = Start(call: Call, at: int, pacing: Pacing, done: Option<int>)

  datatype Pacer = Pacer(
    pacing: Pacing, lastOrder: Option<int>, lastGeneral: Option<int>, lastAny: Option<int>,
    queue: seq<Call>, phase: Phase, clock: int, submitted: seq<Call>, starts: seq<Start>)

  datatype Event =
    | Submit(call: Call)
    | Repoint(pacing: Pacing)
    | Turn(now: int)
    | Begin(at: int)
    | Settle(at: int, ok: bool)

  function LastOf(s: Pacer, k: PacingClass): Option<int> { if k == OrderMutation then s.lastOrder else s.lastGeneral }

  function TurnWait(s: Pacer, k: PacingClass, now: int): int {
    Max(PacingWait(s.pacing, k, LastOf(s, k), now), PacingWait(s.pacing, OrderMutation, s.lastAny, now))
  }

  /** The clock does not run backwards and a wait of w milliseconds takes at least w. */
  predicate Possible(s: Pacer, e: Event) {
    match e
    case Submit(_) => true
    case Repoint(p) => p.orderMs >= 0 && p.generalMs >= 0
    case Turn(now) => s.phase == Idle && s.queue != [] && now >= s.clock
    case Begin(at) => s.phase.Waiting? && at >= s.clock && at >= s.phase.readyAt
    case Settle(at, _) => s.phase.Running? && at >= s.clock
  }

  function Next(s: Pacer, e: Event): Pacer
    requires Possible(s, e)
  {
    match e
    case Submit(call) => s.(queue := s.queue + [call], submitted := s.submitted + [call])
    case Repoint(p) => s.(pacing := p)
    case Turn(now) =>
      var call := s.queue[0];
      s.(queue := s.queue[1..], clock := now,
         phase := Waiting(call, s.pacing, now + TurnWait(s, call.k, now)))
    case Begin(at) =>
      var call := s.phase.call;
      s.(phase := Running(call), clock := at, lastAny := Some(at),
         lastOrder := if call.k == OrderMutation then Some(at) else s.lastOrder,
         lastGeneral := if call.k == General then Some(at) else s.lastGeneral,
         starts := s.starts + [Start(call, at, s.phase.pacing, None)])
    case Settle(at, _) =>
      s.(phase := Idle, clock := at,
         starts := if s.starts == [] then []
                   else s.starts[..|s.starts| - 1] + [s.starts[|s.starts| - 1].(done := Some(at))])
  }

  function Fresh(p: Pacing): Pacer { Pacer(p, None, None, None, [], Idle, 0, [], []) }

  /** The pacer after a run; an event that cannot happen in the current state does not. */
  function After(p: Pacing, es: seq<Event>): Pacer {
    if es == [] then Fresh(p)
    else
      var s := After(p, es[..|es| - 1]);
      if Possible(s, es[|es| - 1]) then Next(s, es[|es| - 1]) else s
  }

  class TransportPacer {
    var pacing: Pacing
    var lastOrderMutationAt: Option<int>
    var lastGeneralAt: Option<int>
    var lastAnyCallAt: Option<int>
    /** The chain of calls behind the current one, and what the current one is doing. */
    var tail: seq<Call>
    var phase: Phase
    ghost var clock: int
    ghost var submitted: seq<Call>
    ghost var starts: seq<Start>

    ghost function View(): Pacer
      reads this
    {
      Pacer(pacing, lastOrderMutationAt, lastGeneralAt, lastAnyCallAt, tail, phase, clock, submitted, starts)
    }

    constructor (pacing: Pacing)
      ensures View() == Fresh(pacing)
    {
      this.pacing := pacing;
      lastOrderMutationAt, lastGeneralAt, lastAnyCallAt := None, None, None;
      tail, phase := [], Idle;
      clock, submitted, starts := 0, [], [];
    }

    /** Watermarks are retained, so a broker switch cannot buy an unpaced burst. */
    method Repoint(pacing: Pacing)
      requires Possible(View(), Event.Repoint(pacing))
      modifies this
      ensures View() == Next(old(View()), Event.Repoint(pacing))
    {
      this.pacing := pacing;
    }

    method Submit(call: Call)
      modifies this
      ensures View() == Next(old(View()), Event.Submit(call))
    {
      tail := tail + [call];
      submitted := submitted + [call];
    }

    /** The head of the chain reads the clock and computes its wait. */
    method TakeTurn(now: int) returns (wait: int)
      requires Possible(View(), Turn(now))
      modifies this
      ensures View() == Next(old(View()), Turn(now))
      ensures wait == phase.readyAt - now
    {
      var call := tail[0];
      var last := if call.k == OrderMutation then lastOrderMutationAt else lastGeneralAt;
      var classWait := PacingWait(pacing, call.k, last, now);
      var absoluteWait := PacingWait(pacing, OrderMutation, lastAnyCallAt, now);
      wait := Max(classWait, absoluteWait);
      tail := tail[1..];
      phase := Waiting(call, pacing, now + wait);
      clock := now;
    }

    /** The wait is over: stamp the watermarks and start the operation. */
    method Begin(at: int)
      requires Possible(View(), Event.Begin(at))
      modifies this
      ensures View() == Next(old(View()), Event.Begin(at))
    {
      var call := phase.call;
      starts := starts + [Start(call, at, phase.pacing, None)];
      lastAnyCallAt := Some(at);
      if call.k == OrderMutation {
        lastOrderMutationAt := Some(at);
      } else {
        lastGeneralAt := Some(at);
      }
      phase := Running(call);
      clock := at;
    }

    /** The operation settled, well or badly: the chain moves on. */
    method Settle(at: int, ok: bool)
      requires Possible(View(), Event.Settle(at, ok))
      modifies this
      ensures View() == Next(old(View()), Event.Settle(at, ok))
    {
      phase := Idle;
      clock := at;
      if starts != [] {
        starts := starts[..|starts| - 1] + [starts[|starts| - 1].(done := Some(at))];
      }
    }
  }

  // ---------------------------------------------------------------- what every run keeps

  /** Any two starts are the absolute gap apart; two of the same class also that class's gap. */
  ghost predicate Spaced(starts: seq<Start>) {
    forall i, j :: 0 <= i < j < |starts| ==>
      && starts[i].at + starts[j].pacing.orderMs <= starts[j].at
      && (starts[i].call.k == starts[j].call.k ==>
            starts[i].at + Interval(starts[j].pacing, starts[j].call.k) <= starts[j].at)
  }

  /** An operation settles before the next one starts. */
  ghost predicate NoOverlap(starts: seq<Start>) {
    forall i, j :: 0 <= i < j < |starts| ==>
      starts[i].done.Some? && starts[i].at <= starts[i].done.value <= starts[j].at
  }

  function Calls(starts: seq<Start>): seq<Call> {
    seq(|starts|, i requires 0 <= i < |starts| => starts[i].call)
  }

  function Held(phase: Phase): seq<Call> { if phase.Waiting? then [phase.call] else [] }

  ghost predicate AtOrBefore(last: Option<int>, at: int) { last.Some? && at <= last.value }

  /** The watermarks are at or after every start they speak for. */
  ghost predicate Marked(s: Pacer) {
    forall i :: 0 <= i < |s.starts| ==>
      AtOrBefore(s.lastAny, s.starts[i].at) && AtOrBefore(LastOf(s, s.starts[i].call.k), s.starts[i].at)
  }

  ghost predicate MarksPast(s: Pacer) {
    && (s.lastAny.Some? ==> s.lastAny.value <= s.clock)
    && (s.lastOrder.Some? ==> s.lastOrder.value <= s.clock)
    && (s.lastGeneral.Some? ==> s.lastGeneral.value <= s.clock)
  }

  /** The wait being served is long enough for the call that is being held. */
  ghost predicate WaitCovers(s: Pacer) {
    s.phase.Waiting? ==>
      && (s.lastAny.Some? ==> s.lastAny.value + s.phase.pacing.orderMs <= s.phase.readyAt)
      && (LastOf(s, s.phase.call.k).Some? ==>
            LastOf(s, s.phase.call.k).value + Interval(s.phase.pacing, s.phase.call.k) <= s.phase.readyAt)
  }

  ghost predicate Settled(s: Pacer) {
    && (s.phase.Running? ==> s.starts != [] && s.starts[|s.starts| - 1].at <= s.clock)
    && (!s.phase.Running? ==> forall i :: 0 <= i < |s.starts| ==>
          s.starts[i].done.Some? && s.starts[i].at <= s.starts[i].done.value <= s.clock)
  }

  ghost predicate Inv(s: Pacer) {
    && s.pacing.orderMs >= 0 && s.pacing.generalMs >= 0
    && (s.phase.Waiting? ==> s.phase.pacing.orderMs >= 0 && s.phase.pacing.generalMs >= 0)
    && Marked(s) && MarksPast(s) && WaitCovers(s) && Settled(s)
    && Spaced(s.starts) && NoOverlap(s.starts)
    && Calls(s.starts) + Held(s.phase) + s.queue == s.submitted
  }

  lemma BeginKeeps(s: Pacer, at: int)
    requires Inv(s) && Possible(s, Begin(at))
    ensures Inv(Next(s, Begin(at)))
  {
    var s' := Next(s, Begin(at));
    assert Calls(s'.starts) == Calls(s.starts) + [s.phase.call];
    forall i | 0 <= i < |s.starts|
      ensures s.starts[i].at + s.phase.pacing.orderMs <= at
      ensures s.starts[i].call.k == s.phase.call.k ==>
                s.starts[i].at + Interval(s.phase.pacing, s.phase.call.k) <= at
    {
      assert AtOrBefore(s.lastAny, s.starts[i].at) && AtOrBefore(LastOf(s, s.starts[i].call.k), s.starts[i].at);
    }
  }

  lemma SettleKeeps(s: Pacer, at: int, ok: bool)
    requires Inv(s) && Possible(s, Settle(at, ok))
    ensures Inv(Next(s, Settle(at, ok)))
  {
    var s' := Next(s, Settle(at, ok));
    var n := |s.starts| - 1;
    assert forall i :: 0 <= i < n ==> s'.starts[i] == s.starts[i];
    assert s'.starts[n].call == s.starts[n].call && s'.starts[n].at == s.starts[n].at;
    assert Calls(s'.starts) == Calls(s.starts);
    forall i | 0 <= i < n ensures s.starts[i].done.Some? && s.starts[i].at <= s.starts[i].done.value <= s.clock {
      assert s.starts[i].done.value <= s.starts[n].at;
    }
  }

  lemma TurnKeeps(s: Pacer, now: int)
    requires Inv(s) && Possible(s, Turn(now))
    ensures Inv(Next(s, Turn(now)))
  {
    TurnCovers(s, now);
    TurnConserves(s, now);
  }

  lemma TurnCovers(s: Pacer, now: int)
    requires MarksPast(s) && Possible(s, Turn(now))
    ensures WaitCovers(Next(s, Turn(now))) && MarksPast(Next(s, Turn(now)))
  {}

  lemma TurnConserves(s: Pacer, now: int)
    requires Possible(s, Turn(now))
    ensures var s' := Next(s, Turn(now));
            Calls(s'.starts) + Held(s'.phase) + s'.queue == Calls(s.starts) + Held(s.phase) + s.queue
  {
    HeadMoves(Calls(s.starts), s.queue);
  }

  lemma HeadMoves(ahead: seq<Call>, queue: seq<Call>)
    requires queue != []
    ensures ahead + [] + queue == ahead + [queue[0]] + queue[1..]
  {}

  lemma AppendAssociates(ahead: seq<Call>, queue: seq<Call>, call: Call)
    ensures ahead + (queue + [call]) == (ahead + queue) + [call]
  {}

  lemma SubmitKeeps(s: Pacer, call: Call)
    requires Inv(s)
    ensures Inv(Next(s, Submit(call)))
  {
    AppendAssociates(Calls(s.starts) + Held(s.phase), s.queue, call);
  }

  lemma StepKeeps(s: Pacer, e: Event)
    requires Inv(s) && Possible(s, e)
    ensures Inv(Next(s, e))
  {
    match e
    case Submit(call) => SubmitKeeps(s, call);
    case Turn(now) => TurnKeeps(s, now);
    case Begin(at) => BeginKeeps(s, at);
    case Settle(at, ok) => SettleKeeps(s, at, ok);
    case Repoint(_) =>
  }

  /** For every run: operations never overlap, start in arrival order, and keep both gaps. */
  lemma {:induction false} EveryRunIsPaced(p: Pacing, es: seq<Event>)
    requires p.orderMs >= 0 && p.generalMs >= 0
    ensures Inv(After(p, es))
    ensures var s := After(p, es);
            && NoOverlap(s.starts) && Spaced(s.starts)
            && Calls(s.starts) + Held(s.phase) + s.queue == s.submitted
  {
    if es != [] {
      var s := After(p, es[..|es| - 1]);
      EveryRunIsPaced(p, es[..|es| - 1]);
      if Possible(s, es[|es| - 1]) { StepKeeps(s, es[|es| - 1]); }
    }
  }

  /** The figures of the two known brokers, and the stricter of both for any other. */
  lemma ProfilesAre(broker: string)
    ensures broker == "zerodha" ==> ProfileOf(broker).defaultMs == 110 && ProfileOf(broker).floorMs == 100
    ensures broker == "dhan" ==> ProfileOf(broker).defaultMs == 120 && ProfileOf(broker).floorMs == 120
    ensures broker != "zerodha" && broker != "dhan" ==>
              ProfileOf(broker).defaultMs == 120 && ProfileOf(broker).floorMs == 120
  {}

  /**
   A call waits no longer than it must: on a forward clock, any start at or after now that keeps both gaps
   is no earlier than the one it waits for.
   */
  lemma TurnWaitIsLeast(s: Pacer, k: PacingClass, now: int, at: int)
    requires s.pacing.orderMs >= 0 && s.pacing.generalMs >= 0 && now <= at
    requires LastOf(s, k).Some? ==> LastOf(s, k).value <= now && LastOf(s, k).value + Interval(s.pacing, k) <= at
    requires s.lastAny.Some? ==> s.lastAny.value <= now && s.lastAny.value + s.pacing.orderMs <= at
    ensures 0 <= TurnWait(s, k, now) && now + TurnWait(s, k, now) <= at
  {}

  /** n order calls, each made, waited for and settled as early as the pacer allows. */
  function TightRun(p: Pacing, n: nat): seq<Event> {
    if n == 0 then []
    else
      var t := (n - 1) * p.orderMs;
      TightRun(p, n - 1)
      + [Submit(Call(n, OrderMutation)), Turn(if n == 1 then 0 else t - p.orderMs), Begin(t), Settle(t, true)]
  }

  lemma OneStep(p: Pacing, es: seq<Event>, e: Event)
    ensures After(p, es + [e]) == Stepped(After(p, es), e)
  {
    assert (es + [e])[..|es|] == es;
  }

  lemma FourSteps(p: Pacing, es: seq<Event>, a: Event, b: Event, c: Event, d: Event)
    ensures After(p, es + [a, b, c, d]) == Stepped(Stepped(Stepped(Stepped(After(p, es), a), b), c), d)
  {
    OneStep(p, es, a);
    OneStep(p, es + [a], b);
    OneStep(p, es + [a] + [b], c);
    OneStep(p, es + [a] + [b] + [c], d);
    assert es + [a] + [b] + [c] + [d] == es + [a, b, c, d];
  }

  function Stepped(s: Pacer, e: Event): Pacer { if Possible(s, e) then Next(s, e) else s }

  /** Idle after n starts, the last of them one budget after the first. */
  ghost predicate TightAfter(s: Pacer, p: Pacing, n: nat) {
    && s.pacing == p && s.phase == Idle && s.queue == [] && |s.starts| == n
    && s.clock == BurstBudget(p, n)
    && (n > 0 ==> s.lastAny == Some(s.clock) && s.lastOrder == Some(s.clock))
    && (n > 0 ==> s.starts[0].at == 0 && s.starts[n - 1].at == BurstBudget(p, n))
    && (n == 0 ==> s.lastAny == None && s.lastOrder == None)
  }

  lemma BudgetGrows(p: Pacing, n: nat)
    requires n >= 1
    ensures BurstBudget(p, n) == (n - 1) * p.orderMs
    ensures n >= 2 ==> BurstBudget(p, n) == BurstBudget(p, n - 1) + p.orderMs
  {}

  lemma TightStep(s: Pacer, p: Pacing, n: nat, call: Call, t: int)
    requires n >= 1 && p.orderMs >= 0 && p.generalMs >= 0 && TightAfter(s, p, n - 1) && call.k == OrderMutation
    requires t == BurstBudget(p, n)
    ensures var s1 := Stepped(s, Submit(call));
            var s2 := Stepped(s1, Turn(if n == 1 then 0 else t - p.orderMs));
            TightAfter(Stepped(Stepped(s2, Begin(t)), Settle(t, true)), p, n)
  {
    BudgetGrows(p, n);
    var s1 := Stepped(s, Submit(call));
    assert s1.queue == [call];
    var s2 := Stepped(s1, Turn(if n == 1 then 0 else t - p.orderMs));
    assert s2.phase.Waiting? && s2.phase.readyAt == t;
    var s3 := Stepped(s2, Begin(t));
    assert s3.phase == Running(call) && |s3.starts| == n && s3.starts[n - 1].at == t;
  }

  /** And the bound is attained: some run of n calls takes exactly the budget from first to last start. */
  lemma {:induction false} BurstBudgetIsTight(p: Pacing, n: nat)
    requires p.orderMs >= 0 && p.generalMs >= 0
    ensures TightAfter(After(p, TightRun(p, n)), p, n)
  {
    if n > 0 {
      BurstBudgetIsTight(p, n - 1);
      BudgetGrows(p, n);
      var t := (n - 1) * p.orderMs;
      var call := Call(n, OrderMutation);
      var turn := Turn(if n == 1 then 0 else t - p.orderMs);
      FourSteps(p, TightRun(p, n - 1), Submit(call), turn, Begin(t), Settle(t, true));
      TightStep(After(p, TightRun(p, n - 1)), p, n, call, t);
    }
  }

  /** While the pacing is unchanged, the budget is a true lower bound on first-to-last start time. */
  lemma {:induction false} BurstTakesAtLeastBudget(starts: seq<Start>, p: Pacing, i: nat, j: nat)
    requires Spaced(starts) && i <= j < |starts|
    requires forall m :: i < m <= j ==> starts[m].pacing == p
    ensures starts[i].at + BurstBudget(p, j - i + 1) <= starts[j].at
    decreases j - i
  {
    if i < j {
      BurstTakesAtLeastBudget(starts, p, i, j - 1);
      assert (j - i) * p.orderMs == (j - i - 1) * p.orderMs + p.orderMs;
    }
  }

  /** The pacing came out of the resolution of some broker and some overrides. */
  ghost predicate IsResolved(p: Pacing) {
    exists broker, general, orderOverride :: p == ResolvePacing(broker, general, orderOverride)
  }

  lemma ResolvedHasFloor(p: Pacing)
    requires IsResolved(p)
    ensures p.orderMs >= p.floorMs >= 100 && p.generalMs >= 0
  {
    var broker, general, orderOverride :| p == ResolvePacing(broker, general, orderOverride);
    assert ProfileOf(broker).floorMs >= 100;
  }

  ghost predicate OnlyResolved(es: seq<Event>) {
    forall m :: 0 <= m < |es| && es[m].Repoint? ==> IsResolved(es[m].pacing)
  }

  lemma {:induction false} PacingsAreResolved(p: Pacing, es: seq<Event>)
    requires IsResolved(p) && OnlyResolved(es)
    ensures HoldsResolved(After(p, es))
  {
    if es != [] {
      assert forall m :: 0 <= m < |es| - 1 ==> es[..|es| - 1][m] == es[m];
      PacingsAreResolved(p, es[..|es| - 1]);
      var s, e := After(p, es[..|es| - 1]), es[|es| - 1];
      if Possible(s, e) { ResolvedStep(s, e); }
    }
  }

  ghost predicate HoldsResolved(s: Pacer) {
    && IsResolved(s.pacing) && (s.phase.Waiting? ==> IsResolved(s.phase.pacing))
    && forall m :: 0 <= m < |s.starts| ==> IsResolved(s.starts[m].pacing)
  }

  lemma ResolvedStep(s: Pacer, e: Event)
    requires Possible(s, e) && HoldsResolved(s) && (e.Repoint? ==> IsResolved(e.pacing))
    ensures HoldsResolved(Next(s, e))
  {}

  /**
   However operators override the gap and however often the pacer is repointed to another broker, a call
   starts no closer to any earlier one than the floor of the broker it waited under.
   */
  lemma FloorAlwaysHolds(p: Pacing, es: seq<Event>, i: nat, j: nat)
    requires IsResolved(p) && OnlyResolved(es) && i < j < |After(p, es).starts|
    ensures var starts := After(p, es).starts;
            starts[j].at - starts[i].at >= starts[j].pacing.floorMs >= 100 && IsResolved(starts[j].pacing)
  {
    ResolvedHasFloor(p);
    EveryRunIsPaced(p, es);
    PacingsAreResolved(p, es);
    ResolvedHasFloor(After(p, es).starts[j].pacing);
  }
}
