/**
 Waking a poll loop on a stream observation: a set of parked waiters per order, and a latch for an
 observation that found nobody parked.
 */
module OrderSignals {
  datatype Registry = Registry(waiters: map<string, set<nat>>, pending: set<string>)

  predicate Parked(r: Registry, id: string, w: nat) { id in r.waiters && w in r.waiters[id] }

  /** Entering a wait: a latched observation is consumed instead of parking. */
  function Entered(r: Registry, id: string, w: nat): (Registry, bool) {
    if id in r.pending then (r.(pending := r.pending - {id}), true)
    else
      var parked := if id in r.waiters then r.waiters[id] else {};
      (r.(waiters := r.waiters[id := parked + {w}]), false)
  }

  function Left(r: Registry, id: string, w: nat): Registry {
    if id !in r.waiters then r
    else
      var rest := r.waiters[id] - {w};
      if rest == {} then r.(waiters := r.waiters - {id}) else r.(waiters := r.waiters[id := rest])
  }

  /** An observation of one order: wake its waiters, or latch. */
  function Signalled(r: Registry, id: string): (Registry, set<nat>) {
    if id !in r.waiters || r.waiters[id] == {} then (r.(pending := r.pending + {id}), {})
    else (r, r.waiters[id])
  }

  class ObservationSignals {
    var orderWaiters: map<string, set<nat>>
    var pendingObservation: set<string>

    function View(): Registry
      reads this
    {
      Registry(orderWaiters, pendingObservation)
    }

    constructor ()
      ensures View() == Registry(map[], {})
    {
      orderWaiters, pendingObservation := map[], {};
    }

    method Enter(id: string, w: nat) returns (immediate: bool)
      modifies this
      ensures (View(), immediate) == Entered(old(View()), id, w)
    {
      if id in pendingObservation {
        pendingObservation := pendingObservation - {id};
        return true;
      }
      if id !in orderWaiters { orderWaiters := orderWaiters[id := {}]; }
      orderWaiters := orderWaiters[id := orderWaiters[id] + {w}];
      assert old(orderWaiters)[id := {}][id := orderWaiters[id]] == old(orderWaiters)[id := orderWaiters[id]];
      return false;
    }

    method Leave(id: string, w: nat)
      modifies this
      ensures View() == Left(old(View()), id, w)
    {
      if id !in orderWaiters { return; }
      orderWaiters := orderWaiters[id := orderWaiters[id] - {w}];
      if orderWaiters[id] == {} { orderWaiters := orderWaiters - {id}; }
    }

    method Wake(id: string) returns (woken: set<nat>)
      modifies this
      ensures (View(), woken) == Signalled(old(View()), id)
    {
      if id !in orderWaiters || orderWaiters[id] == {} {
        pendingObservation := pendingObservation + {id};
        return {};
      }
      return orderWaiters[id];
    }
  }

  // ---------------------------------------------------------------- one waiter on one order

  /**
   The poll loop of one order: about to wait, asleep, with its sleep settled but not yet resumed, or
   resumed and about to read the session snapshot.
   */
  datatype Loop = Deciding | Asleep | Settled | Resumed

  /** `applied` observations were merged into the snapshot; the loop has read `seen` of them. */
  datatype System = System(registry: Registry, loop: Loop, applied: nat, seen: nat)

  datatype Event =
    | Wait
    | Observed
    | Timer
    | Resume
    | ReadSnapshot
    | OtherEnter(id: string, w: nat)
    | OtherLeave(id: string, w: nat)
    | OtherObserved(id: string)

  function Step(s: System, e: Event, id: string, w: nat): System {
    match e
    case Wait =>
      if s.loop != Deciding then s else
      var (r, immediate) := Entered(s.registry, id, w);
      s.(registry := r, loop := if immediate then Resumed else Asleep)
    case Observed =>
      var (r, woken) := Signalled(s.registry, id);
      s.(registry := r, applied := s.applied + 1, loop := if s.loop == Asleep && w in woken then Settled else s.loop)
    case Timer => if s.loop == Asleep then s.(loop := Settled) else s
    case Resume => if s.loop == Settled then s.(registry := Left(s.registry, id, w), loop := Resumed) else s
    case ReadSnapshot => if s.loop == Resumed then s.(loop := Deciding, seen := s.applied) else s
    case OtherEnter(other, v) => if other == id then s else s.(registry := Entered(s.registry, other, v).0)
    case OtherLeave(other, v) => if other == id then s else s.(registry := Left(s.registry, other, v))
    case OtherObserved(other) => if other == id then s else s.(registry := Signalled(s.registry, other).0)
  }

  function Start(): System { System(Registry(map[], {}), Deciding, 0, 0) }

  function After(es: seq<Event>, id: string, w: nat): System {
    if es == [] then Start() else Step(After(es[..|es| - 1], id, w), es[|es| - 1], id, w)
  }

  ghost predicate Inv(s: System, id: string, w: nat) {
    && (s.loop == Asleep || s.loop == Settled <==> Parked(s.registry, id, w))
    && (id in s.registry.waiters ==> s.registry.waiters[id] == {w})
    && s.seen <= s.applied
    && (s.loop == Asleep ==> s.seen == s.applied)
    && (s.loop == Deciding && s.seen < s.applied ==> id in s.registry.pending)
  }

  lemma StepKeeps(s: System, e: Event, id: string, w: nat)
    requires Inv(s, id, w)
    ensures Inv(Step(s, e, id, w), id, w)
  {
    match e
    case Wait =>
    case Observed => assert s.loop == Asleep ==> w in Signalled(s.registry, id).1;
    case Timer =>
    case Resume =>
    case ReadSnapshot =>
    case OtherEnter(other, v) =>
    case OtherLeave(other, v) =>
    case OtherObserved(other) =>
  }

  /** In every run the loop is never asleep while there is an observation it has not read. */
  lemma {:induction false} NeverAsleepOnUnseen(es: seq<Event>, id: string, w: nat)
    ensures Inv(After(es, id, w), id, w)
    ensures After(es, id, w).loop == Asleep ==> After(es, id, w).seen == After(es, id, w).applied
  {
    if es != [] {
      NeverAsleepOnUnseen(es[..|es| - 1], id, w);
      StepKeeps(After(es[..|es| - 1], id, w), es[|es| - 1], id, w);
    }
  }

  /** A sleep always ends by its timer, stream or no stream, and the loop then reads everything applied. */
  lemma TimerEndsSleep(s: System, id: string, w: nat)
    requires s.loop == Asleep
    ensures var read := Step(Step(Step(s, Timer, id, w), Resume, id, w), ReadSnapshot, id, w);
            read.loop == Deciding && read.seen == s.applied && !Parked(read.registry, id, w)
  {}

  function From(s: System, es: seq<Event>, id: string, w: nat): System {
    if es == [] then s else Step(From(s, es[..|es| - 1], id, w), es[|es| - 1], id, w)
  }

  lemma {:induction false} LatchHolds(s: System, es: seq<Event>, id: string, w: nat)
    requires id in s.registry.pending && forall i :: 0 <= i < |es| ==> es[i] != Wait
    ensures id in From(s, es, id, w).registry.pending
  {
    if es != [] { LatchHolds(s, es[..|es| - 1], id, w); }
  }

  /**
   No lost wake-up: an observation either settles the sleep in progress (or one already settled), or,
   whatever happens before the next wait, makes that wait return without sleeping.
   */
  lemma ObservationIsNotLost(es: seq<Event>, later: seq<Event>, id: string, w: nat)
    requires forall i :: 0 <= i < |later| ==> later[i] != Wait
    ensures var before := After(es, id, w);
            var after := Step(before, Observed, id, w);
            || (Parked(before.registry, id, w) && after.loop == Settled)
            || Step(From(after, later, id, w), Wait, id, w).loop != Asleep
  {
    NeverAsleepOnUnseen(es, id, w);
    var before := After(es, id, w);
    var after := Step(before, Observed, id, w);
    if !Parked(before.registry, id, w) {
      LatchHolds(after, later, id, w);
      NotAsleepUntilWait(after, later, id, w);
    }
  }

  lemma {:induction false} NotAsleepUntilWait(s: System, es: seq<Event>, id: string, w: nat)
    requires s.loop != Asleep && forall i :: 0 <= i < |es| ==> es[i] != Wait
    ensures From(s, es, id, w).loop != Asleep
  {
    if es != [] { NotAsleepUntilWait(s, es[..|es| - 1], id, w); }
  }

  // ---------------------------------------------------------------- any number of waiters

  /** What any waiter and the stream do to the registry. */
  datatype Touch = Enters(id: string, w: nat) | Leaves(id: string, w: nat) | Observes(id: string)

  function Touched(r: Registry, t: Touch): Registry {
    match t
    case Enters(id, w) => Entered(r, id, w).0
    case Leaves(id, w) => Left(r, id, w)
    case Observes(id) => Signalled(r, id).0
  }

  function Registered(ts: seq<Touch>): Registry {
    if ts == [] then Registry(map[], {}) else Touched(Registered(ts[..|ts| - 1]), ts[|ts| - 1])
  }

  predicate NobodyParked(r: Registry, id: string) { id !in r.waiters || r.waiters[id] == {} }

  predicate EntersOn(t: Touch, id: string) { t.Enters? && t.id == id }

  /** At position k an observation found nobody parked, and nobody has entered a wait on the order since. */
  ghost predicate LatchedAt(ts: seq<Touch>, id: string, k: nat)
    requires k < |ts|
  {
    && ts[k] == Observes(id) && NobodyParked(Registered(ts[..k]), id)
    && forall j :: k < j < |ts| ==> !EntersOn(ts[j], id)
  }

  ghost predicate Unclaimed(ts: seq<Touch>, id: string) { exists k :: 0 <= k < |ts| && LatchedAt(ts, id, k) }

  lemma LatchedAtStep(ts: seq<Touch>, t: Touch, id: string, k: nat)
    requires k < |ts|
    ensures LatchedAt(ts + [t], id, k) <==> LatchedAt(ts, id, k) && !EntersOn(t, id)
  {
    var all := ts + [t];
    assert all[..k] == ts[..k] && all[|ts|] == t;
    assert forall j :: 0 <= j < |ts| ==> all[j] == ts[j];
  }

  lemma UnclaimedStep(ts: seq<Touch>, t: Touch, id: string)
    ensures Unclaimed(ts + [t], id) <==>
            || (t == Observes(id) && NobodyParked(Registered(ts), id))
            || (Unclaimed(ts, id) && !EntersOn(t, id))
  {
    var all := ts + [t];
    assert all[..|ts|] == ts && all[|ts|] == t;
    assert LatchedAt(all, id, |ts|) <==> t == Observes(id) && NobodyParked(Registered(ts), id);
    forall k | 0 <= k < |ts| ensures LatchedAt(all, id, k) <==> LatchedAt(ts, id, k) && !EntersOn(t, id) {
      LatchedAtStep(ts, t, id, k);
    }
  }

  /**
   For any number of waiters and every run, a wait returns without sleeping exactly when some
   observation of its order found nobody parked and no waiter has entered a wait on it since.
   */
  lemma {:induction false} WaitReturnsAtOnceIff(ts: seq<Touch>, id: string, w: nat)
    ensures Entered(Registered(ts), id, w).1 <==> Unclaimed(ts, id)
  {
    if ts != [] {
      var before, t := ts[..|ts| - 1], ts[|ts| - 1];
      assert ts == before + [t];
      WaitReturnsAtOnceIff(before, id, w);
      UnclaimedStep(before, t, id);
    }
  }

  function TouchedAll(r: Registry, ts: seq<Touch>): Registry {
    if ts == [] then r else Touched(TouchedAll(r, ts[..|ts| - 1]), ts[|ts| - 1])
  }

  /**
   So of all waiters only the first to enter profits from an observation that found nobody parked:
   until the next observation, a wait returns at once exactly when nobody has entered one since.
   */
  lemma {:induction false} LatchServesFirstEntrant(r: Registry, ts: seq<Touch>, id: string, w: nat)
    requires NobodyParked(r, id) && forall i :: 0 <= i < |ts| ==> ts[i] != Observes(id)
    ensures Entered(TouchedAll(Signalled(r, id).0, ts), id, w).1 <==> forall i :: 0 <= i < |ts| ==> !EntersOn(ts[i], id)
  {
    if ts != [] {
      var before, t := ts[..|ts| - 1], ts[|ts| - 1];
      LatchServesFirstEntrant(r, before, id, w);
      assert forall i :: 0 <= i < |before| ==> ts[i] == before[i];
    }
  }

  /** With two waiters on one order the latch serves only the first; the second sleeps on the news. */
  lemma SecondWaiterMissesLatch(r: Registry, id: string, first: nat, second: nat)
    requires NobodyParked(r, id)
    ensures var latched := Signalled(r, id).0;
            var served := Entered(latched, id, first);
            var missed := Entered(served.0, id, second);
            served.1 && !missed.1 && Parked(missed.0, id, second)
  {}
}
