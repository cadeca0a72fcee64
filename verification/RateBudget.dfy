/**
 The rolling-window order budget of one broker account: placements, recovery requests and cooldowns
 over the published windows. The ledger prunes its timestamps; the law is about the full history.
 Times are milliseconds.
 */
module RateBudget {
  import opened Common

  const SECOND := 1000
  const MINUTE := 60 * SECOND
  const HOUR := 60 * MINUTE
  const DAY := 24 * HOUR

  datatype Endpoint = OrderPlace | OrderModify | OrderCancel | DataRead

  predicate IsOrder(k: Endpoint) { k != DataRead }

  predicate IsRecovery(k: Endpoint) { k == OrderCancel || k == OrderModify }

  /** `limit == None` is an explicitly unlimited window. */
  datatype RateWindow = RateWindow(spanMs: int, limit: Option<int>)

  datatype Limits = Limits(perSecond: RateWindow, perMinute: RateWindow, perHour: RateWindow, perDay: RateWindow)

  datatype Policy = Policy(workerCount: int, reserveFraction: real)

  const ZERODHA := Limits(RateWindow(SECOND, Some(10)), RateWindow(MINUTE, Some(400)),
                          RateWindow(HOUR, None), RateWindow(DAY, Some(5000)))

  const DHAN := Limits(RateWindow(SECOND, Some(10)), RateWindow(MINUTE, Some(250)),
                       RateWindow(HOUR, Some(1000)), RateWindow(DAY, Some(7000)))

  const DEFAULT_POLICY := Policy(1, 0.2)

  function Windows(limits: Limits): seq<RateWindow> {
    [limits.perSecond, limits.perMinute, limits.perHour, limits.perDay]
  }

  /** A policy from operator overrides; absent or out-of-range values fall back to the default. */
  function ResolvePolicy(workers: Option<real>, reserve: Option<real>): (p: Policy)
    ensures Sensible(p)
    ensures workers.Some? && workers.value >= 1.0 ==>
              p.workerCount as real <= workers.value < p.workerCount as real + 1.0
    ensures workers.None? || workers.value < 1.0 ==> p.workerCount == 1
    ensures p.reserveFraction == if reserve.Some? && 0.0 <= reserve.value <= 0.5 then reserve.value else 0.2
  {
    Policy(if workers.Some? && workers.value >= 1.0 then workers.value.Floor else 1,
           if reserve.Some? && 0.0 <= reserve.value <= 0.5 then reserve.value else DEFAULT_POLICY.reserveFraction)
  }

  predicate Sensible(p: Policy) { p.workerCount >= 1 && 0.0 <= p.reserveFraction <= 0.5 }

  // ---------------------------------------------------------------- budgets

  datatype Budget = Budget(spanMs: int, accountLimit: Option<int>, perWorker: int, placement: int, reserve: int)

  function Ceil(x: real): int { -((-x).Floor) }

  /** One worker's share of a window, with the part of it placements may not touch. */
  function BudgetOf(w: RateWindow, policy: Policy): Budget {
    if w.limit.None? then Budget(w.spanMs, None, 0, 0, 0) else
    var perWorker := Max(0, w.limit.value / Max(1, policy.workerCount));
    var reserve := Ceil(perWorker as real * policy.reserveFraction);
    Budget(w.spanMs, w.limit, perWorker, Max(0, perWorker - reserve), reserve)
  }

  function PlacementBudgets(limits: Limits, policy: Policy): seq<Budget> {
    [BudgetOf(limits.perSecond, policy), BudgetOf(limits.perMinute, policy),
     BudgetOf(limits.perHour, policy), BudgetOf(limits.perDay, policy)]
  }

  function Ceiling(b: Budget, recovery: bool): int { if recovery then b.perWorker else b.placement }

  lemma QuotientIsGreatest(a: int, b: int)
    requires a >= 0 && b >= 1
    ensures 0 <= a / b && (a / b) * b <= a < (a / b + 1) * b
  {
    assert a == (a / b) * b + a % b;
    assert (a / b + 1) * b == (a / b) * b + b;
  }

  /** Placement and reserve are exactly the worker's share, the greatest that all workers can have at once. */
  lemma ReserveSplitsShare(w: RateWindow, policy: Policy)
    requires Sensible(policy) && w.limit.Some?
    ensures var b := BudgetOf(w, policy);
            && b.placement + b.reserve == b.perWorker && 0 <= b.placement && 0 <= b.reserve
            && b.spanMs == w.spanMs && b.accountLimit == w.limit
            && (w.limit.value >= 0 ==>
                  b.perWorker * policy.workerCount <= w.limit.value < (b.perWorker + 1) * policy.workerCount)
  {
    var perWorker := BudgetOf(w, policy).perWorker;
    if w.limit.value >= 0 { QuotientIsGreatest(w.limit.value, policy.workerCount); }
    assert 0.0 <= perWorker as real * policy.reserveFraction <= perWorker as real;
  }

  // ---------------------------------------------------------------- decisions over a request history

  function CountAfter(ts: seq<int>, cutoff: int): nat {
    if ts == [] then 0
    else CountAfter(ts[..|ts| - 1], cutoff) + (if ts[|ts| - 1] > cutoff then 1 else 0)
  }

  function OldestAfter(ts: seq<int>, cutoff: int, start: int): int {
    if ts == [] then start
    else
      var rest := OldestAfter(ts[..|ts| - 1], cutoff, start);
      var t := ts[|ts| - 1];
      if t > cutoff && t < rest then t else rest
  }

  /** What has been sent, and until when a throttle answer forbids more. */
  datatype History = History(placements: seq<int>, recoveries: seq<int>, cooldownUntil: Option<int>)

  function Used(h: History, spanMs: int, now: int): nat {
    CountAfter(h.placements, now - spanMs) + CountAfter(h.recoveries, now - spanMs)
  }

  function OldestInWindow(h: History, spanMs: int, now: int): int {
    OldestAfter(h.recoveries, now - spanMs, OldestAfter(h.placements, now - spanMs, now))
  }

  predicate CoolingDown(h: History, now: int) { h.cooldownUntil.Some? && now < h.cooldownUntil.value }

  predicate Binds(b: Budget, recovery: bool, h: History, now: int) {
    b.accountLimit.Some? && Used(h, b.spanMs, now) >= Ceiling(b, recovery)
  }

  function FirstBinding(bs: seq<Budget>, recovery: bool, h: History, now: int, i: nat): (r: Option<nat>)
    requires i <= |bs|
    ensures r.Some? ==> i <= r.value < |bs| && Binds(bs[r.value], recovery, h, now)
    ensures r.Some? ==> forall j :: i <= j < r.value ==> !Binds(bs[j], recovery, h, now)
    ensures r.None? ==> forall j :: i <= j < |bs| ==> !Binds(bs[j], recovery, h, now)
    decreases |bs| - i
  {
    if i == |bs| then None
    else if Binds(bs[i], recovery, h, now) then Some(i)
    else FirstBinding(bs, recovery, h, now, i + 1)
  }

  datatype Decision = Allowed | Cooldown(until: int) | Exhausted(window: nat, until: int)

  function RetryAt(d: Decision): int
    requires d != Allowed
  {
    d.until
  }

  /** May one more request of this class go out now? */
  function Decide(bs: seq<Budget>, h: History, k: Endpoint, now: int): Decision {
    if !IsOrder(k) then Allowed
    else if CoolingDown(h, now) then Cooldown(h.cooldownUntil.value)
    else
      var first := FirstBinding(bs, IsRecovery(k), h, now, 0);
      if first.None? then Allowed
      else Exhausted(first.value, OldestInWindow(h, bs[first.value].spanMs, now) + bs[first.value].spanMs)
  }

  function Recorded(h: History, k: Endpoint, now: int): History {
    if !IsOrder(k) then h
    else if IsRecovery(k) then h.(recoveries := h.recoveries + [now])
    else h.(placements := h.placements + [now])
  }

  function Penalized(penaltyMs: int, h: History, now: int, retryAfterMs: Option<int>): History {
    var cooldown := if retryAfterMs.Some? && retryAfterMs.value > 0 then retryAfterMs.value else penaltyMs;
    if h.cooldownUntil.None? || now + cooldown > h.cooldownUntil.value
    then h.(cooldownUntil := Some(now + cooldown)) else h
  }

  // ---------------------------------------------------------------- the pruning ledger

  function Horizon(limits: Limits): int { MaxSpan(Windows(limits), DAY) }

  /** The longest finite span, or `fallback` when every window is unlimited. */
  function MaxSpan(ws: seq<RateWindow>, fallback: int): (m: int)
    ensures forall i :: 0 <= i < |ws| && ws[i].limit.Some? ==> ws[i].spanMs <= m
  {
    if forall i :: 0 <= i < |ws| ==> ws[i].limit.None? then fallback
    else
      var rest := ws[1..];
      if ws[0].limit.None? then MaxSpan(rest, fallback)
      else if forall i :: 0 <= i < |rest| ==> rest[i].limit.None? then ws[0].spanMs
      else Max(ws[0].spanMs, MaxSpan(rest, fallback))
  }

  lemma {:induction false} CountDropsOld(ts: seq<int>, k: nat, cutoff: int)
    requires k <= |ts| && forall i :: 0 <= i < k ==> ts[i] <= cutoff
    ensures CountAfter(ts[k..], cutoff) == CountAfter(ts, cutoff)
  {
    if k == |ts| {
      if k > 0 {
        CountDropsOld(ts[..k - 1], k - 1, cutoff);
      }
    } else {
      var before := ts[..|ts| - 1];
      CountDropsOld(before, k, cutoff);
      assert ts[k..][..|ts| - k - 1] == before[k..];
    }
  }

  lemma {:induction false} OldestDropsOld(ts: seq<int>, k: nat, cutoff: int, start: int)
    requires k <= |ts| && forall i :: 0 <= i < k ==> ts[i] <= cutoff
    ensures OldestAfter(ts[k..], cutoff, start) == OldestAfter(ts, cutoff, start)
  {
    if k == |ts| {
      if k > 0 {
        OldestDropsOld(ts[..k - 1], k - 1, cutoff, start);
      }
    } else {
      var before := ts[..|ts| - 1];
      OldestDropsOld(before, k, cutoff, start);
      assert ts[k..][..|ts| - k - 1] == before[k..];
    }
  }

  /** The oldest timestamps were dropped, and each of them is at or before `cutoff`. */
  ghost predicate PrunedTo(kept: seq<int>, all: seq<int>, cutoff: int) {
    && |kept| <= |all|
    && (forall j :: 0 <= j < |kept| ==> kept[j] == all[|all| - |kept| + j])
    && forall i :: 0 <= i < |all| - |kept| ==> all[i] <= cutoff
  }

  /** Two ledgers that agree above `cutoff`. */
  ghost predicate AgreeAfter(kept: History, all: History, cutoff: int) {
    && PrunedTo(kept.placements, all.placements, cutoff)
    && PrunedTo(kept.recoveries, all.recoveries, cutoff)
    && kept.cooldownUntil == all.cooldownUntil
  }

  lemma DropHead(kept: seq<int>, all: seq<int>, cutoff: int)
    requires PrunedTo(kept, all, cutoff) && kept != [] && kept[0] <= cutoff
    ensures PrunedTo(kept[1..], all, cutoff)
  {
    assert kept[0] == all[|all| - |kept|];
  }

  lemma UsedAgrees(kept: History, all: History, cutoff: int, spanMs: int, now: int)
    requires AgreeAfter(kept, all, cutoff) && cutoff <= now - spanMs
    ensures Used(kept, spanMs, now) == Used(all, spanMs, now)
    ensures OldestInWindow(kept, spanMs, now) == OldestInWindow(all, spanMs, now)
  {
    var c := now - spanMs;
    var p := |all.placements| - |kept.placements|;
    var r := |all.recoveries| - |kept.recoveries|;
    assert kept.placements == all.placements[p..] && kept.recoveries == all.recoveries[r..];
    CountDropsOld(all.placements, p, c);
    CountDropsOld(all.recoveries, r, c);
    OldestDropsOld(all.placements, p, c, now);
    OldestDropsOld(all.recoveries, r, c, OldestAfter(all.placements, c, now));
  }

  /** What a ledger goes by: its budgets, how far back any of them looks, and the least a throttle costs. */
  datatype Rules = Rules(budgets: seq<Budget>, horizonMs: int, penaltyMs: int)

  function RulesOf(limits: Limits, policy: Policy): (r: Rules)
    ensures SpansWithin(r)
  {
    assert forall i :: 0 <= i < 4 ==> PlacementBudgets(limits, policy)[i].accountLimit == Windows(limits)[i].limit;
    Rules(PlacementBudgets(limits, policy), Horizon(limits), limits.perSecond.spanMs)
  }

  ghost predicate SpansWithin(r: Rules) {
    forall i :: 0 <= i < |r.budgets| && r.budgets[i].accountLimit.Some? ==> r.budgets[i].spanMs <= r.horizonMs
  }

  lemma AgreeLater(kept: History, all: History, cutoff: int, cutoff': int)
    requires AgreeAfter(kept, all, cutoff) && cutoff <= cutoff'
    ensures AgreeAfter(kept, all, cutoff')
  {}

  lemma PrunedAppend(kept: seq<int>, all: seq<int>, cutoff: int, t: int)
    requires PrunedTo(kept, all, cutoff)
    ensures PrunedTo(kept + [t], all + [t], cutoff)
  {}

  lemma RecordedAgrees(kept: History, all: History, cutoff: int, k: Endpoint, now: int)
    requires AgreeAfter(kept, all, cutoff)
    ensures AgreeAfter(Recorded(kept, k, now), Recorded(all, k, now), cutoff)
  {
    PrunedAppend(kept.placements, all.placements, cutoff, now);
    PrunedAppend(kept.recoveries, all.recoveries, cutoff, now);
  }

  /** Shift the head off while it is at or before the cutoff. */
  method WithoutExpired(ts: seq<int>, ghost all: seq<int>, cutoff: int) returns (kept: seq<int>)
    requires PrunedTo(ts, all, cutoff)
    ensures PrunedTo(kept, all, cutoff) && (kept != [] ==> kept[0] > cutoff)
  {
    kept := ts;
    while |kept| > 0 && kept[0] <= cutoff
      invariant PrunedTo(kept, all, cutoff)
      decreases |kept|
    {
      DropHead(kept, all, cutoff);
      kept := kept[1..];
    }
  }

  class RateBudgetLedger {
    /** Fixed by the account's limits and the policy. */
    const rules: Rules
    var placementTimes: seq<int>
    var recoveryTimes: seq<int>
    var cooldownUntil: Option<int>
    var penalties: nat
    var placementRefusals: nat
    var recoveryRefusals: nat
    /** Every request ever recorded, and the latest instant the ledger was used at. */
    ghost var full: History
    ghost var clock: int

    ghost function Kept(): History
      reads this
    {
      History(placementTimes, recoveryTimes, cooldownUntil)
    }

    ghost predicate Valid()
      reads this
    {
      SpansWithin(rules) && AgreeAfter(Kept(), full, clock - rules.horizonMs)
    }

    /** The injected clock never runs backwards. */
    ghost predicate Later(now: int)
      reads this
    {
      clock <= now
    }

    constructor (limits: Limits, policy: Policy, ghost epoch: int)
      ensures Valid() && full == History([], [], None) && clock == epoch
      ensures rules == RulesOf(limits, policy)
      ensures penalties == placementRefusals == recoveryRefusals == 0
    {
      rules := RulesOf(limits, policy);
      placementTimes, recoveryTimes, cooldownUntil := [], [], None;
      penalties, placementRefusals, recoveryRefusals := 0, 0, 0;
      full, clock := History([], [], None), epoch;
    }

    method Prune(now: int)
      requires Valid() && Later(now)
      modifies this`placementTimes, this`recoveryTimes, this`clock
      ensures Valid() && clock == now
    {
      var cutoff := now - rules.horizonMs;
      AgreeLater(Kept(), full, clock - rules.horizonMs, cutoff);
      var placements := WithoutExpired(placementTimes, full.placements, cutoff);
      var recoveries := WithoutExpired(recoveryTimes, full.recoveries, cutoff);
      placementTimes, recoveryTimes, clock := placements, recoveries, now;
    }

    method CountWithin(spanMs: int, now: int) returns (n: nat)
      ensures n == Used(Kept(), spanMs, now)
    {
      var cutoff := now - spanMs;
      n := 0;
      for i := 0 to |placementTimes|
        invariant n == CountAfter(placementTimes[..i], cutoff)
      {
        assert placementTimes[..i + 1][..i] == placementTimes[..i];
        if placementTimes[i] > cutoff { n := n + 1; }
      }
      assert placementTimes[..|placementTimes|] == placementTimes;
      for i := 0 to |recoveryTimes|
        invariant n == CountAfter(placementTimes, cutoff) + CountAfter(recoveryTimes[..i], cutoff)
      {
        assert recoveryTimes[..i + 1][..i] == recoveryTimes[..i];
        if recoveryTimes[i] > cutoff { n := n + 1; }
      }
      assert recoveryTimes[..|recoveryTimes|] == recoveryTimes;
    }

    method Oldest(spanMs: int, now: int) returns (oldest: int)
      ensures oldest == OldestInWindow(Kept(), spanMs, now)
    {
      var cutoff := now - spanMs;
      oldest := now;
      for i := 0 to |placementTimes|
        invariant oldest == OldestAfter(placementTimes[..i], cutoff, now)
      {
        assert placementTimes[..i + 1][..i] == placementTimes[..i];
        if placementTimes[i] > cutoff && placementTimes[i] < oldest { oldest := placementTimes[i]; }
      }
      assert placementTimes[..|placementTimes|] == placementTimes;
      for i := 0 to |recoveryTimes|
        invariant oldest == OldestAfter(recoveryTimes[..i], cutoff, OldestAfter(placementTimes, cutoff, now))
      {
        assert recoveryTimes[..i + 1][..i] == recoveryTimes[..i];
        if recoveryTimes[i] > cutoff && recoveryTimes[i] < oldest { oldest := recoveryTimes[i]; }
      }
      assert recoveryTimes[..|recoveryTimes|] == recoveryTimes;
    }

    /** Whether one finite window refuses, and from when the oldest request in it has aged out. */
    method Refuses(i: nat, recovery: bool, now: int) returns (refuses: bool, until: int)
      requires Valid() && clock == now && i < |rules.budgets|
      ensures var b := rules.budgets[i];
              && refuses == Binds(b, recovery, full, now)
              && (refuses ==> until == OldestInWindow(full, b.spanMs, now) + b.spanMs)
    {
      refuses, until := false, now;
      var b := rules.budgets[i];
      if b.accountLimit.Some? {
        UsedAgrees(Kept(), full, now - rules.horizonMs, b.spanMs, now);
        var used := CountWithin(b.spanMs, now);
        if used >= Ceiling(b, recovery) {
          var oldest := Oldest(b.spanMs, now);
          refuses, until := true, oldest + b.spanMs;
        }
      }
    }

    /** The first window that refuses, in published order. */
    method FirstRefusal(recovery: bool, now: int) returns (window: Option<nat>, until: int)
      requires Valid() && clock == now
      ensures window == FirstBinding(rules.budgets, recovery, full, now, 0)
      ensures window.Some? ==>
                var spanMs := rules.budgets[window.value].spanMs;
                until == OldestInWindow(full, spanMs, now) + spanMs
    {
      window, until := None, now;
      var i := 0;
      while i < |rules.budgets|
        invariant 0 <= i <= |rules.budgets|
        invariant FirstBinding(rules.budgets, recovery, full, now, i) ==
                  FirstBinding(rules.budgets, recovery, full, now, 0)
      {
        var refuses, at := Refuses(i, recovery, now);
        if refuses { return Some(i), at; }
        i := i + 1;
      }
    }

    /** The pruned ledger answers exactly as the full history would. */
    method Check(k: Endpoint, now: int) returns (d: Decision)
      requires Valid() && Later(now)
      modifies this`placementTimes, this`recoveryTimes, this`clock
      ensures Valid() && Later(now)
      ensures d == Decide(rules.budgets, full, k, now)
    {
      if !IsOrder(k) { return Allowed; }
      if cooldownUntil.Some? && now < cooldownUntil.value { return Cooldown(cooldownUntil.value); }
      Prune(now);
      var window, until := FirstRefusal(IsRecovery(k), now);
      d := if window.None? then Allowed else Exhausted(window.value, until);
    }

    method Record(k: Endpoint, now: int)
      requires Valid() && Later(now)
      modifies this`placementTimes, this`recoveryTimes, this`clock, this`full
      ensures Valid() && Later(now)
      ensures full == Recorded(old(full), k, now)
    {
      if !IsOrder(k) { return; }
      if IsRecovery(k) {
        recoveryTimes := recoveryTimes + [now];
      } else {
        placementTimes := placementTimes + [now];
      }
      RecordedAgrees(old(Kept()), full, clock - rules.horizonMs, k, now);
      full := Recorded(full, k, now);
      Prune(now);
    }

    method Penalize(now: int, retryAfterMs: Option<int>)
      requires Valid()
      modifies this`cooldownUntil, this`penalties, this`full
      ensures Valid() && full == Penalized(rules.penaltyMs, old(full), now, retryAfterMs)
      ensures penalties == old(penalties) + 1
    {
      var cooldown := if retryAfterMs.Some? && retryAfterMs.value > 0 then retryAfterMs.value else rules.penaltyMs;
      var until := now + cooldown;
      if cooldownUntil.None? || until > cooldownUntil.value { cooldownUntil := Some(until); }
      penalties := penalties + 1;
      full := full.(cooldownUntil := cooldownUntil);
    }

    /** The guard at the send boundary: check, then record at the same instant or note the refusal. */
    method Admit(k: Endpoint, now: int) returns (d: Decision)
      requires Valid() && Later(now)
      modifies this`placementTimes, this`recoveryTimes, this`clock, this`full
      modifies this`placementRefusals, this`recoveryRefusals
      ensures Valid() && Later(now)
      ensures d == Decide(rules.budgets, old(full), k, now)
      ensures full == Happen(rules, old(full), Request(k, now))
      ensures placementRefusals == old(placementRefusals) + (if d != Allowed && !IsRecovery(k) then 1 else 0)
      ensures recoveryRefusals == old(recoveryRefusals) + (if d != Allowed && IsRecovery(k) then 1 else 0)
    {
      d := Check(k, now);
      if d == Allowed {
        Record(k, now);
      } else if IsRecovery(k) {
        recoveryRefusals := recoveryRefusals + 1;
      } else {
        placementRefusals := placementRefusals + 1;
      }
    }
  }

  // ---------------------------------------------------------------- every run of the account

  /** A guarded request, or a throttle answer from the broker. */
  datatype Event = Request(k: Endpoint, at: int) | Throttled(at: int, retryAfterMs: Option<int>)

  function Happen(rules: Rules, h: History, e: Event): History {
    match e
    case Request(k, at) => if Decide(rules.budgets, h, k, at) == Allowed then Recorded(h, k, at) else h
    case Throttled(at, retry) => Penalized(rules.penaltyMs, h, at, retry)
  }

  function Replay(rules: Rules, es: seq<Event>): History {
    if es == [] then History([], [], None)
    else Happen(rules, Replay(rules, es[..|es| - 1]), es[|es| - 1])
  }

  /** Requests in the half-open interval of length `spanMs` that ends at `end`. */
  function CountIn(ts: seq<int>, spanMs: int, end: int): nat {
    if ts == [] then 0
    else CountIn(ts[..|ts| - 1], spanMs, end) + (if end - spanMs < ts[|ts| - 1] <= end then 1 else 0)
  }

  lemma {:induction false} CountInWithin(ts: seq<int>, spanMs: int, end: int, cutoff: int)
    requires cutoff <= end - spanMs
    ensures CountIn(ts, spanMs, end) <= CountAfter(ts, cutoff)
  {
    if ts != [] { CountInWithin(ts[..|ts| - 1], spanMs, end, cutoff); }
  }

  lemma CountInAppend(ts: seq<int>, t: int, spanMs: int, end: int)
    ensures CountIn(ts + [t], spanMs, end) == CountIn(ts, spanMs, end) + (if end - spanMs < t <= end then 1 else 0)
  {
    assert (ts + [t])[..|ts|] == ts;
  }

  /** A finite budget splits a worker's share into the placement part and the reserve. */
  ghost predicate Fair(b: Budget) {
    b.accountLimit.Some? && 0 <= b.placement && 0 <= b.reserve && b.placement + b.reserve == b.perWorker
  }

  ghost predicate Within(h: History, b: Budget, end: int) {
    && CountIn(h.placements, b.spanMs, end) + CountIn(h.recoveries, b.spanMs, end) <= b.perWorker
    && CountIn(h.placements, b.spanMs, end) <= b.placement
  }

  /**
   Over every run and for every interval of every finite window, the requests that went out never
   exceed the worker's share and the placements never exceed the placement share.
   */
  lemma WindowsNeverExceeded(limits: Limits, policy: Policy, es: seq<Event>, i: nat, end: int)
    requires Sensible(policy) && i < 4 && Windows(limits)[i].limit.Some?
    ensures var h := Replay(RulesOf(limits, policy), es);
            var b := PlacementBudgets(limits, policy)[i];
            && CountIn(h.placements, b.spanMs, end) + CountIn(h.recoveries, b.spanMs, end) <= b.perWorker
            && CountIn(h.placements, b.spanMs, end) <= b.placement
  {
    ReserveSplitsShare(Windows(limits)[i], policy);
    RunsStayWithin(RulesOf(limits, policy), es, i, end);
  }

  lemma {:induction false} RunsStayWithin(rules: Rules, es: seq<Event>, i: nat, end: int)
    requires i < |rules.budgets| && Fair(rules.budgets[i])
    ensures Within(Replay(rules, es), rules.budgets[i], end)
  {
    if es != [] {
      RunsStayWithin(rules, es[..|es| - 1], i, end);
      var h, e := Replay(rules, es[..|es| - 1]), es[|es| - 1];
      if e.Request? && IsOrder(e.k) && Decide(rules.budgets, h, e.k, e.at) == Allowed {
        RequestStaysWithin(h, rules.budgets[i], e.k, e.at, end);
      }
    }
  }

  lemma RequestStaysWithin(h: History, b: Budget, k: Endpoint, at: int, end: int)
    requires Fair(b) && Within(h, b, end) && IsOrder(k) && !Binds(b, IsRecovery(k), h, at)
    ensures Within(Recorded(h, k, at), b, end)
  {
    CountInAppend(h.placements, at, b.spanMs, end);
    CountInAppend(h.recoveries, at, b.spanMs, end);
    InWindowNow(h, b.spanMs, at, end);
  }

  lemma InWindowNow(h: History, spanMs: int, at: int, end: int)
    ensures end - spanMs < at <= end ==>
              CountIn(h.placements, spanMs, end) + CountIn(h.recoveries, spanMs, end) <= Used(h, spanMs, at)
  {
    if end - spanMs < at <= end {
      CountInWithin(h.placements, spanMs, end, at - spanMs);
      CountInWithin(h.recoveries, spanMs, end, at - spanMs);
    }
  }

  ghost predicate AllUpTo(ts: seq<int>, now: int) { forall i :: 0 <= i < |ts| ==> ts[i] <= now }

  lemma {:induction false} ReplayUpTo(rules: Rules, es: seq<Event>, now: int)
    requires forall i :: 0 <= i < |es| ==> es[i].at <= now
    ensures AllUpTo(Replay(rules, es).placements, now)
    ensures AllUpTo(Replay(rules, es).recoveries, now)
  {
    if es != [] { ReplayUpTo(rules, es[..|es| - 1], now); }
  }

  lemma {:induction false} CountAfterIsCountIn(ts: seq<int>, spanMs: int, now: int)
    requires AllUpTo(ts, now)
    ensures CountAfter(ts, now - spanMs) == CountIn(ts, spanMs, now)
  {
    if ts != [] { CountAfterIsCountIn(ts[..|ts| - 1], spanMs, now); }
  }

  /**
   Placements cannot starve recovery: outside a cooldown a cancel or modify is refused only when the
   reserve of the window that binds has already been spent by recovery requests themselves.
   */
  lemma RecoveryRefusedOnlyByRecovery(limits: Limits, policy: Policy, es: seq<Event>, k: Endpoint, now: int)
    requires Sensible(policy) && (k == OrderCancel || k == OrderModify)
    requires forall i :: 0 <= i < |es| ==> es[i].at <= now
    ensures var h := Replay(RulesOf(limits, policy), es);
            var d := Decide(PlacementBudgets(limits, policy), h, k, now);
            d.Exhausted? ==>
              && d.window < 4
              && var b := PlacementBudgets(limits, policy)[d.window];
                 CountAfter(h.recoveries, now - b.spanMs) >= b.reserve
  {
    var rules := RulesOf(limits, policy);
    var d := Decide(rules.budgets, Replay(rules, es), k, now);
    if d.Exhausted? {
      ReserveSplitsShare(Windows(limits)[d.window], policy);
      RefusedByRecovery(rules, es, k, now);
    }
  }

  lemma RefusedByRecovery(rules: Rules, es: seq<Event>, k: Endpoint, now: int)
    requires (k == OrderCancel || k == OrderModify) && forall i :: 0 <= i < |es| ==> es[i].at <= now
    requires var d := Decide(rules.budgets, Replay(rules, es), k, now);
             d.Exhausted? && Fair(rules.budgets[d.window])
    ensures var d := Decide(rules.budgets, Replay(rules, es), k, now);
            var b := rules.budgets[d.window];
            CountAfter(Replay(rules, es).recoveries, now - b.spanMs) >= b.reserve
  {
    var h := Replay(rules, es);
    var d := Decide(rules.budgets, h, k, now);
    var b := rules.budgets[d.window];
    assert Binds(b, true, h, now);
    RunsStayWithin(rules, es, d.window, now);
    ReplayUpTo(rules, es, now);
    CountAfterIsCountIn(h.placements, b.spanMs, now);
  }

  /** Every finite window holds back at least n slots for recovery. */
  ghost predicate ReservesAtLeast(rules: Rules, n: nat) {
    forall i :: 0 <= i < |rules.budgets| && rules.budgets[i].accountLimit.Some? ==>
      Fair(rules.budgets[i]) && rules.budgets[i].reserve >= n
  }

  lemma {:induction false} CountAtMostLength(ts: seq<int>, cutoff: int)
    ensures CountAfter(ts, cutoff) <= |ts|
  {
    if ts != [] { CountAtMostLength(ts[..|ts| - 1], cutoff); }
  }

  /** Outside a cooldown, while fewer recovery requests went out than any window reserves, the next one goes too. */
  lemma ReserveAdmits(rules: Rules, n: nat, es: seq<Event>, k: Endpoint, now: int)
    requires ReservesAtLeast(rules, n) && (k == OrderCancel || k == OrderModify)
    requires forall i :: 0 <= i < |es| ==> es[i].at <= now
    requires |Replay(rules, es).recoveries| < n && !CoolingDown(Replay(rules, es), now)
    ensures Decide(rules.budgets, Replay(rules, es), k, now) == Allowed
  {
    var h := Replay(rules, es);
    forall i | 0 <= i < |rules.budgets| ensures !Binds(rules.budgets[i], true, h, now) {
      var b := rules.budgets[i];
      if b.accountLimit.Some? {
        RunsStayWithin(rules, es, i, now);
        ReplayUpTo(rules, es, now);
        CountAfterIsCountIn(h.placements, b.spanMs, now);
        CountAtMostLength(h.recoveries, now - b.spanMs);
      }
    }
  }

  /** Cancels at the given instants. */
  function Cancels(ts: seq<int>): seq<Event> {
    seq(|ts|, i requires 0 <= i < |ts| => Request(OrderCancel, ts[i]))
  }

  ghost predicate InOrderFrom(ts: seq<int>, now: int) {
    && (forall i :: 0 <= i < |ts| ==> now <= ts[i])
    && (forall i, j :: 0 <= i < j < |ts| ==> ts[i] <= ts[j])
  }

  /**
   An unwind of n legs always fits when every finite window reserves n slots: after any run in which no
   recovery went out and no cooldown is left, n cancels at any later instants are all admitted.
   */
  lemma {:induction false} UnwindFits(rules: Rules, n: nat, es: seq<Event>, now: int, ts: seq<int>)
    requires ReservesAtLeast(rules, n) && |ts| <= n && InOrderFrom(ts, now)
    requires forall i :: 0 <= i < |es| ==> es[i].at <= now
    requires Replay(rules, es).recoveries == [] && !CoolingDown(Replay(rules, es), now)
    ensures Replay(rules, es + Cancels(ts)) == Replay(rules, es).(recoveries := ts)
  {
    if ts == [] {
      assert es + Cancels(ts) == es;
    } else {
      var before, t := ts[..|ts| - 1], ts[|ts| - 1];
      assert before + [t] == ts;
      UnwindFits(rules, n, es, now, before);
      CancelsAppend(es, before, t, now);
      UnwindStep(rules, n, es + Cancels(before), Replay(rules, es), before, t);
    }
  }

  lemma CancelsAppend(es: seq<Event>, ts: seq<int>, t: int, now: int)
    requires InOrderFrom(ts + [t], now) && forall i :: 0 <= i < |es| ==> es[i].at <= now
    ensures es + Cancels(ts + [t]) == (es + Cancels(ts)) + [Request(OrderCancel, t)]
    ensures forall i :: 0 <= i < |es + Cancels(ts)| ==> (es + Cancels(ts))[i].at <= t
    ensures now <= t
  {
    var all := ts + [t];
    assert all[|ts|] == t && forall i :: 0 <= i < |ts| ==> all[i] == ts[i];
  }

  lemma UnwindStep(rules: Rules, n: nat, sent: seq<Event>, h: History, ts: seq<int>, t: int)
    requires ReservesAtLeast(rules, n) && |ts| < n && (forall i :: 0 <= i < |sent| ==> sent[i].at <= t)
    requires Replay(rules, sent) == h.(recoveries := ts) && !CoolingDown(h, t)
    ensures Replay(rules, sent + [Request(OrderCancel, t)]) == h.(recoveries := ts + [t])
  {
    ReserveAdmits(rules, n, sent, OrderCancel, t);
    AllowedIsRecorded(rules, sent, OrderCancel, t);
  }

  /** A policy reserves n slots in a window exactly when more than n - 1 slots of the share are its fraction. */
  lemma ReserveIsEnoughIff(w: RateWindow, policy: Policy, n: int)
    requires w.limit.Some?
    ensures BudgetOf(w, policy).reserve >= n <==>
            BudgetOf(w, policy).perWorker as real * policy.reserveFraction > (n - 1) as real
  {}

  // ---------------------------------------------------------------- refusals last as long as they say

  /** The history only grows and a cooldown is never shortened. */
  ghost predicate Extends(h: History, h': History) {
    && h.placements <= h'.placements && h.recoveries <= h'.recoveries
    && (h.cooldownUntil.Some? ==> h'.cooldownUntil.Some? && h.cooldownUntil.value <= h'.cooldownUntil.value)
  }

  function ReplayFrom(rules: Rules, h: History, es: seq<Event>): History {
    if es == [] then h
    else Happen(rules, ReplayFrom(rules, h, es[..|es| - 1]), es[|es| - 1])
  }

  lemma {:induction false} RunsExtend(rules: Rules, h: History, es: seq<Event>)
    ensures Extends(h, ReplayFrom(rules, h, es))
  {
    if es != [] { RunsExtend(rules, h, es[..|es| - 1]); }
  }

  lemma {:induction false} CountGrows(ts: seq<int>, ts': seq<int>, cutoff: int)
    requires ts <= ts'
    ensures CountAfter(ts, cutoff) <= CountAfter(ts', cutoff)
  {
    if |ts| < |ts'| {
      CountGrows(ts, ts'[..|ts'| - 1], cutoff);
    } else {
      assert ts == ts';
    }
  }

  /** Requests in the window now are still in it at any instant before the oldest of them ages out. */
  lemma {:induction false} CountSurvives(ts: seq<int>, cutoff: int, start: int, cutoff': int)
    requires cutoff' < OldestAfter(ts, cutoff, start)
    ensures CountAfter(ts, cutoff) <= CountAfter(ts, cutoff')
    ensures cutoff' < start
  {
    if ts != [] { CountSurvives(ts[..|ts| - 1], cutoff, start, cutoff'); }
  }

  /** A refused class stays refused, whatever happens meanwhile, until the retry time it was given. */
  lemma RefusedUntilRetryTime(rules: Rules, h: History, k: Endpoint, now: int,
                              es: seq<Event>, later: int)
    requires var d := Decide(rules.budgets, h, k, now); d != Allowed && now <= later < RetryAt(d)
    ensures Decide(rules.budgets, ReplayFrom(rules, h, es), k, later) != Allowed
  {
    var d := Decide(rules.budgets, h, k, now);
    var h' := ReplayFrom(rules, h, es);
    RunsExtend(rules, h, es);
    if d.Exhausted? {
      var b := rules.budgets[d.window];
      assert Binds(b, IsRecovery(k), h, now);
      var c, c' := now - b.spanMs, later - b.spanMs;
      CountSurvives(h.recoveries, c, OldestAfter(h.placements, c, now), c');
      CountSurvives(h.placements, c, now, c');
      CountGrows(h.recoveries, h'.recoveries, c');
      CountGrows(h.placements, h'.placements, c');
      assert Binds(b, IsRecovery(k), h', later);
    }
  }

  /** How long a throttle answer forbids requests: as long as it says, or one per-second window. */
  function PenaltyMs(limits: Limits, retryAfterMs: Option<int>): int {
    if retryAfterMs.Some? && retryAfterMs.value > 0 then retryAfterMs.value else limits.perSecond.spanMs
  }

  /**
   A throttle answer is obeyed: over every later run and until its time has passed, every order class is
   refused with a retry time no earlier than that, and data reads stay allowed.
   */
  lemma ThrottleIsObeyed(limits: Limits, policy: Policy, h: History, at: int, retryAfterMs: Option<int>,
                         es: seq<Event>, t: int, k: Endpoint)
    requires at <= t < at + PenaltyMs(limits, retryAfterMs)
    ensures var rules := RulesOf(limits, policy);
            var later := ReplayFrom(rules, Happen(rules, h, Throttled(at, retryAfterMs)), es);
            var d := Decide(rules.budgets, later, k, t);
            if k == DataRead then d == Allowed
            else d.Cooldown? && d.until >= at + PenaltyMs(limits, retryAfterMs)
  {
    var rules := RulesOf(limits, policy);
    RunsExtend(rules, Happen(rules, h, Throttled(at, retryAfterMs)), es);
  }

  /** And no longer: it adds exactly its own time to what was already forbidden. */
  lemma ThrottleForbidsExactly(limits: Limits, policy: Policy, h: History, at: int, retryAfterMs: Option<int>, t: int)
    ensures var after := Happen(RulesOf(limits, policy), h, Throttled(at, retryAfterMs));
            && (CoolingDown(after, t) <==> CoolingDown(h, t) || t < at + PenaltyMs(limits, retryAfterMs))
            && after.placements == h.placements && after.recoveries == h.recoveries
            && (h.cooldownUntil.None? ==> after.cooldownUntil == Some(at + PenaltyMs(limits, retryAfterMs)))
  {}

  lemma {:induction false} OldestIsInside(ts: seq<int>, cutoff: int, start: int)
    ensures OldestAfter(ts, cutoff, start) <= start
    ensures OldestAfter(ts, cutoff, start) == start || (OldestAfter(ts, cutoff, start) > cutoff
                                                        && OldestAfter(ts, cutoff, start) in ts)
    ensures forall i :: 0 <= i < |ts| && ts[i] > cutoff ==> OldestAfter(ts, cutoff, start) <= ts[i]
  {
    if ts != [] {
      OldestIsInside(ts[..|ts| - 1], cutoff, start);
      assert forall i :: 0 <= i < |ts| - 1 ==> ts[..|ts| - 1][i] == ts[i];
    }
  }

  lemma {:induction false} CountShrinks(ts: seq<int>, cutoff: int, cutoff': int)
    requires cutoff <= cutoff'
    ensures CountAfter(ts, cutoff') <= CountAfter(ts, cutoff)
    ensures (exists i :: 0 <= i < |ts| && cutoff < ts[i] <= cutoff') ==>
              CountAfter(ts, cutoff') < CountAfter(ts, cutoff)
  {
    if ts != [] {
      CountShrinks(ts[..|ts| - 1], cutoff, cutoff');
      if exists i :: 0 <= i < |ts| && cutoff < ts[i] <= cutoff' {
        var i :| 0 <= i < |ts| && cutoff < ts[i] <= cutoff';
        if i < |ts| - 1 { assert ts[..|ts| - 1][i] == ts[i]; }
      }
    }
  }

  lemma {:induction false} PositiveCountHasMember(ts: seq<int>, cutoff: int)
    requires CountAfter(ts, cutoff) > 0
    ensures exists i :: 0 <= i < |ts| && ts[i] > cutoff
  {
    if ts[|ts| - 1] <= cutoff {
      PositiveCountHasMember(ts[..|ts| - 1], cutoff);
      var i :| 0 <= i < |ts| - 1 && ts[..|ts| - 1][i] > cutoff;
      assert ts[i] > cutoff;
    }
  }

  /** Half of the relief: if the oldest request in the window is of this class, it has left by then. */
  lemma OldestLeaves(ts: seq<int>, spanMs: int, now: int, oldest: int)
    requires AllUpTo(ts, now) && now - spanMs < oldest <= now
    ensures CountAfter(ts, oldest) <= CountAfter(ts, now - spanMs)
    ensures oldest in ts ==> CountAfter(ts, oldest) < CountAfter(ts, now - spanMs)
  {
    CountShrinks(ts, now - spanMs, oldest);
    if oldest in ts {
      var i :| 0 <= i < |ts| && ts[i] == oldest;
      assert now - spanMs < ts[i] <= oldest;
    }
  }

  /**
   The retry time of an exhausted window lies in the future and means something: at that instant, and not
   before, the window has lost its oldest request.
   */
  lemma RetryTimeIsFirstRelief(bs: seq<Budget>, h: History, k: Endpoint, now: int)
    requires AllUpTo(h.placements, now) && AllUpTo(h.recoveries, now) && PositiveSpans(bs)
    requires Decide(bs, h, k, now).Exhausted?
    ensures var d := Decide(bs, h, k, now);
            && d.window < |bs| && now < d.until <= now + bs[d.window].spanMs
            && (forall t :: now <= t < d.until ==> Used(h, bs[d.window].spanMs, t) >= Used(h, bs[d.window].spanMs, now))
            && (Used(h, bs[d.window].spanMs, now) > 0 ==>
                  Used(h, bs[d.window].spanMs, d.until) < Used(h, bs[d.window].spanMs, now))
  {
    var d := Decide(bs, h, k, now);
    var span := bs[d.window].spanMs;
    OldestInWindowMeans(h, span, now);
    forall t | now <= t < d.until ensures Used(h, span, t) >= Used(h, span, now) {
      var inner := OldestAfter(h.placements, now - span, now);
      CountSurvives(h.recoveries, now - span, inner, t - span);
      CountSurvives(h.placements, now - span, now, t - span);
    }
    var oldest := OldestInWindow(h, span, now);
    OldestLeaves(h.placements, span, now, oldest);
    OldestLeaves(h.recoveries, span, now, oldest);
  }

  lemma OldestInWindowMeans(h: History, spanMs: int, now: int)
    requires AllUpTo(h.placements, now) && AllUpTo(h.recoveries, now) && spanMs > 0
    ensures now - spanMs < OldestInWindow(h, spanMs, now) <= now
    ensures Used(h, spanMs, now) > 0 ==>
              OldestInWindow(h, spanMs, now) in h.placements || OldestInWindow(h, spanMs, now) in h.recoveries
  {
    var c := now - spanMs;
    OldestIsInside(h.placements, c, now);
    OldestIsInside(h.recoveries, c, OldestAfter(h.placements, c, now));
    if CountAfter(h.placements, c) > 0 { PositiveCountHasMember(h.placements, c); }
    if CountAfter(h.recoveries, c) > 0 { PositiveCountHasMember(h.recoveries, c); }
  }

  // ---------------------------------------------------------------- the reserve and a full unwind

  function Repeat(t: int, n: nat): seq<int> { seq(n, i => t) }

  lemma {:induction false} CountRepeat(t: int, n: nat, cutoff: int)
    requires cutoff < t
    ensures CountAfter(Repeat(t, n), cutoff) == n
  {
    if n > 0 {
      assert Repeat(t, n)[..n - 1] == Repeat(t, n - 1);
      CountRepeat(t, n - 1, cutoff);
    }
  }

  /** p placements and then c cancels, all at the same instant. */
  function Burst(p: nat, c: nat): seq<Event> {
    seq(p + c, i requires 0 <= i < p + c => Request(if i < p then OrderPlace else OrderCancel, 0))
  }

  function BurstHistory(p: nat, c: nat): History { History(Repeat(0, p), Repeat(0, c), None) }

  /** Used by a burst of that many requests, no finite window has passed the ceiling of the class. */
  ghost predicate Below(bs: seq<Budget>, used: int, recovery: bool) {
    forall i :: 0 <= i < |bs| && bs[i].accountLimit.Some? ==> used < Ceiling(bs[i], recovery)
  }

  ghost predicate PositiveSpans(bs: seq<Budget>) {
    forall i :: 0 <= i < |bs| ==> bs[i].spanMs > 0
  }

  lemma BurstDecision(bs: seq<Budget>, p: nat, c: nat, k: Endpoint)
    requires PositiveSpans(bs) && IsOrder(k)
    ensures Decide(bs, BurstHistory(p, c), k, 0) == Allowed <==> Below(bs, p + c, IsRecovery(k))
  {
    var h := BurstHistory(p, c);
    forall i | 0 <= i < |bs|
      ensures Binds(bs[i], IsRecovery(k), h, 0) <==>
              bs[i].accountLimit.Some? && p + c >= Ceiling(bs[i], IsRecovery(k))
    {
      CountRepeat(0, p, -bs[i].spanMs);
      CountRepeat(0, c, -bs[i].spanMs);
    }
  }

  lemma BurstGrows(p: nat, c: nat)
    ensures Burst(p, c + 1) == Burst(p, c) + [Request(OrderCancel, 0)] && Repeat(0, c + 1) == Repeat(0, c) + [0]
    ensures Burst(p + 1, 0) == Burst(p, 0) + [Request(OrderPlace, 0)] && Repeat(0, p + 1) == Repeat(0, p) + [0]
  {}

  /** As many placements as every placement share allows are all admitted. */
  lemma {:induction false} PlacementBurst(rules: Rules, p: nat)
    requires PositiveSpans(rules.budgets) && Below(rules.budgets, p - 1, false)
    ensures Replay(rules, Burst(p, 0)) == BurstHistory(p, 0)
  {
    if p > 0 {
      PlacementBurst(rules, p - 1);
      BurstGrows(p - 1, 0);
      BurstDecision(rules.budgets, p - 1, 0, OrderPlace);
      AllowedIsRecorded(rules, Burst(p - 1, 0), OrderPlace, 0);
    }
  }

  lemma CancelStep(rules: Rules, p: nat, c: nat, admitted: nat)
    requires PositiveSpans(rules.budgets) && Replay(rules, Burst(p, c)) == BurstHistory(p, admitted)
    ensures Replay(rules, Burst(p, c + 1)) ==
            BurstHistory(p, if Below(rules.budgets, p + admitted, true) then admitted + 1 else admitted)
  {
    BurstGrows(p, c);
    BurstGrows(p, admitted);
    BurstDecision(rules.budgets, p, admitted, OrderCancel);
    var es := Burst(p, c);
    assert (es + [Request(OrderCancel, 0)])[..|es|] == es;
  }

  /** Of the cancels that follow, as many are admitted as the worker's tightest share has room for. */
  lemma {:induction false} CancelBurst(rules: Rules, p: nat, c: nat) returns (admitted: nat)
    requires PositiveSpans(rules.budgets) && Below(rules.budgets, p - 1, false)
    ensures Replay(rules, Burst(p, c)) == BurstHistory(p, admitted)
    ensures admitted <= c && (admitted > 0 ==> Below(rules.budgets, p + admitted - 1, true))
    ensures admitted < c ==> !Below(rules.budgets, p + admitted, true)
  {
    if c == 0 {
      PlacementBurst(rules, p);
      return 0;
    }
    var before := CancelBurst(rules, p, c - 1);
    CancelStep(rules, p, c - 1, before);
    admitted := if Below(rules.budgets, p + before, true) then before + 1 else before;
  }

  /**
   After a burst of p placements an unwind of n cancels at that instant fits exactly when p + n is within
   the worker's share of every finite window.
   */
  lemma UnwindFitsBurstIff(rules: Rules, p: nat, n: nat)
    requires PositiveSpans(rules.budgets) && Below(rules.budgets, p - 1, false)
    ensures Replay(rules, Burst(p, n)).placements == Repeat(0, p)
    ensures n > 0 ==>
              (Replay(rules, Burst(p, n)).recoveries == Repeat(0, n) <==> Below(rules.budgets, p + n - 1, true))
  {
    var admitted := CancelBurst(rules, p, n);
    assert |Repeat(0, admitted)| == admitted && |Repeat(0, n)| == n;
    if admitted < n {
      var i :| 0 <= i < |rules.budgets| && rules.budgets[i].accountLimit.Some?
               && p + admitted >= Ceiling(rules.budgets[i], true);
    }
  }

  const DHAN_BUDGETS := [
    Budget(SECOND, Some(10), 10, 8, 2), Budget(MINUTE, Some(250), 250, 200, 50),
    Budget(HOUR, Some(1000), 1000, 800, 200), Budget(DAY, Some(7000), 7000, 5600, 1400)]

  lemma DhanDefaultBudgets()
    ensures PlacementBudgets(DHAN, DEFAULT_POLICY) == DHAN_BUDGETS
  {
    assert Ceil(2.0) == 2 && Ceil(50.0) == 50 && Ceil(200.0) == 200 && Ceil(1400.0) == 1400;
  }

  lemma ZerodhaDefaultBudgets()
    ensures PlacementBudgets(ZERODHA, DEFAULT_POLICY) ==
            [Budget(SECOND, Some(10), 10, 8, 2), Budget(MINUTE, Some(400), 400, 320, 80),
             Budget(HOUR, None, 0, 0, 0), Budget(DAY, Some(5000), 5000, 4000, 1000)]
  {
    assert Ceil(2.0) == 2 && Ceil(80.0) == 80 && Ceil(1000.0) == 1000;
  }

  /** With the default fifth reserved of ten a second, a full burst leaves room for exactly two cancels, not four. */
  lemma DefaultReserveStopsThirdCancel(n: nat)
    requires n > 0
    ensures Replay(RulesOf(DHAN, DEFAULT_POLICY), Burst(8, n)).placements == Repeat(0, 8)
    ensures Replay(RulesOf(DHAN, DEFAULT_POLICY), Burst(8, n)).recoveries == Repeat(0, n) <==> n <= 2
  {
    DhanDefaultBudgets();
    UnwindFitsBurstIff(RulesOf(DHAN, DEFAULT_POLICY), 8, n);
    assert Below(DHAN_BUDGETS, 8 + n - 1, true) ==> 8 + n - 1 < Ceiling(DHAN_BUDGETS[0], true);
  }

  lemma AllowedIsRecorded(rules: Rules, es: seq<Event>, k: Endpoint, at: int)
    requires Decide(rules.budgets, Replay(rules, es), k, at) == Allowed
    ensures Replay(rules, es + [Request(k, at)]) == Recorded(Replay(rules, es), k, at)
  {
    assert (es + [Request(k, at)])[..|es|] == es;
  }
}
