/**
 Waiting for an order to resolve: poll until terminal, cancel protectively when a deadline or the poll
 cap is reached, and quarantine what cannot be confirmed. The broker, the stream and the clock are
 arbitrary.
 */
module OrderWaiting {
  import opened Common
  import opened OrderEvidence

  datatype Config = Config(ackTimeoutMs: int, workingTimeoutMs: int, partialTimeoutMs: int,
                           cancelTimeoutMs: int, minIntervalMs: int)

  function CeilDiv(a: int, b: int): int
    requires b > 0
  {
    -((-a) / b)
  }

  function Interval(cfg: Config): int { Max(1, cfg.minIntervalMs) }

  function MaxPolls(cfg: Config): int {
    Max(10, CeilDiv(cfg.workingTimeoutMs + cfg.partialTimeoutMs, Interval(cfg)) + 10)
  }

  function MaxConfirms(cfg: Config): int {
    Max(5, CeilDiv(cfg.cancelTimeoutMs, Interval(cfg)) + 5)
  }

  lemma CeilDivIsLeast(a: int, b: int)
    requires b > 0
    ensures (CeilDiv(a, b) - 1) * b < a <= CeilDiv(a, b) * b
  {
    var q := (-a) / b;
    assert -a == q * b + (-a) % b;
    assert CeilDiv(a, b) * b == -(q * b) && (CeilDiv(a, b) - 1) * b == -(q * b) - b;
  }

  /** The poll cap leaves ten polls over what the two deadlines need at one poll per interval, and no more. */
  lemma PollCapIsLeast(cfg: Config)
    ensures var need := cfg.workingTimeoutMs + cfg.partialTimeoutMs;
            && MaxPolls(cfg) >= 10 && (MaxPolls(cfg) - 10) * Interval(cfg) >= need
            && (MaxPolls(cfg) > 10 ==> (MaxPolls(cfg) - 11) * Interval(cfg) < need)
  {
    var need := cfg.workingTimeoutMs + cfg.partialTimeoutMs;
    CeilDivIsLeast(need, Interval(cfg));
    if CeilDiv(need, Interval(cfg)) < 0 { assert CeilDiv(need, Interval(cfg)) * Interval(cfg) <= 0; }
  }

  /** The confirm cap leaves five over what the cancel window needs, and no more. */
  lemma ConfirmCapIsLeast(cfg: Config)
    ensures && MaxConfirms(cfg) >= 5 && (MaxConfirms(cfg) - 5) * Interval(cfg) >= cfg.cancelTimeoutMs
            && (MaxConfirms(cfg) > 5 ==> (MaxConfirms(cfg) - 6) * Interval(cfg) < cfg.cancelTimeoutMs)
  {
    CeilDivIsLeast(cfg.cancelTimeoutMs, Interval(cfg));
    if CeilDiv(cfg.cancelTimeoutMs, Interval(cfg)) < 0 {
      assert CeilDiv(cfg.cancelTimeoutMs, Interval(cfg)) * Interval(cfg) <= 0;
    }
  }

  /** How the broker answers one re-read: it fails, refuses the session, knows no order, or answers. */
  datatype Answer = ReadFailed | AuthRefused | NoSuchOrder | Answered(remote: Remote)

  /**
   The outside world, by occurrence number: what the clock shows, what each re-read returns, and which
   stream updates land during each sleep, during each re-read and during the cancel request.
   */
  datatype World = World(clock: nat -> int, answers: nat -> Answer,
                         asleep: nat -> seq<Update>, reading: nat -> seq<Update>, cancelling: seq<Update>)

  /** How far the world has been consumed, and the session's stored order. */
  datatype Cursor = Cursor(stored: Order, ticks: nat, sleeps: nat, rereads: nat)

  // ---------------------------------------------------------------- how observations merge

  /** The merges the loops rely on: stream updates landing one after the other, and one completed read. */
  datatype Merge = Merge(stream: (Order, seq<Update>) -> Order, read: (Order, Remote) -> Order)

  /** All the loops need of them: fills never shrink, and updates never reopen a terminal order. */
  ghost predicate Lawful(m: Merge) {
    && (forall o :: m.stream(o, []) == o)
    && (forall o: Order, us :: o.filled >= 0 ==> m.stream(o, us).filled >= o.filled)
    && (forall o: Order, us :: o.filled >= 0 && IsTerminal(o.state) ==> IsTerminal(m.stream(o, us).state))
    && (forall o: Order, r :: o.filled >= 0 ==> m.read(o, r).filled >= o.filled)
  }

  function Streamed(o: Order, us: seq<Update>): Order {
    if us == [] then o else ApplyUpdate(Streamed(o, us[..|us| - 1]), us[|us| - 1]).0
  }

  /** The merges of the adapter. */
  const ADAPTER := Merge((o, us) => Streamed(o, us), (o, r) => Refresh(o, r))

  /** Updates that land never lower the fill and never reopen a terminal order. */
  lemma {:induction false} StreamedNeverRewinds(o: Order, us: seq<Update>)
    requires o.filled >= 0
    ensures Streamed(o, us).filled >= o.filled
    ensures IsTerminal(o.state) ==> IsTerminal(Streamed(o, us).state)
  {
    if us != [] { StreamedNeverRewinds(o, us[..|us| - 1]); }
  }

  function AsObservations(us: seq<Update>): seq<Observation> {
    seq(|us|, i requires 0 <= i < |us| => Stream(us[i]))
  }

  lemma {:induction false} StreamedIsObserved(o: Order, us: seq<Update>)
    ensures Streamed(o, us) == OrderEvidence.After(o, AsObservations(us))
  {
    if us != [] {
      StreamedIsObserved(o, us[..|us| - 1]);
      assert AsObservations(us)[..|us| - 1] == AsObservations(us[..|us| - 1]);
    }
  }

  /**
   What the adapter's session holds: after a sleep the highest fill stated by anything that landed, after an
   answered read the highest of what was known and what the answer states, and after a read that failed
   whatever landed meanwhile.
   */
  lemma SessionAdoptsFills(world: World, c: Cursor)
    requires c.stored.filled >= 0
    ensures Slept(ADAPTER, world, c).stored.filled ==
            HighestExplicit(c.stored.filled, AsObservations(world.asleep(c.sleeps)))
    ensures world.answers(c.rereads).Answered? ==>
              Reread(ADAPTER, world, c).0.stored.filled ==
              HighestExplicit(c.stored.filled, [Rest(world.answers(c.rereads).remote)])
    ensures !world.answers(c.rereads).Answered? ==>
              Reread(ADAPTER, world, c).0.stored.filled ==
              HighestExplicit(c.stored.filled, AsObservations(world.reading(c.rereads)))
    ensures c.stored.brokerOrderId.Some? ==>
              Requested(ADAPTER, world, c).stored.filled ==
              HighestExplicit(c.stored.filled, AsObservations(world.cancelling))
  {
    StreamedIsObserved(c.stored, world.asleep(c.sleeps));
    FilledIsHighestExplicit(c.stored, AsObservations(world.asleep(c.sleeps)));
    StreamedIsObserved(c.stored, world.reading(c.rereads));
    FilledIsHighestExplicit(c.stored, AsObservations(world.reading(c.rereads)));
    var marked := c.stored.(state := CancelRequested);
    StreamedIsObserved(marked, world.cancelling);
    FilledIsHighestExplicit(marked, AsObservations(world.cancelling));
    if world.answers(c.rereads).Answered? { OneRead(c.stored, world.answers(c.rereads).remote); }
  }

  lemma OneRead(known: Order, remote: Remote)
    requires known.filled >= 0
    ensures Refresh(known, remote).filled == HighestExplicit(known.filled, [Rest(remote)])
  {
    FilledIsHighestExplicit(known, [Rest(remote)]);
    assert [Rest(remote)][..0] == [];
    assert OrderEvidence.After(known, [Rest(remote)]) == Observe(OrderEvidence.After(known, []), Rest(remote));
  }

  lemma AdapterIsLawful()
    ensures Lawful(ADAPTER)
  {
    forall o: Order, us | o.filled >= 0
      ensures ADAPTER.stream(o, us).filled >= o.filled
      ensures IsTerminal(o.state) ==> IsTerminal(ADAPTER.stream(o, us).state)
    {
      StreamedNeverRewinds(o, us);
    }
  }

  // ---------------------------------------------------------------- one sleep, one read, one cancel request

  function Slept(m: Merge, world: World, c: Cursor): Cursor {
    c.(stored := m.stream(c.stored, world.asleep(c.sleeps)), sleeps := c.sleeps + 1)
  }

  /** A re-read: the snapshot is taken first and the answer written last, over anything that landed. */
  function Reread(m: Merge, world: World, c: Cursor): (Cursor, Option<Order>) {
    var known := c.stored;
    var landed := m.stream(known, world.reading(c.rereads));
    var next := c.(rereads := c.rereads + 1);
    match world.answers(c.rereads)
    case AuthRefused => (next.(stored := landed), None)
    case ReadFailed => (next.(stored := landed), Some(known))
    case NoSuchOrder => (next.(stored := landed), Some(known))
    case Answered(remote) => (next.(stored := m.read(known, remote)), Some(m.read(known, remote)))
  }

  /** Mark and send the cancel, if the broker has an id for the order; its answer proves nothing. */
  function Requested(m: Merge, world: World, c: Cursor): Cursor {
    if c.stored.brokerOrderId.None? then c
    else c.(stored := m.stream(c.stored.(state := CancelRequested), world.cancelling))
  }

  /** One sleep: updates may land, nothing is lost. */
  method Sleep(m: Merge, world: World, c: Cursor) returns (next: Cursor)
    requires Lawful(m) && c.stored.filled >= 0
    ensures next == Slept(m, world, c)
    ensures next.stored.filled >= c.stored.filled
    ensures IsTerminal(c.stored.state) ==> IsTerminal(next.stored.state)
  {
    next := c.(stored := m.stream(c.stored, world.asleep(c.sleeps)), sleeps := c.sleeps + 1);
  }

  /**
   One re-read. An answer becomes both the result and the stored order; a failed read or an unknown
   order returns what was known; only a refused session returns nothing.
   */
  method RereadOrder(m: Merge, world: World, c: Cursor) returns (next: Cursor, refreshed: Option<Order>)
    requires Lawful(m) && c.stored.filled >= 0
    ensures (next, refreshed) == Reread(m, world, c)
    ensures next.stored.filled >= c.stored.filled
    ensures refreshed.None? <==> world.answers(c.rereads) == AuthRefused
    ensures refreshed.Some? ==> refreshed.value.filled >= c.stored.filled
    ensures refreshed.Some? && world.answers(c.rereads).Answered? ==>
              refreshed.value == next.stored == m.read(c.stored, world.answers(c.rereads).remote)
    ensures refreshed.Some? && !world.answers(c.rereads).Answered? ==> refreshed.value == c.stored
    ensures !world.answers(c.rereads).Answered? && IsTerminal(c.stored.state) ==> IsTerminal(next.stored.state)
  {
    var known := c.stored;
    var landed := m.stream(known, world.reading(c.rereads));
    next := c.(stored := landed, rereads := c.rereads + 1);
    match world.answers(c.rereads) {
      case AuthRefused => return next, None;
      case ReadFailed => return next, Some(known);
      case NoSuchOrder => return next, Some(known);
      case Answered(remote) =>
        var projected := m.read(known, remote);
        next := next.(stored := projected);
        return next, Some(projected);
    }
  }

  method RequestCancel(m: Merge, world: World, c: Cursor) returns (next: Cursor)
    requires Lawful(m) && c.stored.filled >= 0
    ensures next == Requested(m, world, c)
    ensures next.stored.filled >= c.stored.filled
    ensures c.stored.brokerOrderId.None? ==> next == c
    ensures c.stored.brokerOrderId.Some? && world.cancelling == [] ==>
              next == c.(stored := c.stored.(state := CancelRequested))
  {
    next := c;
    if c.stored.brokerOrderId.Some? {
      var marked := c.stored.(state := CancelRequested);
      assert marked.filled == c.stored.filled;
      next := c.(stored := m.stream(marked, world.cancelling));
    }
  }

  datatype Ending = Returned(order: Order) | AuthError

  /** Resolved: a confirmed terminal state, or an explicit quarantine. */
  predicate Resolved(e: Ending) {
    e.Returned? ==> IsTerminal(e.order.state) || e.order.state == ReconciliationRequired
  }

  // ---------------------------------------------------------------- cancel, then confirm

  /** One confirming look: from where, to where, and what it saw unless the session was refused. */
  datatype Look = Look(before: Cursor, after: Cursor, seen: Option<Order>)

  function Looked(m: Merge, world: World, c: Cursor): Look {
    var (next, seen) := Reread(m, world, Slept(m, world, c.(ticks := c.ticks + 1)));
    Look(c, next, seen)
  }

  predicate Inconclusive(l: Look) { l.seen.Some? && !IsTerminal(l.seen.value.state) }

  /** The cursor at the first look: the cancel request and one reading of the clock come first. */
  function Asked(m: Merge, world: World, start: Cursor): Cursor {
    var asked := Requested(m, world, start);
    asked.(ticks := asked.ticks + 1)
  }

  function CancelDeadline(cfg: Config, m: Merge, world: World, start: Cursor): int {
    world.clock(Requested(m, world, start).ticks) + cfg.cancelTimeoutMs
  }

  /** Where the next look starts. */
  function Here(first: Cursor, looks: seq<Look>): Cursor {
    if looks == [] then first else looks[|looks| - 1].after
  }

  /** Look i started where the one before it, which settled nothing, left off, and before the deadline. */
  ghost predicate LookStep(m: Merge, world: World, first: Cursor, deadline: int, looks: seq<Look>, i: int)
    requires 0 <= i < |looks|
  {
    && looks[i] == Looked(m, world, Here(first, looks[..i])) && world.clock(looks[i].before.ticks) < deadline
    && (i > 0 ==> Inconclusive(looks[i - 1]))
  }

  ghost predicate Looks(m: Merge, world: World, first: Cursor, deadline: int, looks: seq<Look>) {
    forall i :: 0 <= i < |looks| ==> LookStep(m, world, first, deadline, looks, i)
  }

  /**
   A conclusive look decides. Without one the order is quarantined as it is stored, and only because the
   confirm cap was used up or the deadline has passed.
   */
  ghost predicate Concluded(m: Merge, world: World, cap: int, first: Cursor, deadline: int, looks: seq<Look>,
                            end: Ending, c: Cursor)
  {
    && Looks(m, world, first, deadline, looks) && |looks| <= cap
    && if looks != [] && !Inconclusive(looks[|looks| - 1]) then
         var last := looks[|looks| - 1];
         c == last.after && end == if last.seen.None? then AuthError else Returned(last.seen.value)
       else
         var here := Here(first, looks);
         && (|looks| == cap || world.clock(here.ticks) >= deadline)
         && c == here.(ticks := here.ticks + 1, stored := here.stored.(state := ReconciliationRequired))
         && end == Returned(c.stored)
  }

  ghost predicate CancelOutcome(cfg: Config, m: Merge, world: World, start: Cursor, looks: seq<Look>,
                                end: Ending, c: Cursor)
  {
    Concluded(m, world, MaxConfirms(cfg), Asked(m, world, start), CancelDeadline(cfg, m, world, start), looks, end, c)
  }

  lemma LooksAppend(m: Merge, world: World, first: Cursor, deadline: int, looks: seq<Look>, look: Look)
    requires Looks(m, world, first, deadline, looks) && (looks != [] ==> Inconclusive(looks[|looks| - 1]))
    requires look == Looked(m, world, Here(first, looks)) && world.clock(look.before.ticks) < deadline
    ensures Looks(m, world, first, deadline, looks + [look])
  {
    var all := looks + [look];
    forall i | 0 <= i < |all| ensures LookStep(m, world, first, deadline, all, i) {
      assert all[..i] == looks[..i];
      if i < |looks| { assert LookStep(m, world, first, deadline, looks, i); } else { assert looks[..i] == looks; }
    }
  }

  /** One look as the code takes it. */
  method LookOnce(m: Merge, world: World, c: Cursor) returns (look: Look)
    requires Lawful(m) && c.stored.filled >= 0
    ensures look == Looked(m, world, c) && look.before == c
    ensures look.after.rereads == c.rereads + 1 && look.after.sleeps == c.sleeps + 1
    ensures look.after.stored.filled >= c.stored.filled
    ensures look.seen.Some? ==> look.seen.value.filled >= c.stored.filled
    ensures look.seen.None? ==> world.answers(look.after.rereads - 1) == AuthRefused
    ensures look.seen.Some? && IsTerminal(look.seen.value.state) ==> IsTerminal(look.after.stored.state)
  {
    var next := Sleep(m, world, c.(ticks := c.ticks + 1));
    var seen;
    next, seen := RereadOrder(m, world, next);
    look := Look(c, next, seen);
  }

  /**
   Cancel, then confirm. Ends within the confirm cap whatever the clock does; what is not confirmed
   terminal is quarantined, in the session as well as in the result.
   */
  method ProtectiveCancel(cfg: Config, m: Merge, world: World, start: Cursor)
    returns (end: Ending, c: Cursor, ghost looks: seq<Look>)
    requires Lawful(m) && start.stored.filled >= 0
    ensures CancelOutcome(cfg, m, world, start, looks, end, c)
    ensures Resolved(end)
    ensures end.AuthError? ==> c.rereads > 0 && world.answers(c.rereads - 1) == AuthRefused
    ensures c.rereads == start.rereads + |looks| && c.sleeps == start.sleeps + |looks|
    ensures c.stored.filled >= start.stored.filled
    ensures end.Returned? ==> end.order.filled >= start.stored.filled
    ensures end.Returned? && end.order.state == ReconciliationRequired ==> c.stored == end.order
    ensures end.Returned? && IsTerminal(end.order.state) ==> IsTerminal(c.stored.state)
  {
    c := RequestCancel(m, world, start);
    var deadline := world.clock(c.ticks) + cfg.cancelTimeoutMs;
    end, c, looks := Confirm(MaxConfirms(cfg), m, world, c.(ticks := c.ticks + 1), deadline);
  }

  /** Look until something is conclusive, the deadline has passed or the cap is used up. */
  method Confirm(cap: nat, m: Merge, world: World, first: Cursor, deadline: int)
    returns (end: Ending, c: Cursor, ghost looks: seq<Look>)
    requires Lawful(m) && first.stored.filled >= 0
    ensures Concluded(m, world, cap, first, deadline, looks, end, c)
    ensures Resolved(end)
    ensures end.AuthError? ==> c.rereads > 0 && world.answers(c.rereads - 1) == AuthRefused
    ensures c.rereads == first.rereads + |looks| && c.sleeps == first.sleeps + |looks|
    ensures c.stored.filled >= first.stored.filled
    ensures end.Returned? ==> end.order.filled >= first.stored.filled
    ensures end.Returned? && end.order.state == ReconciliationRequired ==> c.stored == end.order
    ensures end.Returned? && IsTerminal(end.order.state) ==> IsTerminal(c.stored.state)
  {
    c, looks := first, [];
    var confirms := 0;
    while true
      invariant 0 <= confirms == |looks| <= cap && Looks(m, world, first, deadline, looks)
      invariant c == Here(first, looks) && (looks != [] ==> Inconclusive(looks[|looks| - 1]))
      invariant c.rereads == first.rereads + confirms && c.sleeps == first.sleeps + confirms
      invariant c.stored.filled >= first.stored.filled
      decreases cap - confirms
    {
      var now := world.clock(c.ticks);
      if !(now < deadline && confirms < cap) { break; }
      confirms := confirms + 1;
      var look := LookOnce(m, world, c);
      LooksAppend(m, world, first, deadline, looks, look);
      looks := looks + [look];
      c := look.after;
      if look.seen.None? { return AuthError, c, looks; }
      if IsTerminal(look.seen.value.state) { return Returned(look.seen.value), c, looks; }
    }
    c := c.(ticks := c.ticks + 1, stored := c.stored.(state := ReconciliationRequired));
    return Returned(c.stored), c, looks;
  }

  // ---------------------------------------------------------------- poll to a resolution

  /** The loop before a poll: what it holds, since when it runs, and when it first saw a fill. */
  datatype Loop = Loop(c: Cursor, current: Order, startedAt: int, firstPartial: Option<int>, refused: bool)

  function Begun(world: World, start: Cursor): Loop {
    var now := world.clock(start.ticks);
    Loop(start.(ticks := start.ticks + 1), start.stored, now,
         if start.stored.filled > 0 then Some(now) else None, false)
  }

  predicate Live(l: Loop) { !IsTerminal(l.current.state) && !l.refused }

  /**
   The three deadlines at the clock readings of this poll: working at all, being merely acknowledged, and
   having been partly filled.
   */
  predicate DeadlinePassed(cfg: Config, world: World, l: Loop) {
    || world.clock(l.c.ticks) - l.startedAt > cfg.workingTimeoutMs
    || (l.current.state == Acknowledged && world.clock(l.c.ticks) - l.startedAt > cfg.ackTimeoutMs)
    || (l.firstPartial.Some? && world.clock(l.c.ticks + 1) - l.firstPartial.value > cfg.partialTimeoutMs)
  }

  /** The clock is read once per poll, and once more while a partial fill is being timed. */
  function Checked(l: Loop): Cursor {
    l.c.(ticks := l.c.ticks + (if l.firstPartial.Some? then 2 else 1))
  }

  /** One poll: sleep, adopt what landed, and unless that ended it, re-read. */
  function Advanced(m: Merge, world: World, l: Loop): Loop {
    var slept := Slept(m, world, Checked(l));
    if IsTerminal(slept.stored.state) then l.(c := slept, current := slept.stored)
    else
      var (next, refreshed) := Reread(m, world, slept);
      if refreshed.None? then l.(c := next, current := slept.stored, refused := true)
      else if refreshed.value.filled > 0 && l.firstPartial.None? then
        l.(c := next.(ticks := next.ticks + 1), current := refreshed.value,
           firstPartial := Some(world.clock(next.ticks)))
      else l.(c := next, current := refreshed.value)
  }

  /** The loop before each poll; every poll but a last one found it live and no deadline passed. */
  ghost predicate Polls(cfg: Config, m: Merge, world: World, start: Cursor, trace: seq<Loop>) {
    && 0 < |trace| <= MaxPolls(cfg) + 1 && trace[0] == Begun(world, start)
    && forall i :: 0 <= i < |trace| - 1 ==> PollStep(cfg, m, world, trace, i)
  }

  ghost predicate PollStep(cfg: Config, m: Merge, world: World, trace: seq<Loop>, i: int)
    requires 0 <= i < |trace| - 1
  {
    Live(trace[i]) && !DeadlinePassed(cfg, world, trace[i]) && trace[i + 1] == Advanced(m, world, trace[i])
  }

  /**
   A protective cancel is sent exactly when the loop is still live with its polls used up or a deadline
   passed. Otherwise the loop ended by itself and its order is the answer.
   */
  ghost predicate WaitOutcome(cfg: Config, m: Merge, world: World, start: Cursor, trace: seq<Loop>,
                              looks: seq<Look>, cancelled: bool, end: Ending, c: Cursor)
  {
    && Polls(cfg, m, world, start, trace)
    && var last := trace[|trace| - 1];
       var capped := |trace| == MaxPolls(cfg) + 1;
       && (cancelled <==> Live(last) && (capped || DeadlinePassed(cfg, world, last)))
       && (if cancelled
           then CancelOutcome(cfg, m, world, if capped then last.c else Checked(last), looks, end, c)
           else !Live(last) && c == last.c && end == if last.refused then AuthError else Returned(last.current))
  }

  lemma PollsAppend(cfg: Config, m: Merge, world: World, start: Cursor, trace: seq<Loop>)
    requires Polls(cfg, m, world, start, trace) && |trace| <= MaxPolls(cfg)
    requires Live(trace[|trace| - 1]) && !DeadlinePassed(cfg, world, trace[|trace| - 1])
    ensures Polls(cfg, m, world, start, trace + [Advanced(m, world, trace[|trace| - 1])])
  {
    var all := trace + [Advanced(m, world, trace[|trace| - 1])];
    forall i | 0 <= i < |all| - 1 ensures PollStep(cfg, m, world, all, i) {
      if i < |trace| - 1 { assert PollStep(cfg, m, world, trace, i); }
    }
  }

  /** What the loop holds besides its trace: counts within the polls done, fills no lower, sessions in step. */
  ghost predicate Bounded(world: World, start: Cursor, l: Loop, polls: nat) {
    && l.c.rereads <= start.rereads + polls && l.c.sleeps <= start.sleeps + polls
    && l.c.stored.filled >= start.stored.filled && l.current.filled >= start.stored.filled
    && (IsTerminal(l.current.state) ==> l.c.stored == l.current)
    && (l.refused ==> l.c.rereads > 0 && world.answers(l.c.rereads - 1) == AuthRefused)
  }

  /** One poll as the code runs it. */
  method PollOnce(m: Merge, world: World, l: Loop) returns (next: Loop)
    requires Lawful(m) && Live(l) && l.c.stored.filled >= 0
    ensures next == Advanced(m, world, l)
    ensures next.c.rereads <= l.c.rereads + 1 && next.c.sleeps == l.c.sleeps + 1
    ensures next.c.stored.filled >= l.c.stored.filled && next.current.filled >= l.c.stored.filled
    ensures IsTerminal(next.current.state) ==> next.c.stored == next.current
    ensures next.refused ==> next.c.rereads > 0 && world.answers(next.c.rereads - 1) == AuthRefused
  {
    var c := Sleep(m, world, Checked(l));
    if IsTerminal(c.stored.state) { return l.(c := c, current := c.stored); }
    var slept := c.stored;
    var refreshed;
    c, refreshed := RereadOrder(m, world, c);
    if refreshed.None? { return l.(c := c, current := slept, refused := true); }
    next := l.(c := c, current := refreshed.value);
    if refreshed.value.filled > 0 && l.firstPartial.None? {
      next := next.(firstPartial := Some(world.clock(c.ticks)), c := c.(ticks := c.ticks + 1));
    }
  }

  /**
   Poll to a resolution. Whatever the broker, the stream and the clock do, it ends within the poll cap
   plus the confirm cap, in a terminal state or in quarantine unless the session itself was refused,
   and never reports less filled than it started with. What it returns the session holds too.
   */
  method WaitForResolution(cfg: Config, m: Merge, world: World, start: Cursor)
    returns (end: Ending, c: Cursor, cancelled: bool, ghost trace: seq<Loop>, ghost looks: seq<Look>)
    requires Lawful(m) && start.stored.filled >= 0
    ensures WaitOutcome(cfg, m, world, start, trace, looks, cancelled, end, c)
    ensures Resolved(end)
    ensures end.Returned? && !cancelled ==> IsTerminal(end.order.state) && c.stored == end.order
    ensures end.Returned? && IsTerminal(end.order.state) ==> IsTerminal(c.stored.state)
    ensures end.Returned? && end.order.state == ReconciliationRequired ==> cancelled && c.stored == end.order
    ensures end.AuthError? ==> c.rereads > 0 && world.answers(c.rereads - 1) == AuthRefused
    ensures c.rereads <= start.rereads + MaxPolls(cfg) + MaxConfirms(cfg)
    ensures c.sleeps <= start.sleeps + MaxPolls(cfg) + MaxConfirms(cfg)
    ensures c.stored.filled >= start.stored.filled
    ensures end.Returned? ==> end.order.filled >= start.stored.filled
  {
    var startedAt := world.clock(start.ticks);
    var l := Loop(start.(ticks := start.ticks + 1), start.stored, startedAt,
                  if start.stored.filled > 0 then Some(startedAt) else None, false);
    cancelled, trace, looks := false, [l], [];
    var polls := 0;
    while !IsTerminal(l.current.state)
      invariant 0 <= polls == |trace| - 1 && Polls(cfg, m, world, start, trace) && l == trace[polls]
      invariant !l.refused && !cancelled && looks == [] && Bounded(world, start, l, polls)
      decreases MaxPolls(cfg) - polls
    {
      if polls + 1 > MaxPolls(cfg) {
        end, c, looks := ProtectiveCancel(cfg, m, world, l.c);
        cancelled := true;
        return;
      }
      var elapsed := world.clock(l.c.ticks) - l.startedAt;
      var ackHit := l.current.state == Acknowledged && elapsed > cfg.ackTimeoutMs;
      var workingHit := elapsed > cfg.workingTimeoutMs;
      var partialHit := l.firstPartial.Some?
        && world.clock(l.c.ticks + 1) - l.firstPartial.value > cfg.partialTimeoutMs;
      if ackHit || workingHit || partialHit {
        end, c, looks := ProtectiveCancel(cfg, m, world, Checked(l));
        cancelled := true;
        return;
      }
      PollsAppend(cfg, m, world, start, trace);
      l := PollOnce(m, world, l);
      polls := polls + 1;
      trace := trace + [l];
      if l.refused { return AuthError, l.c, false, trace, []; }
    }
    end, c := Returned(l.current), l.c;
  }

  // ---------------------------------------------------------------- what the outcome means

  /** The loop after n polls, were nothing to stop it. */
  function Polled(m: Merge, world: World, start: Cursor, n: nat): Loop {
    if n == 0 then Begun(world, start) else Advanced(m, world, Polled(m, world, start, n - 1))
  }

  lemma {:induction false} TraceIsPolled(cfg: Config, m: Merge, world: World, start: Cursor, trace: seq<Loop>, i: nat)
    requires Polls(cfg, m, world, start, trace) && i < |trace|
    ensures trace[i] == Polled(m, world, start, i)
  {
    if i > 0 {
      TraceIsPolled(cfg, m, world, start, trace, i - 1);
      assert PollStep(cfg, m, world, trace, i - 1);
    }
  }

  lemma TraceReaches(cfg: Config, m: Merge, world: World, start: Cursor, trace: seq<Loop>,
                     looks: seq<Look>, cancelled: bool, end: Ending, c: Cursor, k: nat)
    requires WaitOutcome(cfg, m, world, start, trace, looks, cancelled, end, c) && k <= MaxPolls(cfg)
    requires forall i :: 0 <= i < k ==>
               Live(Polled(m, world, start, i)) && !DeadlinePassed(cfg, world, Polled(m, world, start, i))
    ensures |trace| > k && trace[k] == Polled(m, world, start, k)
    ensures |trace| > k + 1 ==> Live(trace[k]) && !DeadlinePassed(cfg, world, trace[k])
  {
    var n := |trace| - 1;
    TraceIsPolled(cfg, m, world, start, trace, n);
    if n >= k { TraceIsPolled(cfg, m, world, start, trace, k); }
    if n > k { assert PollStep(cfg, m, world, trace, k); }
  }

  /**
   While no deadline has passed and a poll within the cap proves an end, the result is that order and no
   cancel is sent.
   */
  lemma EndInTimeNeedsNoCancel(cfg: Config, m: Merge, world: World, start: Cursor, trace: seq<Loop>,
                               looks: seq<Look>, cancelled: bool, end: Ending, c: Cursor, k: nat)
    requires WaitOutcome(cfg, m, world, start, trace, looks, cancelled, end, c) && k <= MaxPolls(cfg)
    requires forall i :: 0 <= i < k ==>
               Live(Polled(m, world, start, i)) && !DeadlinePassed(cfg, world, Polled(m, world, start, i))
    requires var l := Polled(m, world, start, k); IsTerminal(l.current.state) && !l.refused
    ensures !cancelled && |trace| == k + 1 && end == Returned(Polled(m, world, start, k).current)
  {
    TraceReaches(cfg, m, world, start, trace, looks, cancelled, end, c, k);
  }

  /** And if the loop is live at its first passed deadline, it cancels there: no poll is spent beyond it. */
  lemma FirstDeadlineCancels(cfg: Config, m: Merge, world: World, start: Cursor, trace: seq<Loop>,
                             looks: seq<Look>, cancelled: bool, end: Ending, c: Cursor, k: nat)
    requires WaitOutcome(cfg, m, world, start, trace, looks, cancelled, end, c) && k <= MaxPolls(cfg)
    requires forall i :: 0 <= i < k ==>
               Live(Polled(m, world, start, i)) && !DeadlinePassed(cfg, world, Polled(m, world, start, i))
    requires var l := Polled(m, world, start, k); Live(l) && DeadlinePassed(cfg, world, l)
    ensures cancelled && |trace| == k + 1
  {
    TraceReaches(cfg, m, world, start, trace, looks, cancelled, end, c, k);
  }

  /** A quarantine with confirms to spare means the whole cancel window has passed since the request. */
  lemma QuarantineWaitsOut(cfg: Config, m: Merge, world: World, start: Cursor, looks: seq<Look>, end: Ending, c: Cursor)
    requires CancelOutcome(cfg, m, world, start, looks, end, c) && |looks| < MaxConfirms(cfg)
    requires end.Returned? && !IsTerminal(end.order.state)
    ensures c.ticks > 0 && world.clock(c.ticks - 1) >= world.clock(start.ticks) + cfg.cancelTimeoutMs
  {}

  /** A partial fill is being timed exactly while something is filled. */
  ghost predicate Timed(l: Loop) {
    (l.firstPartial.Some? <==> l.current.filled > 0) && l.c.stored.filled >= l.current.filled >= 0
  }

  lemma AdvancedTimes(m: Merge, world: World, l: Loop)
    requires Lawful(m) && Live(l) && Timed(l) && Live(Advanced(m, world, l))
    ensures Timed(Advanced(m, world, l))
  {
    var slept := Slept(m, world, Checked(l));
    assert slept.stored.filled >= l.c.stored.filled;
    var (next, refreshed) := Reread(m, world, slept);
    assert next.stored.filled >= slept.stored.filled;
    assert refreshed.Some? && refreshed.value.filled >= slept.stored.filled;
  }

  lemma {:induction false} PartialIsTimedIff(m: Merge, world: World, start: Cursor, n: nat)
    requires Lawful(m) && start.stored.filled >= 0
    requires forall i :: 0 <= i <= n ==> Live(Polled(m, world, start, i))
    ensures Timed(Polled(m, world, start, n))
  {
    if n > 0 {
      PartialIsTimedIff(m, world, start, n - 1);
      assert Live(Polled(m, world, start, n - 1)) && Live(Polled(m, world, start, n));
      AdvancedTimes(m, world, Polled(m, world, start, n - 1));
    }
  }

  /** On a clock that never moves no deadline passes, so only the poll cap can bring a cancel. */
  lemma {:induction false} StoppedClockIsNeverLate(cfg: Config, m: Merge, world: World, start: Cursor, n: nat, t: int)
    requires cfg.workingTimeoutMs >= 0 && cfg.ackTimeoutMs >= 0 && cfg.partialTimeoutMs >= 0
    requires forall i :: world.clock(i) == t
    ensures var l := Polled(m, world, start, n);
            l.startedAt == t && (l.firstPartial.Some? ==> l.firstPartial.value == t) && !DeadlinePassed(cfg, world, l)
  {
    if n > 0 { StoppedClockIsNeverLate(cfg, m, world, start, n - 1, t); }
  }

  /**
   Each deadline counts on its own: past the working timeout for any order, past the acknowledgement timeout
   for one that is merely acknowledged, and past the partial timeout for one being timed.
   */
  lemma EachDeadlineCounts(cfg: Config, m: Merge, world: World, start: Cursor, n: nat)
    ensures var l := Polled(m, world, start, n);
            var elapsed := world.clock(l.c.ticks) - world.clock(start.ticks);
            && (elapsed > cfg.workingTimeoutMs ==> DeadlinePassed(cfg, world, l))
            && (l.current.state == Acknowledged && elapsed > cfg.ackTimeoutMs ==> DeadlinePassed(cfg, world, l))
            && (l.firstPartial.Some? && world.clock(l.c.ticks + 1) > l.firstPartial.value + cfg.partialTimeoutMs ==>
                  DeadlinePassed(cfg, world, l))
  {
    StartIsKept(m, world, start, n);
  }

  lemma {:induction false} StartIsKept(m: Merge, world: World, start: Cursor, n: nat)
    ensures Polled(m, world, start, n).startedAt == world.clock(start.ticks)
  {
    if n > 0 { StartIsKept(m, world, start, n - 1); }
  }
}
