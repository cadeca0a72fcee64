/**
 One process's view of flatten charges: how much of each attempt's durable charges it has already
 debited from the day's risk. Acknowledgements of a row arrive in any order, repeated or missing;
 the two maps keep every paisa of the current day's bucket debited exactly once.
 */
module ChargeWatermarks {
  import opened Common
  import opened ResidualProjection

  const NUL := '\U{0000}'

  datatype Watermarks = Watermarks(lifetime: map<string, int>, byDay: map<string, int>)

  /** What the risk hook is told: a rise of one day's bucket, a bare lifetime rise, or nothing. */
  datatype Emission = Nothing | DayCharge(day: string, previous: int, total: int) | LifetimeCharge(delta: int)

  /** The charge figures one acknowledgement of a row carries. */
  datatype Ack = Ack(lifetime: Option<int>, day: Option<string>, dayCharges: Option<int>)

  function DayKey(attempt: string, day: string): string { attempt + [NUL] + day }

  function IndexOf(s: string, c: char): int {
    if s == "" then -1
    else if s[0] == c then 0
    else var rest := IndexOf(s[1..], c); if rest < 0 then -1 else rest + 1
  }

  lemma {:induction false} IndexOfFirst(a: string, c: char, b: string)
    requires c !in a
    ensures IndexOf(a + [c] + b, c) == |a|
  {
    if a == "" {
      assert (a + [c] + b)[0] == c;
    } else {
      assert (a + [c] + b)[1..] == a[1..] + [c] + b;
      IndexOfFirst(a[1..], c, b);
    }
  }

  /** The attempt and day a bucket key is read back as. */
  function SplitKey(key: string): (string, string) {
    var i := IndexOf(key, NUL);
    if 0 <= i < |key| then (key[..i], key[i + 1..]) else (key, "")
  }

  /** Keys of attempts without the separator read back as written, so distinct buckets never collide. */
  lemma SplitDayKey(attempt: string, day: string)
    requires NUL !in attempt
    ensures SplitKey(DayKey(attempt, day)) == (attempt, day)
  {
    IndexOfFirst(attempt, NUL, day);
    assert DayKey(attempt, day)[..|attempt|] == attempt;
    assert DayKey(attempt, day)[|attempt| + 1..] == day;
  }

  // ---------------------------------------------------------------- the updates, as functions

  function Clamp(charges: Option<int>): nat { AtLeastZero(charges.GetOr(0)) }

  function Lookup(m: map<string, int>, key: string): int { if key in m then m[key] else 0 }

  predicate HasDay(day: Option<string>) { day.Some? && day.value != "" }

  function Seeded(w: Watermarks, attempt: string, charges: Option<int>): Watermarks {
    w.(lifetime := w.lifetime[attempt := Max(Lookup(w.lifetime, attempt), Clamp(charges))])
  }

  function SeededForDay(w: Watermarks, attempt: string, day: Option<string>, charges: Option<int>): Watermarks {
    if !HasDay(day) || charges.None? then w else
    var key := DayKey(attempt, day.value);
    w.(byDay := w.byDay[key := Max(Lookup(w.byDay, key), Clamp(charges))])
  }

  function Reconciled(w: Watermarks, attempt: string, ack: Ack): (Watermarks, Emission) {
    if ack.lifetime.None? then (w, Nothing) else
    var cumulative := Clamp(ack.lifetime);
    var observed := Lookup(w.lifetime, attempt);
    var w1 := if cumulative > observed then w.(lifetime := w.lifetime[attempt := cumulative]) else w;
    if HasDay(ack.day) && ack.dayCharges.Some? then
      var key := DayKey(attempt, ack.day.value);
      var total := Clamp(ack.dayCharges);
      var previous := Lookup(w.byDay, key);
      if total <= previous then (w1, Nothing)
      else (w1.(byDay := w1.byDay[key := total]), DayCharge(ack.day.value, previous, total))
    else
      (w1, if cumulative > observed then LifetimeCharge(cumulative - observed) else Nothing)
  }

  function Adopted(w: Watermarks, attempt: string, currentDay: string, ack: Ack): (Watermarks, Emission) {
    if attempt in w.lifetime then Reconciled(w, attempt, ack.(lifetime := Some(Clamp(ack.lifetime)))) else
    var w1 := w.(lifetime := w.lifetime[attempt := Clamp(ack.lifetime)]);
    var today := if ack.day == Some(currentDay) then Clamp(ack.dayCharges) else 0;
    (SeededForDay(w1, attempt, ack.day, ack.dayCharges),
     if today > 0 then DayCharge(currentDay, 0, today) else Nothing)
  }

  predicate KeepsBucket(retain: set<string>, currentDay: string, key: string) {
    SplitKey(key).0 in retain && SplitKey(key).1 == currentDay
  }

  function Compacted(w: Watermarks, retain: set<string>, currentDay: string): Watermarks {
    Watermarks(map a | a in w.lifetime && a in retain :: w.lifetime[a],
               map k | k in w.byDay && KeepsBucket(retain, currentDay, k) :: w.byDay[k])
  }

  /** Exactly the retained attempts and, of their buckets, those of the current day are kept, with their values. */
  lemma CompactionKeepsExactly(w: Watermarks, retain: set<string>, currentDay: string, attempt: string, day: string)
    requires NUL !in attempt
    ensures var c := Compacted(w, retain, currentDay);
            && (attempt in c.lifetime <==> attempt in w.lifetime && attempt in retain)
            && (attempt in c.lifetime ==> c.lifetime[attempt] == w.lifetime[attempt])
            && (DayKey(attempt, day) in c.byDay <==>
                  DayKey(attempt, day) in w.byDay && attempt in retain && day == currentDay)
            && (DayKey(attempt, day) in c.byDay ==> c.byDay[DayKey(attempt, day)] == w.byDay[DayKey(attempt, day)])
  {
    SplitDayKey(attempt, day);
  }

  // ---------------------------------------------------------------- the process state

  class ChargeObserver {
    var observedByAttempt: map<string, int>
    var observedByAttemptDay: map<string, int>

    function View(): Watermarks
      reads this
    {
      Watermarks(observedByAttempt, observedByAttemptDay)
    }

    constructor ()
      ensures View() == Watermarks(map[], map[])
    {
      observedByAttempt, observedByAttemptDay := map[], map[];
    }

    method Seed(attempt: string, charges: Option<int>)
      modifies this
      ensures View() == Seeded(old(View()), attempt, charges)
    {
      var cumulative := Clamp(charges);
      observedByAttempt := observedByAttempt[attempt := Max(Lookup(observedByAttempt, attempt), cumulative)];
    }

    method SeedForDay(attempt: string, day: Option<string>, charges: Option<int>)
      modifies this
      ensures View() == SeededForDay(old(View()), attempt, day, charges)
    {
      if !HasDay(day) || charges.None? { return; }
      var key := DayKey(attempt, day.value);
      observedByAttemptDay := observedByAttemptDay[key := Max(Lookup(observedByAttemptDay, key), Clamp(charges))];
    }

    method Reconcile(attempt: string, ack: Ack) returns (emission: Emission)
      modifies this
      ensures (View(), emission) == Reconciled(old(View()), attempt, ack)
    {
      emission := Nothing;
      if ack.lifetime.None? { return; }
      var cumulative := Clamp(ack.lifetime);
      var observed := Lookup(observedByAttempt, attempt);
      if cumulative > observed {
        observedByAttempt := observedByAttempt[attempt := cumulative];
      }
      if HasDay(ack.day) && ack.dayCharges.Some? {
        var key := DayKey(attempt, ack.day.value);
        var total := Clamp(ack.dayCharges);
        var previous := Lookup(observedByAttemptDay, key);
        if total <= previous { return; }
        observedByAttemptDay := observedByAttemptDay[key := total];
        emission := DayCharge(ack.day.value, previous, total);
      } else if cumulative > observed {
        emission := LifetimeCharge(cumulative - observed);
      }
    }

    method Adopt(attempt: string, currentDay: string, ack: Ack) returns (emission: Emission)
      modifies this
      ensures (View(), emission) == Adopted(old(View()), attempt, currentDay, ack)
    {
      var cumulative := Clamp(ack.lifetime);
      if attempt in observedByAttempt {
        emission := Reconcile(attempt, ack.(lifetime := Some(cumulative)));
        return;
      }
      observedByAttempt := observedByAttempt[attempt := cumulative];
      var today := if ack.day == Some(currentDay) then Clamp(ack.dayCharges) else 0;
      SeedForDay(attempt, ack.day, ack.dayCharges);
      emission := if today > 0 then DayCharge(currentDay, 0, today) else Nothing;
    }

    /** Two passes of in-place deletion, then the sizes that remain. */
    method Compact(retain: set<string>, currentDay: string) returns (lifetime: nat, dayBuckets: nat)
      modifies this
      ensures View() == Compacted(old(View()), retain, currentDay)
      ensures lifetime == |observedByAttempt| && dayBuckets == |observedByAttemptDay|
    {
      var todo := observedByAttempt.Keys;
      while todo != {}
        invariant todo <= old(observedByAttempt).Keys
        invariant observedByAttemptDay == old(observedByAttemptDay)
        invariant forall a :: a in observedByAttempt <==>
                    a in old(observedByAttempt) && (a in todo || a in retain)
        invariant forall a :: a in observedByAttempt ==> observedByAttempt[a] == old(observedByAttempt)[a]
        decreases todo
      {
        var a :| a in todo;
        if a !in retain { observedByAttempt := observedByAttempt - {a}; }
        todo := todo - {a};
      }
      var keys := observedByAttemptDay.Keys;
      while keys != {}
        invariant keys <= old(observedByAttemptDay).Keys
        invariant observedByAttempt == Compacted(old(View()), retain, currentDay).lifetime
        invariant forall k :: k in observedByAttemptDay <==>
                    k in old(observedByAttemptDay) && (k in keys || KeepsBucket(retain, currentDay, k))
        invariant forall k :: k in observedByAttemptDay ==> observedByAttemptDay[k] == old(observedByAttemptDay)[k]
        decreases keys
      {
        var k :| k in keys;
        if !KeepsBucket(retain, currentDay, k) { observedByAttemptDay := observedByAttemptDay - {k}; }
        keys := keys - {k};
      }
      lifetime, dayBuckets := |observedByAttempt|, |observedByAttemptDay|;
    }
  }

  // ---------------------------------------------------------------- every run of one process, one day

  /** What a process does with its watermarks while `currentDay` lasts. */
  datatype Op =
    | SeedRow(attempt: string, ack: Ack)
    | AdoptRow(attempt: string, ack: Ack)
    | Acknowledge(attempt: string, ack: Ack)
    | CompactTo(retain: set<string>)

  function Perform(w: Watermarks, op: Op, currentDay: string): (Watermarks, Emission) {
    match op
    case SeedRow(a, ack) => (SeededForDay(Seeded(w, a, ack.lifetime), a, ack.day, ack.dayCharges), Nothing)
    case AdoptRow(a, ack) => Adopted(w, a, currentDay, ack)
    case Acknowledge(a, ack) => Reconciled(w, a, ack)
    case CompactTo(retain) => (Compacted(w, retain, currentDay), Nothing)
  }

  function Marks(ops: seq<Op>, day: string): Watermarks {
    if ops == [] then Watermarks(map[], map[])
    else Perform(Marks(ops[..|ops| - 1], day), ops[|ops| - 1], day).0
  }

  predicate About(op: Op, attempt: string) { !op.CompactTo? && op.attempt == attempt }

  /** What one emission takes from the risk of `day`: a rise of that day's bucket, or any undated rise. */
  function Amount(e: Emission, day: string): int {
    match e
    case Nothing => 0
    case DayCharge(d, previous, total) => if d == day then total - previous else 0
    case LifetimeCharge(delta) => delta
  }

  /** Paise the risk owner was told to debit on `day` for `attempt`. */
  function Debited(ops: seq<Op>, attempt: string, day: string): int {
    if ops == [] then 0 else
    var before := ops[..|ops| - 1];
    var op := ops[|ops| - 1];
    Debited(before, attempt, day)
    + (if About(op, attempt) then Amount(Perform(Marks(before, day), op, day).1, day) else 0)
  }

  /** Paise of `day` that entered the watermark from a durable risk seed, which already counts them. */
  function SeededAmount(ops: seq<Op>, attempt: string, day: string): int {
    if ops == [] then 0 else
    var before := ops[..|ops| - 1];
    var op := ops[|ops| - 1];
    SeededAmount(before, attempt, day)
    + (if About(op, attempt) && op.SeedRow?
       then Max(0, Seen(op, attempt, day) - Lookup(Marks(before, day).byDay, DayKey(attempt, day)))
       else 0)
  }

  /** The bucket total for `attempt` and `day` that one operation shows the process. */
  function Seen(op: Op, attempt: string, day: string): int {
    if About(op, attempt) && op.ack.day == Some(day) then Clamp(op.ack.dayCharges) else 0
  }

  function HighestSeen(ops: seq<Op>, attempt: string, day: string): int {
    if ops == [] then 0
    else Max(HighestSeen(ops[..|ops| - 1], attempt, day), Seen(ops[|ops| - 1], attempt, day))
  }

  /** The lifetime total one operation shows the process. */
  function LifetimeSeen(op: Op, attempt: string): int {
    if About(op, attempt) then Clamp(op.ack.lifetime) else 0
  }

  function HighestLifetime(ops: seq<Op>, attempt: string): int {
    if ops == [] then 0
    else Max(HighestLifetime(ops[..|ops| - 1], attempt), LifetimeSeen(ops[|ops| - 1], attempt))
  }

  /** The process has a lifetime watermark for the attempt. */
  predicate Met(ops: seq<Op>, attempt: string) {
    ops != [] && (Met(ops[..|ops| - 1], attempt) ||
                  (About(ops[|ops| - 1], attempt) &&
                   (!ops[|ops| - 1].Acknowledge? || Clamp(ops[|ops| - 1].ack.lifetime) > 0)))
  }

  predicate Dated(ack: Ack) { HasDay(ack.day) && ack.dayCharges.Some? }

  /**
   The operation shows a lifetime total above all shown before, with no day to book it on, on a path
   that debits: an acknowledgement, or an adoption of an attempt the process has met.
   */
  predicate UndatedRise(before: seq<Op>, op: Op, attempt: string) {
    && About(op, attempt) && !op.SeedRow? && (op.AdoptRow? ==> Met(before, attempt))
    && !Dated(op.ack) && LifetimeSeen(op, attempt) > HighestLifetime(before, attempt)
  }

  /** Paise debited through undated rises. */
  function Undated(ops: seq<Op>, attempt: string): nat {
    if ops == [] then 0 else
    var before := ops[..|ops| - 1];
    var op := ops[|ops| - 1];
    Undated(before, attempt)
    + (if UndatedRise(before, op, attempt) then LifetimeSeen(op, attempt) - HighestLifetime(before, attempt) else 0)
  }

  /** What every acknowledgement of a stored row satisfies: a total is present and covers its day bucket. */
  predicate Sane(ack: Ack) { ack.lifetime.Some? && Clamp(ack.dayCharges) <= Clamp(ack.lifetime) }

  /** The attempt stays retained, its figures come from its row, and ids hold no separator. */
  ghost predicate Tracks(op: Op, attempt: string) {
    && (op.CompactTo? ==> attempt in op.retain)
    && (!op.CompactTo? ==> NUL !in op.attempt)
    && (About(op, attempt) ==> Sane(op.ack))
  }

  ghost predicate AllTrack(ops: seq<Op>, attempt: string) {
    forall i :: 0 <= i < |ops| ==> Tracks(ops[i], attempt)
  }

  /** The two watermarks of the attempt, and whether a first-sight adoption is still possible. */
  ghost predicate MarkIs(w: Watermarks, attempt: string, day: string, highest: int, lifetime: int, met: bool) {
    && Lookup(w.byDay, DayKey(attempt, day)) == highest
    && Lookup(w.lifetime, attempt) == lifetime
    && (met <==> attempt in w.lifetime)
    && 0 <= highest <= lifetime
    && (!met ==> lifetime == 0)
  }

  lemma OtherBucketUntouched(op: Op, attempt: string, day: string, w: Watermarks)
    requires !op.CompactTo? && op.attempt != attempt && NUL !in op.attempt && NUL !in attempt
    ensures Lookup(Perform(w, op, day).0.byDay, DayKey(attempt, day)) == Lookup(w.byDay, DayKey(attempt, day))
  {
    if op.ack.day.Some? { KeysDiffer(attempt, day, op.attempt, op.ack.day.value); }
  }

  lemma KeysDiffer(attempt: string, day: string, other: string, otherDay: string)
    requires NUL !in attempt && NUL !in other && (attempt != other || day != otherDay)
    ensures DayKey(attempt, day) != DayKey(other, otherDay)
  {
    SplitDayKey(attempt, day);
    SplitDayKey(other, otherDay);
  }

  lemma OtherLifetimeUntouched(op: Op, attempt: string, day: string, w: Watermarks)
    requires !op.CompactTo? && op.attempt != attempt
    ensures attempt in w.lifetime <==> attempt in Perform(w, op, day).0.lifetime
    ensures Lookup(Perform(w, op, day).0.lifetime, attempt) == Lookup(w.lifetime, attempt)
  {}

  lemma CompactionKeepsBucket(w: Watermarks, retain: set<string>, attempt: string, day: string)
    requires attempt in retain && NUL !in attempt
    ensures Lookup(Compacted(w, retain, day).byDay, DayKey(attempt, day)) == Lookup(w.byDay, DayKey(attempt, day))
    ensures attempt in w.lifetime <==> attempt in Compacted(w, retain, day).lifetime
    ensures Lookup(Compacted(w, retain, day).lifetime, attempt) == Lookup(w.lifetime, attempt)
  {
    SplitDayKey(attempt, day);
  }

  /** The marks an operation about its own attempt leaves, from the marks before. */
  ghost predicate OwnMarks(w: Watermarks, op: Op, day: string, highest: int, lifetime: int, met: bool)
    requires !op.CompactTo?
  {
    MarkIs(w, op.attempt, day, Max(highest, Seen(op, op.attempt, day)), Max(lifetime, LifetimeSeen(op, op.attempt)),
           met || !op.Acknowledge? || LifetimeSeen(op, op.attempt) > 0)
  }

  /** What it debits: the rise of the day's bucket, or an undated rise of the lifetime. */
  function OwnDebit(op: Op, day: string, highest: int, lifetime: int, met: bool): int
    requires !op.CompactTo?
  {
    Max(highest, Seen(op, op.attempt, day)) - highest
    + (if (op.AdoptRow? ==> met) && !Dated(op.ack) && LifetimeSeen(op, op.attempt) > lifetime
       then LifetimeSeen(op, op.attempt) - lifetime else 0)
  }

  lemma SeedStep(w: Watermarks, op: Op, day: string, highest: int, lifetime: int, met: bool)
    requires op.SeedRow? && NUL !in op.attempt && day != "" && Sane(op.ack)
    requires MarkIs(w, op.attempt, day, highest, lifetime, met)
    ensures OwnMarks(Perform(w, op, day).0, op, day, highest, lifetime, met)
  {
    if op.ack.day.Some? && op.ack.day.value != day { KeysDiffer(op.attempt, day, op.attempt, op.ack.day.value); }
  }

  lemma AcknowledgeStep(w: Watermarks, op: Op, day: string, highest: int, lifetime: int, met: bool)
    requires op.Acknowledge? && NUL !in op.attempt && day != "" && Sane(op.ack)
    requires MarkIs(w, op.attempt, day, highest, lifetime, met)
    ensures OwnMarks(Perform(w, op, day).0, op, day, highest, lifetime, met)
    ensures Amount(Perform(w, op, day).1, day) == OwnDebit(op, day, highest, lifetime, met)
  {
    if op.ack.day.Some? && op.ack.day.value != day { KeysDiffer(op.attempt, day, op.attempt, op.ack.day.value); }
  }

  lemma AdoptStep(w: Watermarks, op: Op, day: string, highest: int, lifetime: int, met: bool)
    requires op.AdoptRow? && NUL !in op.attempt && day != "" && Sane(op.ack)
    requires MarkIs(w, op.attempt, day, highest, lifetime, met)
    ensures OwnMarks(Perform(w, op, day).0, op, day, highest, lifetime, met)
    ensures Amount(Perform(w, op, day).1, day) == OwnDebit(op, day, highest, lifetime, met)
  {
    if op.ack.day.Some? && op.ack.day.value != day { KeysDiffer(op.attempt, day, op.attempt, op.ack.day.value); }
  }

  lemma OwnStep(w: Watermarks, op: Op, day: string, highest: int, lifetime: int, met: bool)
    requires !op.CompactTo? && NUL !in op.attempt && day != "" && Sane(op.ack)
    requires MarkIs(w, op.attempt, day, highest, lifetime, met)
    ensures OwnMarks(Perform(w, op, day).0, op, day, highest, lifetime, met)
    ensures !op.SeedRow? ==> Amount(Perform(w, op, day).1, day) == OwnDebit(op, day, highest, lifetime, met)
  {
    match op
    case SeedRow(_, _) => SeedStep(w, op, day, highest, lifetime, met);
    case Acknowledge(_, _) => AcknowledgeStep(w, op, day, highest, lifetime, met);
    case AdoptRow(_, _) => AdoptStep(w, op, day, highest, lifetime, met);
  }

  lemma {:induction false} MarksAre(ops: seq<Op>, attempt: string, day: string)
    requires NUL !in attempt && day != "" && AllTrack(ops, attempt)
    ensures MarkIs(Marks(ops, day), attempt, day,
                   HighestSeen(ops, attempt, day), HighestLifetime(ops, attempt), Met(ops, attempt))
  {
    if ops != [] {
      var before, op := ops[..|ops| - 1], ops[|ops| - 1];
      MarksAre(before, attempt, day);
      var w := Marks(before, day);
      if op.CompactTo? {
        CompactionKeepsBucket(w, op.retain, attempt, day);
      } else if op.attempt != attempt {
        OtherBucketUntouched(op, attempt, day, w);
        OtherLifetimeUntouched(op, attempt, day, w);
      } else {
        OwnStep(w, op, day, HighestSeen(before, attempt, day), HighestLifetime(before, attempt), Met(before, attempt));
      }
    }
  }

  /**
   For a retained attempt and the current day: whatever is seeded, adopted, acknowledged, repeated,
   reordered or compacted, the debits plus the seeded part are the highest bucket total ever seen plus
   what was debited through undated rises.
   */
  lemma {:induction false} DebitsAccounted(ops: seq<Op>, attempt: string, day: string)
    requires NUL !in attempt && day != "" && AllTrack(ops, attempt)
    ensures Debited(ops, attempt, day) + SeededAmount(ops, attempt, day)
         == HighestSeen(ops, attempt, day) + Undated(ops, attempt)
  {
    if ops != [] {
      var before, op := ops[..|ops| - 1], ops[|ops| - 1];
      DebitsAccounted(before, attempt, day);
      MarksAre(before, attempt, day);
      if About(op, attempt) {
        OwnStep(Marks(before, day), op, day,
                HighestSeen(before, attempt, day), HighestLifetime(before, attempt), Met(before, attempt));
      }
    }
  }

  /** Some acknowledgement in the run showed an undated rise. */
  ghost predicate AnyUndatedRise(ops: seq<Op>, attempt: string) {
    exists i :: 0 <= i < |ops| && UndatedRise(ops[..i], ops[i], attempt)
  }

  lemma {:induction false} UndatedIsRises(ops: seq<Op>, attempt: string)
    ensures Undated(ops, attempt) > 0 <==> AnyUndatedRise(ops, attempt)
  {
    if ops != [] {
      var before, op := ops[..|ops| - 1], ops[|ops| - 1];
      UndatedIsRises(before, attempt);
      assert forall i :: 0 <= i < |before| ==> ops[..i] == before[..i] && ops[i] == before[i];
      if AnyUndatedRise(before, attempt) {
        var i :| 0 <= i < |before| && UndatedRise(before[..i], before[i], attempt);
        assert UndatedRise(ops[..i], ops[i], attempt);
      }
      if UndatedRise(before, op, attempt) { assert UndatedRise(ops[..|before|], ops[|before|], attempt); }
    }
  }

  /** Every paisa of the current day is debited exactly once if and only if no undated rise was shown. */
  lemma DebitedOncePerPaisaIff(ops: seq<Op>, attempt: string, day: string)
    requires NUL !in attempt && day != "" && AllTrack(ops, attempt)
    ensures Debited(ops, attempt, day) + SeededAmount(ops, attempt, day) == HighestSeen(ops, attempt, day)
       <==> !AnyUndatedRise(ops, attempt)
  {
    DebitsAccounted(ops, attempt, day);
    UndatedIsRises(ops, attempt);
  }

  // ---------------------------------------------------------------- acknowledgements come from the row

  /** The figures a read or an acknowledgement of the row carries. */
  function ShownBy(s: Snapshot): Ack {
    var r := Report(Applied, Some(s));
    Ack(r.charges, r.chargeDay, r.dayCharges)
  }

  /** The operation shows the process some state the row went through. */
  ghost predicate ShowsRow(op: Op, attempt: string, s: Snapshot, cmds: seq<Command>) {
    About(op, attempt) ==> exists k :: 0 <= k <= |cmds| && op.ack == ShownBy(After(s, cmds[..k]))
  }

  /** The figures the compare-and-set itself answers with are those of the row after the command. */
  lemma AnswerShowsRow(s: Snapshot, cmds: seq<Command>, c: Command)
    ensures var (result, row) := Transition(Some(After(s, cmds)), c);
            && row == Some(After(s, cmds + [c])) && result.status == Verdict(After(s, cmds), c)
            && Ack(result.charges, result.chargeDay, result.dayCharges) == ShownBy(After(s, cmds + [c]))
    ensures Transition(None, c).0.status == NotFound && Transition(None, c).0.charges == None
  {
    assert (cmds + [c])[..|cmds|] == cmds;
  }

  /** A process that is shown only states of the row, keeps the attempt, and uses ids without separators. */
  ghost predicate Observes(ops: seq<Op>, attempt: string, s: Snapshot, cmds: seq<Command>) {
    forall i :: 0 <= i < |ops| ==>
      && ShowsRow(ops[i], attempt, s, cmds)
      && (ops[i].CompactTo? ==> attempt in ops[i].retain)
      && (!ops[i].CompactTo? ==> NUL !in ops[i].attempt)
  }

  lemma RowsAreSane(s: Snapshot, cmds: seq<Command>, ops: seq<Op>, attempt: string)
    requires AllBuilt(cmds) && DayTotal(s) <= Lifetime(s) && Observes(ops, attempt, s, cmds)
    ensures AllTrack(ops, attempt)
  {
    forall i | 0 <= i < |ops| ensures Tracks(ops[i], attempt) {
      if About(ops[i], attempt) {
        var k :| 0 <= k <= |cmds| && ops[i].ack == ShownBy(After(s, cmds[..k]));
        DayTotalWithinLifetime(s, cmds[..k]);
      }
    }
  }

  /** A row that has charged anything says on which day. */
  predicate DatedRow(s: Snapshot) { Lifetime(s) > 0 ==> HasDay(s.chargeDay) }

  lemma {:induction false} RowsStayDated(s: Snapshot, cmds: seq<Command>)
    requires AllBuilt(cmds) && DatedRow(s)
    ensures DatedRow(After(s, cmds))
  {
    if cmds != [] {
      RowsStayDated(s, cmds[..|cmds| - 1]);
      assert Built(cmds[|cmds| - 1]);
    }
  }

  /**
   End to end: a process shown any states of a dated row, in any order and number, debits each paisa of
   the current day once. The row's own invariants are what make the adoption and lifetime paths safe.
   */
  lemma RowAcksDebitOnce(s: Snapshot, cmds: seq<Command>, ops: seq<Op>, attempt: string, day: string)
    requires AllBuilt(cmds) && DayTotal(s) <= Lifetime(s) && DatedRow(s)
    requires NUL !in attempt && day != "" && Observes(ops, attempt, s, cmds)
    ensures Debited(ops, attempt, day) + SeededAmount(ops, attempt, day) == HighestSeen(ops, attempt, day)
  {
    RowsAreSane(s, cmds, ops, attempt);
    DebitedOncePerPaisaIff(ops, attempt, day);
    forall i | 0 <= i < |ops| ensures !UndatedRise(ops[..i], ops[i], attempt) {
      if About(ops[i], attempt) {
        var k :| 0 <= k <= |cmds| && ops[i].ack == ShownBy(After(s, cmds[..k]));
        RowsStayDated(s, cmds[..k]);
        LifetimesCount(ops[..i], attempt);
      }
    }
  }

  lemma {:induction false} LifetimesCount(ops: seq<Op>, attempt: string)
    ensures HighestLifetime(ops, attempt) >= 0
  {
    if ops != [] { LifetimesCount(ops[..|ops| - 1], attempt); }
  }

  /** A legacy row without a day: its first acknowledgement debits the whole lifetime total from today. */
  lemma UndatedRowOverdebits(s: Snapshot, attempt: string, day: string)
    requires DayTotal(s) <= Lifetime(s) && !DatedRow(s) && NUL !in attempt && day != ""
    ensures var ops := [Acknowledge(attempt, ShownBy(s))];
            && Observes(ops, attempt, s, []) && HighestSeen(ops, attempt, day) == 0
            && Debited(ops, attempt, day) == Lifetime(s) > 0 && SeededAmount(ops, attempt, day) == 0
  {
    var op := Acknowledge(attempt, ShownBy(s));
    assert [op][..0] == [];
    var none: seq<Command> := [];
    assert none[..0] == none;
    assert op.ack == ShownBy(After(s, none[..0]));
    assert Marks([], day) == Watermarks(map[], map[]);
  }

  /** So the law holds for every process exactly when the row starts dated. */
  lemma RowDebitsOnceIff(s: Snapshot, cmds: seq<Command>, attempt: string, day: string)
    requires AllBuilt(cmds) && DayTotal(s) <= Lifetime(s) && NUL !in attempt && day != ""
    ensures (forall ops :: Observes(ops, attempt, s, cmds) ==>
               Debited(ops, attempt, day) + SeededAmount(ops, attempt, day) == HighestSeen(ops, attempt, day))
       <==> DatedRow(s)
  {
    if DatedRow(s) {
      forall ops | Observes(ops, attempt, s, cmds)
        ensures Debited(ops, attempt, day) + SeededAmount(ops, attempt, day) == HighestSeen(ops, attempt, day)
      {
        RowAcksDebitOnce(s, cmds, ops, attempt, day);
      }
    } else {
      UndatedRowOverdebits(s, attempt, day);
      var ops := [Acknowledge(attempt, ShownBy(s))];
      assert cmds[..0] == [];
      assert ops[0].ack == ShownBy(After(s, cmds[..0]));
      assert Observes(ops, attempt, s, cmds);
    }
  }

  /** Without that invariant the same five paise are debited twice: once by reconciling, once by adopting. */
  lemma BucketAboveLifetimeDebitsTwice()
    ensures var ops := [Acknowledge("a", Ack(Some(0), Some("d"), Some(5))),
                        AdoptRow("a", Ack(Some(5), Some("d"), Some(5)))];
            Debited(ops, "a", "d") == 10 && HighestSeen(ops, "a", "d") == 5
  {
    var first := Acknowledge("a", Ack(Some(0), Some("d"), Some(5)));
    var second := AdoptRow("a", Ack(Some(5), Some("d"), Some(5)));
    var ops := [first, second];
    assert ops[..1] == [first] && [first][..0] == [];
    var key := DayKey("a", "d");
    assert Marks([first], "d") == Watermarks(map[], map[key := 5]);
    assert Perform(Marks([], "d"), first, "d").1 == DayCharge("d", 0, 5);
    assert Perform(Marks([first], "d"), second, "d").1 == DayCharge("d", 0, 5);
    assert Debited([first], "a", "d") == 5;
    assert HighestSeen([first], "a", "d") == 5;
  }
}
