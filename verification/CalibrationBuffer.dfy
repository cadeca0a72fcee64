/**
 The bounded, batching buffer in front of the calibration sink. The sink is slow, may fail and, if it
 is not written as an async function, may throw before returning anything.
 */
module CalibrationBuffer {
  import opened Common

  /** The in-flight marker: clear, a batch being written, or a settled write that was never cleared. */
  datatype Latch<T> = Clear | Writing(batch: seq<T>) | Wedged

  /**
   `log` is every accepted sample in order, `sent` every sample handed to the sink, and `marks` the
   position in `log` of each element of `sent` followed by `buffer`.
   */
  datatype Buffer<T> = Buffer(
    enabled: bool, batchSize: nat, maxBuffered: nat, buffer: seq<T>, latch: Latch<T>, disposed: bool,
    persisted: nat, lost: nat, flushFailures: nat, log: seq<T>, sent: seq<T>, marks: seq<nat>)

  /** The memory cap is authoritative: a batch preference above it shrinks to it. */
  function Sizes(batchSize: real, maxBuffered: Option<real>): (r: (nat, nat))
    ensures 1 <= r.0 <= r.1
    ensures maxBuffered.Some? && maxBuffered.value >= 1.0 ==> r.1 == maxBuffered.value.Floor
    ensures maxBuffered.Some? && maxBuffered.value < 1.0 ==> r.1 == 1
    ensures maxBuffered.None? ==> r.1 == if batchSize < 50.0 then 1000 else 20 * batchSize.Floor
    ensures 1.0 <= batchSize < r.1 as real ==> r.0 == batchSize.Floor
    ensures batchSize >= r.1 as real ==> r.0 == r.1
    ensures batchSize < 1.0 ==> r.0 == 1
  {
    var cap := Max(1, if maxBuffered.Some? then maxBuffered.value.Floor else Max(1000, batchSize.Floor * 20));
    (Max(1, Min(batchSize.Floor, cap)), cap)
  }

  function Fresh<T>(enabled: bool, batchSize: nat, maxBuffered: nat): Buffer<T> {
    Buffer(enabled, batchSize, maxBuffered, [], Clear, false, 0, 0, 0, [], [], [])
  }

  /** How the call into the sink began. */
  datatype SinkStart = Started | ThrewAtOnce

  function Flushed<T>(b: Buffer<T>, start: SinkStart): Buffer<T> {
    if !b.enabled || b.disposed || b.latch != Clear || b.buffer == [] then b
    else
      var out := b.(buffer := [], sent := b.sent + b.buffer);
      if start == Started then out.(latch := Writing(b.buffer))
      else out.(latch := Wedged, lost := b.lost + |b.buffer|, flushFailures := b.flushFailures + 1)
  }

  function Overflow<T>(b: Buffer<T>): nat { if |b.buffer| > b.maxBuffered then |b.buffer| - b.maxBuffered else 0 }

  function Accepted<T>(b: Buffer<T>, sample: T): Buffer<T> {
    b.(buffer := b.buffer + [sample], log := b.log + [sample], marks := b.marks + [|b.log|])
  }

  /** Keep the newest samples within the cap and count the rest as lost. */
  function Trimmed<T>(b: Buffer<T>): Buffer<T> {
    var k := Overflow(b);
    if k == 0 || |b.marks| != |b.sent| + |b.buffer| then b
    else b.(buffer := b.buffer[k..], lost := b.lost + k, marks := b.marks[..|b.sent|] + b.marks[|b.sent| + k..])
  }

  function Recorded<T>(b: Buffer<T>, sample: T, start: SinkStart): Buffer<T> {
    if !b.enabled || b.disposed then b
    else
      var kept := Trimmed(Accepted(b, sample));
      if |kept.buffer| >= kept.batchSize then Flushed(kept, start) else kept
  }

  function SinkSettled<T>(b: Buffer<T>, ok: bool): Buffer<T> {
    if !b.latch.Writing? then b
    else if ok then b.(latch := Clear, persisted := b.persisted + |b.latch.batch|)
    else b.(latch := Clear, lost := b.lost + |b.latch.batch|, flushFailures := b.flushFailures + 1)
  }

  datatype Event<T> = Record(sample: T, start: SinkStart) | Flush(start: SinkStart) | Settle(ok: bool) | Disposed

  function Next<T>(b: Buffer<T>, e: Event<T>): Buffer<T> {
    match e
    case Record(sample, start) => Recorded(b, sample, start)
    case Flush(start) => Flushed(b, start)
    case Settle(ok) => SinkSettled(b, ok)
    case Disposed => b.(disposed := true)
  }

  function After<T>(b: Buffer<T>, es: seq<Event<T>>): Buffer<T> {
    if es == [] then b else Next(After(b, es[..|es| - 1]), es[|es| - 1])
  }

  // ---------------------------------------------------------------- the object

  class CalibrationPersistenceBuffer<T(==)> {
    const enabled: bool
    const batchSize: nat
    const maxBuffered: nat
    var buffer: seq<T>
    var flushInFlight: Latch<T>
    var disposed: bool
    var persistedTotal: nat
    var lostTotal: nat
    var flushFailures: nat
    ghost var log: seq<T>
    ghost var sent: seq<T>
    ghost var marks: seq<nat>

    ghost function View(): Buffer<T>
      reads this
    {
      Buffer(enabled, batchSize, maxBuffered, buffer, flushInFlight, disposed,
             persistedTotal, lostTotal, flushFailures, log, sent, marks)
    }

    constructor (enabled: bool, batchSize: real, maxBuffered: Option<real>)
      ensures View() == Fresh<T>(enabled, Sizes(batchSize, maxBuffered).0, Sizes(batchSize, maxBuffered).1)
    {
      var sizes := Sizes(batchSize, maxBuffered);
      this.enabled, this.batchSize, this.maxBuffered := enabled, sizes.0, sizes.1;
      buffer, flushInFlight, disposed := [], Clear, false;
      persistedTotal, lostTotal, flushFailures := 0, 0, 0;
      log, sent, marks := [], [], [];
    }

    method Flush(start: SinkStart)
      modifies this
      ensures View() == Flushed(old(View()), start)
    {
      if !enabled || disposed { return; }
      if flushInFlight != Clear { return; }
      if |buffer| == 0 { return; }
      var batch := buffer;
      buffer := [];
      sent := sent + batch;
      if start == ThrewAtOnce {
        flushFailures := flushFailures + 1;
        lostTotal := lostTotal + |batch|;
        flushInFlight := Clear;
        flushInFlight := Wedged;
      } else {
        flushInFlight := Writing(batch);
      }
    }

    /** Shed the oldest samples beyond the cap. */
    method Trim()
      requires |marks| == |sent| + |buffer|
      modifies this`buffer, this`lostTotal, this`marks
      ensures View() == Trimmed(old(View()))
    {
      if |buffer| > maxBuffered {
        var overflow := |buffer| - maxBuffered;
        marks := marks[..|sent|] + marks[|sent| + overflow..];
        buffer := buffer[overflow..];
        lostTotal := lostTotal + overflow;
      }
    }

    method Record(sample: T, start: SinkStart)
      requires |marks| == |sent| + |buffer|
      modifies this
      ensures View() == Recorded(old(View()), sample, start)
    {
      if !enabled || disposed { return; }
      buffer := buffer + [sample];
      marks := marks + [|log|];
      log := log + [sample];
      assert View() == Accepted(old(View()), sample);
      Trim();
      if |buffer| >= batchSize { Flush(start); }
    }

    method Settle(ok: bool)
      modifies this
      ensures View() == SinkSettled(old(View()), ok)
    {
      if !flushInFlight.Writing? { return; }
      if ok {
        persistedTotal := persistedTotal + |flushInFlight.batch|;
      } else {
        flushFailures := flushFailures + 1;
        lostTotal := lostTotal + |flushInFlight.batch|;
      }
      flushInFlight := Clear;
    }

    /** The end of a shutdown, after its awaited flush. */
    method FinishDispose()
      modifies this
      ensures View() == Next(old(View()), Disposed)
    {
      disposed := true;
    }
  }

  // ---------------------------------------------------------------- what every run keeps

  function InFlight<T>(b: Buffer<T>): nat { if b.latch.Writing? then |b.latch.batch| else 0 }

  ghost predicate Conserved<T>(b: Buffer<T>) { |b.log| == b.persisted + b.lost + |b.buffer| + InFlight(b) }

  /** `marks` embeds `xs` into `log`: in order, no position used twice. */
  ghost predicate Embeds<T>(xs: seq<T>, log: seq<T>, marks: seq<nat>) {
    && |marks| == |xs|
    && (forall i :: 0 <= i < |marks| ==> marks[i] < |log| && log[marks[i]] == xs[i])
    && (forall i, j :: 0 <= i < j < |marks| ==> marks[i] < marks[j])
  }

  ghost predicate Sound<T>(b: Buffer<T>) {
    && 1 <= b.batchSize <= b.maxBuffered
    && Conserved(b)
    && |b.buffer| <= b.maxBuffered
    && Embeds(b.sent + b.buffer, b.log, b.marks)
  }

  lemma EmbedsAppend<T>(xs: seq<T>, log: seq<T>, marks: seq<nat>, x: T)
    requires Embeds(xs, log, marks)
    ensures Embeds(xs + [x], log + [x], marks + [|log|])
  {}

  lemma EmbedsDrop<T>(a: seq<T>, b: seq<T>, log: seq<T>, marks: seq<nat>, k: nat)
    requires Embeds(a + b, log, marks) && k <= |b|
    ensures Embeds(a + b[k..], log, marks[..|a|] + marks[|a| + k..])
  {
    var kept := marks[..|a|] + marks[|a| + k..];
    assert forall i :: 0 <= i < |kept| ==> kept[i] == marks[if i < |a| then i else i + k];
    assert forall i :: 0 <= i < |kept| ==> (a + b[k..])[i] == (a + b)[if i < |a| then i else i + k];
  }

  lemma FlushSound<T>(b: Buffer<T>, start: SinkStart)
    requires Sound(b)
    ensures Sound(Flushed(b, start))
  {
    assert (b.sent + b.buffer) + [] == b.sent + b.buffer;
  }

  lemma TrimSound<T>(a: Buffer<T>)
    requires 1 <= a.batchSize <= a.maxBuffered && Conserved(a) && Embeds(a.sent + a.buffer, a.log, a.marks)
    ensures Sound(Trimmed(a))
  {
    if Overflow(a) > 0 { EmbedsDrop(a.sent, a.buffer, a.log, a.marks, Overflow(a)); }
  }

  lemma AcceptConserves<T>(b: Buffer<T>, sample: T)
    requires Sound(b)
    ensures var a := Accepted(b, sample); Conserved(a) && Embeds(a.sent + a.buffer, a.log, a.marks)
  {
    EmbedsAppend(b.sent + b.buffer, b.log, b.marks, sample);
    assert (b.sent + b.buffer) + [sample] == b.sent + (b.buffer + [sample]);
  }

  lemma RecordSound<T>(b: Buffer<T>, sample: T, start: SinkStart)
    requires Sound(b)
    ensures Sound(Recorded(b, sample, start))
  {
    if b.enabled && !b.disposed {
      AcceptConserves(b, sample);
      TrimSound(Accepted(b, sample));
      FlushSound(Trimmed(Accepted(b, sample)), start);
    }
  }

  /**
   In every reachable state: accepted = persisted + lost + pending + in flight, the buffer is within its
   cap, and what was sent followed by what waits is a duplicate-free, in-order part of what was recorded.
   */
  lemma {:induction false} EveryRunIsSound<T>(b: Buffer<T>, es: seq<Event<T>>)
    requires Sound(b)
    ensures Sound(After(b, es))
  {
    if es != [] {
      var before := After(b, es[..|es| - 1]);
      EveryRunIsSound(b, es[..|es| - 1]);
      match es[|es| - 1]
      case Record(sample, start) => RecordSound(before, sample, start);
      case Flush(start) => FlushSound(before, start);
      case Settle(ok) =>
      case Disposed =>
    }
  }

  lemma FreshIsSound<T>(enabled: bool, batchSize: real, maxBuffered: Option<real>)
    ensures Sound(Fresh<T>(enabled, Sizes(batchSize, maxBuffered).0, Sizes(batchSize, maxBuffered).1))
  {}

  /** One write at a time: while a batch is out, nothing but its own answer changes what was sent. */
  lemma OneFlushAtATime<T>(b: Buffer<T>, e: Event<T>)
    requires b.latch.Writing? && !e.Settle?
    ensures Next(b, e).latch == b.latch && Next(b, e).sent == b.sent
  {}

  /** The sample is accepted rather than refused. */
  predicate Accepts<T>(b: Buffer<T>, e: Event<T>) { e.Record? && b.enabled && !b.disposed }

  /** The event hands the whole buffer to the sink: it finds no write out and enough to write. */
  predicate Takes<T>(b: Buffer<T>, e: Event<T>) {
    && b.enabled && !b.disposed && b.latch == Clear
    && ((e.Flush? && b.buffer != []) || (e.Record? && Min(|b.buffer| + 1, b.maxBuffered) >= b.batchSize))
  }

  /** The pending samples are always the newest accepted ones: shedding drops the oldest. */
  ghost predicate HoldsNewest<T>(b: Buffer<T>) {
    |b.buffer| <= |b.log| && b.buffer == b.log[|b.log| - |b.buffer|..]
  }

  lemma RecordHoldsNewest<T>(b: Buffer<T>, sample: T, start: SinkStart)
    requires HoldsNewest(b)
    ensures HoldsNewest(Recorded(b, sample, start))
  {
    if b.enabled && !b.disposed {
      var a := Accepted(b, sample);
      assert a.buffer == a.log[|a.log| - |a.buffer|..];
      assert HoldsNewest(Trimmed(a));
    }
  }

  lemma {:induction false} PendingIsNewest<T>(b: Buffer<T>, es: seq<Event<T>>)
    requires HoldsNewest(b)
    ensures HoldsNewest(After(b, es))
  {
    if es != [] {
      var before, e := After(b, es[..|es| - 1]), es[|es| - 1];
      PendingIsNewest(b, es[..|es| - 1]);
      if e.Record? { RecordHoldsNewest(before, e.sample, e.start); }
    }
  }

  /** One accepted sample that is not handed on at once grows the buffer by one, up to the cap. */
  lemma AcceptedSampleWaits<T>(b: Buffer<T>, e: Event<T>)
    requires Sound(b) && Accepts(b, e) && !Takes(b, e)
    ensures Next(b, e).log == b.log + [e.sample] && |Next(b, e).buffer| == Min(|b.buffer| + 1, b.maxBuffered)
    ensures Next(b, e).sent == b.sent && Next(b, e).persisted == b.persisted
    ensures Next(b, e).lost == b.lost + |b.buffer| + 1 - |Next(b, e).buffer|
  {}

  /** A write takes everything pending, and a settled one is counted persisted or lost by its outcome. */
  lemma WriteAndSettle<T>(b: Buffer<T>, ok: bool)
    requires b.enabled && !b.disposed && b.latch == Clear && b.buffer != []
    ensures var out := Flushed(b, Started);
            var done := SinkSettled(out, ok);
            && out.latch == Writing(b.buffer) && out.sent == b.sent + b.buffer && out.buffer == []
            && out.persisted == b.persisted && out.lost == b.lost
            && done.latch == Clear && done.buffer == []
            && done.persisted == b.persisted + (if ok then |b.buffer| else 0)
            && done.lost == b.lost + (if ok then 0 else |b.buffer|)
            && done.flushFailures == b.flushFailures + (if ok then 0 else 1)
  {}

  /** A disabled or disposed buffer does nothing at all. */
  lemma InertBufferDoesNothing<T>(b: Buffer<T>, e: Event<T>)
    requires (!b.enabled || b.disposed) && !e.Settle? && !e.Disposed?
    ensures Next(b, e) == b
  {}

  // ---------------------------------------------------------------- where the promises stop

  /** After a sink that throws at once the marker is never cleared, and no sample is sent ever again. */
  lemma {:induction false} SynchronousThrowWedges<T>(b: Buffer<T>, es: seq<Event<T>>)
    requires b.latch == Wedged
    ensures After(b, es).latch == Wedged && After(b, es).sent == b.sent && After(b, es).persisted == b.persisted
  {
    if es != [] { SynchronousThrowWedges(b, es[..|es| - 1]); }
  }

  /** A flush reaches the wedge exactly when it had something to write and the sink threw at once. */
  lemma WedgesIff<T>(b: Buffer<T>, start: SinkStart)
    requires b.enabled && !b.disposed && b.latch == Clear
    ensures Flushed(b, start).latch == Wedged <==> b.buffer != [] && start == ThrewAtOnce
    ensures Flushed(b, start).latch == Wedged ==>
              Flushed(b, start).lost == b.lost + |b.buffer| && Flushed(b, start).flushFailures == b.flushFailures + 1
  {}

  /** Once disposed, what is pending stays pending for ever: neither sent nor counted as lost. */
  lemma {:induction false} DisposedStrandsBuffer<T>(b: Buffer<T>, es: seq<Event<T>>)
    requires b.disposed
    ensures After(b, es).disposed && After(b, es).buffer == b.buffer && After(b, es).sent == b.sent
  {
    if es != [] { DisposedStrandsBuffer(b, es[..|es| - 1]); }
  }

  /** No sample was accepted after that position; -1 stands for the whole run. */
  ghost predicate NoneAccepted<T>(b: Buffer<T>, es: seq<Event<T>>, after: int) {
    forall j :: 0 <= j && after < j < |es| ==> !Accepts(After(b, es[..j]), es[j])
  }

  /** Some event of the run took the buffer, and nothing was accepted after it. */
  ghost predicate TakenLast<T>(b: Buffer<T>, es: seq<Event<T>>) {
    exists k :: 0 <= k < |es| && Takes(After(b, es[..k]), es[k]) && NoneAccepted(b, es, k)
  }

  lemma StepEmpties<T>(b: Buffer<T>, e: Event<T>)
    requires Sound(b)
    ensures Takes(b, e) ==> Next(b, e).buffer == []
    ensures !Takes(b, e) && Accepts(b, e) ==> Next(b, e).buffer != []
    ensures !Takes(b, e) && !Accepts(b, e) ==> Next(b, e).buffer == b.buffer
  {}

  lemma NoneAcceptedAppend<T>(b: Buffer<T>, es: seq<Event<T>>, e: Event<T>, after: int)
    requires -1 <= after < |es|
    ensures NoneAccepted(b, es + [e], after) <==> NoneAccepted(b, es, after) && !Accepts(After(b, es), e)
  {
    var all := es + [e];
    assert all[..|es|] == es && all[|es|] == e;
    assert forall j :: 0 <= j < |es| ==> all[..j] == es[..j] && all[j] == es[j];
    if NoneAccepted(b, all, after) {
      assert !Accepts(After(b, all[..|es|]), all[|es|]);
      forall j | 0 <= j < |es| && after < j ensures !Accepts(After(b, es[..j]), es[j]) {
        assert !Accepts(After(b, all[..j]), all[j]);
      }
    }
  }

  lemma TakenLastAppend<T>(b: Buffer<T>, es: seq<Event<T>>, e: Event<T>)
    ensures TakenLast(b, es + [e]) <==>
            Takes(After(b, es), e) || (TakenLast(b, es) && !Accepts(After(b, es), e))
  {
    var all := es + [e];
    assert all[..|es|] == es && all[|es|] == e;
    assert forall j :: 0 <= j < |es| ==> all[..j] == es[..j] && all[j] == es[j];
    forall k | 0 <= k < |es|
      ensures NoneAccepted(b, all, k) <==> NoneAccepted(b, es, k) && !Accepts(After(b, es), e)
    {
      NoneAcceptedAppend(b, es, e, k);
    }
    if Takes(After(b, es), e) {
      assert Takes(After(b, all[..|es|]), all[|es|]) && NoneAccepted(b, all, |es|);
    }
    if TakenLast(b, es) && !Accepts(After(b, es), e) {
      var k :| 0 <= k < |es| && Takes(After(b, es[..k]), es[k]) && NoneAccepted(b, es, k);
      assert Takes(After(b, all[..k]), all[k]) && NoneAccepted(b, all, k);
    }
  }

  /** A run leaves nothing pending exactly when its last accepted sample was taken with or after its arrival. */
  lemma {:induction false} NothingPendingIff<T>(b: Buffer<T>, es: seq<Event<T>>)
    requires Sound(b)
    ensures After(b, es).buffer == [] <==> (b.buffer == [] && NoneAccepted(b, es, -1)) || TakenLast(b, es)
  {
    if es != [] {
      var before, e := es[..|es| - 1], es[|es| - 1];
      assert es == before + [e];
      NothingPendingIff(b, before);
      EveryRunIsSound(b, before);
      StepEmpties(After(b, before), e);
      NoneAcceptedAppend(b, before, e, -1);
      TakenLastAppend(b, before, e);
    }
  }

  /** Shutdown: a final flush, whatever happens while it is awaited, then refuse everything. */
  function ShutDown<T>(b: Buffer<T>, start: SinkStart, during: seq<Event<T>>): Buffer<T> {
    Next(After(Flushed(b, start), during), Disposed)
  }

  /**
   Shutdown leaves nothing behind, whatever comes later, exactly when the final flush found the buffer
   empty or the marker clear and no sample was accepted during the await, or some later event of the
   await took the buffer and nothing was accepted after it.
   */
  lemma ShutDownStrandsNothingIff<T>(b: Buffer<T>, start: SinkStart, during: seq<Event<T>>, later: seq<Event<T>>)
    requires Sound(b) && b.enabled && !b.disposed
    ensures var f := Flushed(b, start);
            After(ShutDown(b, start, during), later).buffer == [] <==>
              ((b.buffer == [] || b.latch == Clear) && NoneAccepted(f, during, -1)) || TakenLast(f, during)
  {
    FlushSound(b, start);
    NothingPendingIff(Flushed(b, start), during);
    DisposedStrandsBuffer(ShutDown(b, start, during), later);
  }

  lemma {:induction false} WriteStaysOut<T>(b: Buffer<T>, es: seq<Event<T>>)
    requires b.latch != Clear && forall i :: 0 <= i < |es| ==> !es[i].Settle?
    ensures After(b, es).latch == b.latch
    ensures b.enabled == After(b, es).enabled
  {
    if es != [] { WriteStaysOut(b, es[..|es| - 1]); }
  }

  /** While a write is out nothing is taken, so a sample accepted then is still pending when it settles. */
  lemma ArrivalsWaitForWrite<T>(b: Buffer<T>, es: seq<Event<T>>)
    requires Sound(b) && b.latch != Clear && forall i :: 0 <= i < |es| ==> !es[i].Settle?
    ensures After(b, es).buffer == [] <==> b.buffer == [] && NoneAccepted(b, es, -1)
  {
    NothingPendingIff(b, es);
    forall k | 0 <= k < |es| ensures !Takes(After(b, es[..k]), es[k]) {
      WriteStaysOut(b, es[..k]);
    }
  }

  /** An idle buffer shut down: one sample recorded during the await is stranded for ever. */
  lemma IdleShutDownStrandsArrival<T>(b: Buffer<T>, start: SinkStart, sample: T, later: seq<Event<T>>)
    requires Sound(b) && b.enabled && !b.disposed && b.latch == Clear && b.buffer == [] && b.batchSize > 1
    ensures After(ShutDown(b, start, [Record(sample, start)]), later).buffer == [sample]
  {
    var e := Record(sample, start);
    assert [e][..0] == [];
    assert After(b, [e]) == Next(After(b, []), e);
    DisposedStrandsBuffer(ShutDown(b, start, [e]), later);
  }

  /** With batches of one, a sample accepted after the write settled takes the waiting ones along. */
  lemma SettledWriteLetsTailGo<T>(b: Buffer<T>, first: T, second: T)
    requires Sound(b) && b.enabled && !b.disposed && b.latch.Writing? && b.batchSize == 1 && b.maxBuffered >= 2
    requires b.buffer == []
    ensures var during := [Record(first, Started), Settle(true), Record(second, Started)];
            ShutDown(b, Started, during).buffer == [] && ShutDown(b, Started, during).latch == Writing([first, second])
  {
    var e1: Event<T>, e2: Event<T>, e3: Event<T> := Record(first, Started), Settle(true), Record(second, Started);
    var during := [e1, e2, e3];
    assert during[..2] == [e1, e2] && [e1, e2][..1] == [e1] && [e1][..0] == [];
    assert After(b, [e1]) == Next(b, e1);
    assert Next(b, e1).buffer == [first] && Next(b, e1).latch == b.latch;
    assert After(b, [e1, e2]) == Next(Next(b, e1), e2);
    assert After(b, during) == Next(Next(Next(b, e1), e2), e3);
    assert [first] + [second] == [first, second];
  }
}
