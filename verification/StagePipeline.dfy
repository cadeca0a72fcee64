/**
 Independently draining stages. Each stage has its own queue and its own drain loop; the loop awaits
 only its own handler. A value may be `None`, the undefined a caller can enqueue.
 */
module StagePipeline {
  import opened Common
  import opened BoundedQueue

  /**
   One stage between atomic steps. `taken` is everything dequeued and `handed` what its handler was
   called with; `finished` handlers have settled.
   */
  datatype Stage<V> = Stage(
    queue: Queue<Option<V>>, draining: bool, putIn: seq<Option<V>>, taken: seq<Option<V>>,
    handed: seq<V>, finished: nat)

  function NewStage<V>(overflow: Overflow, capacity: int): Stage<V> {
    Stage(Empty(overflow, capacity), false, [], [], [], 0)
  }

  datatype StageEvent<V> =
    | Put(value: Option<V>, key: string, now: int)
    | Pump
    | HandlerSettled(ok: bool)

  /** The drain loop from its test to its next await, or to its end. */
  function Advance<V>(s: Stage<V>): Stage<V> {
    if s.queue.items == [] then s.(draining := false)
    else
      var (queue, head) := Dequeued(s.queue);
      var value := head.GetOr(None);
      var next := s.(queue := queue, taken := s.taken + [value]);
      if value.None? then next.(draining := false)
      else next.(draining := true, handed := s.handed + [value.value])
  }

  function StageStep<V>(s: Stage<V>, e: StageEvent<V>): Stage<V> {
    match e
    case Put(v, k, now) => s.(queue := Enqueued(s.queue, v, k, now), putIn := s.putIn + [v])
    case Pump => if s.draining then s else Advance(s)
    case HandlerSettled(ok) =>
      if !s.draining then s
      else
        var settled := s.(finished := s.finished + 1);
        if ok then Advance(settled) else settled.(draining := false)
  }

  // ---------------------------------------------------------------- the objects

  class PipelineStage<V> {
    const queue: BoundedQueue<Option<V>>
    var draining: bool
    ghost var putIn: seq<Option<V>>
    ghost var taken: seq<Option<V>>
    ghost var handed: seq<V>
    ghost var finished: nat

    ghost function View(): Stage<V>
      reads this, queue
    {
      Stage(queue.View(), draining, putIn, taken, handed, finished)
    }

    ghost predicate Valid()
      reads this, queue
    {
      queue.Valid()
    }

    constructor (overflow: Overflow, capacity: int)
      ensures Valid() && fresh(queue) && View() == NewStage<V>(overflow, capacity)
    {
      queue := new BoundedQueue<Option<V>>(overflow, capacity);
      draining, putIn, taken, handed, finished := false, [], [], [], 0;
    }

    /** Never runs a handler: the caller returns at once. */
    method Put(value: Option<V>, key: string, now: int)
      requires Valid()
      modifies this, queue
      ensures Valid() && View() == StageStep(old(View()), StageEvent.Put(value, key, now))
    {
      queue.Enqueue(value, key, now);
      putIn := putIn + [value];
    }

    /** The loop up to its next await: the value its handler is now called with, if any. */
    method Continue() returns (call: Option<V>)
      requires Valid()
      modifies this, queue
      ensures Valid() && View() == Advance(old(View()))
      ensures call.Some? <==> draining
      ensures handed == if call.Some? then old(handed) + [call.value] else old(handed)
    {
      if |queue.items| == 0 {
        draining := false;
        return None;
      }
      var head := queue.Dequeue();
      call := head.value;
      taken := taken + [call];
      if call.None? {
        draining := false;
      } else {
        draining := true;
        handed := handed + [call.value];
      }
    }

    /** A second pump while the loop is running does nothing. */
    method StartDrain() returns (call: Option<V>)
      requires Valid()
      modifies this, queue
      ensures Valid() && View() == StageStep(old(View()), Pump)
      ensures handed == if call.Some? then old(handed) + [call.value] else old(handed)
    {
      if draining { return None; }
      call := Continue();
    }

    method OnHandlerSettled(ok: bool) returns (call: Option<V>)
      requires Valid()
      modifies this, queue
      ensures Valid() && View() == StageStep(old(View()), HandlerSettled(ok))
      ensures handed == if call.Some? then old(handed) + [call.value] else old(handed)
    {
      if !draining { return None; }
      finished := finished + 1;
      if !ok {
        draining := false;
        return None;
      }
      call := Continue();
    }

    method Perform(e: StageEvent<V>) returns (call: Option<V>)
      requires Valid()
      modifies this, queue
      ensures Valid() && View() == StageStep(old(View()), e)
    {
      match e {
        case Put(value, key, now) => Put(value, key, now); call := None;
        case Pump => call := StartDrain();
        case HandlerSettled(ok) => call := OnHandlerSettled(ok);
      }
    }
  }

  function StageAfter<V>(s: Stage<V>, es: seq<StageEvent<V>>): Stage<V> {
    if es == [] then s else StageStep(StageAfter(s, es[..|es| - 1]), es[|es| - 1])
  }

  function Defined<V>(xs: seq<Option<V>>): seq<V> {
    if xs == [] then []
    else Defined(xs[..|xs| - 1]) + (if xs[|xs| - 1].Some? then [xs[|xs| - 1].value] else [])
  }

  function Wrapped<V>(xs: seq<V>): seq<Option<V>> { seq(|xs|, i requires 0 <= i < |xs| => Some(xs[i])) }

  ghost predicate Inv<V>(s: Stage<V>) {
    && s.queue.overflow == NeverDrop
    && s.taken + Values(s.queue.items) == s.putIn
    && s.handed == Defined(s.taken)
    && |s.handed| == s.finished + (if s.draining then 1 else 0)
  }

  lemma AdvanceKeeps<V>(s: Stage<V>)
    requires s.queue.overflow == NeverDrop && s.taken + Values(s.queue.items) == s.putIn
    requires s.handed == Defined(s.taken) && |s.handed| == s.finished
    ensures Inv(Advance(s))
  {
    if s.queue.items != [] {
      var head := s.queue.items[0].value;
      var rest := s.queue.items[1..];
      assert Dequeued(s.queue).0.items == rest;
      assert Values(s.queue.items) == [head] + Values(rest);
      assert s.taken + ([head] + Values(rest)) == (s.taken + [head]) + Values(rest);
      assert (s.taken + [head])[..|s.taken|] == s.taken;
      assert Defined(s.taken + [head]) == Defined(s.taken) + (if head.Some? then [head.value] else []);
    }
  }

  lemma StageStepKeeps<V>(s: Stage<V>, e: StageEvent<V>)
    requires Inv(s)
    ensures Inv(StageStep(s, e))
  {
    match e
    case Put(v, k, now) =>
      var items := s.queue.items + [Item(k, v, now)];
      assert Enqueued(s.queue, v, k, now).items == items;
      assert Values(items) == Values(s.queue.items) + [v];
      assert s.taken + (Values(s.queue.items) + [v]) == s.putIn + [v];
    case Pump => if !s.draining { AdvanceKeeps(s); }
    case HandlerSettled(ok) => if s.draining && ok { AdvanceKeeps(s.(finished := s.finished + 1)); }
  }

  lemma {:induction false} StageRunKeeps<V>(s: Stage<V>, es: seq<StageEvent<V>>)
    requires Inv(s)
    ensures Inv(StageAfter(s, es))
  {
    if es != [] {
      StageRunKeeps(s, es[..|es| - 1]);
      StageStepKeeps(StageAfter(s, es[..|es| - 1]), es[|es| - 1]);
    }
  }

  lemma {:induction false} WrappedDefined<V>(xs: seq<Option<V>>)
    ensures |Defined(xs)| <= |xs|
    ensures |Defined(xs)| == |xs| <==> None !in xs
    ensures None !in xs ==> Wrapped(Defined(xs)) == xs
  {
    if xs != [] {
      var before, last := xs[..|xs| - 1], xs[|xs| - 1];
      WrappedDefined(before);
      assert xs == before + [last];
      if last.Some? { assert Wrapped(Defined(before) + [last.value]) == Wrapped(Defined(before)) + [last]; }
    }
  }

  // ---------------------------------------------------------------- the pipeline

  datatype Event<V> = Event(stage: string, e: StageEvent<V>)

  type Pipeline<V> = map<string, Stage<V>>

  /** A step of an unknown stage is an error that changes nothing. */
  function Step<V>(p: Pipeline<V>, x: Event<V>): Pipeline<V> {
    if x.stage in p then p[x.stage := StageStep(p[x.stage], x.e)] else p
  }

  function After<V>(p: Pipeline<V>, xs: seq<Event<V>>): Pipeline<V> {
    if xs == [] then p else Step(After(p, xs[..|xs| - 1]), xs[|xs| - 1])
  }

  /** If one stage took a step and every other is as it was, the pipeline took that step. */
  lemma StageStepIsStep<V>(before: Pipeline<V>, after: Pipeline<V>, name: string, e: StageEvent<V>)
    requires after.Keys == before.Keys && name in before && after[name] == StageStep(before[name], e)
    requires forall n :: n in before && n != name ==> after[n] == before[n]
    ensures after == Step(before, Event(name, e))
  {}

  class StagePipeline<V> {
    var stages: map<string, PipelineStage<V>>

    ghost function Parts(): set<object>
      reads this
    {
      (set n | n in stages :: stages[n]) + (set n | n in stages :: stages[n].queue)
    }

    /** No two stages share a queue. */
    ghost predicate Valid()
      reads this, Parts()
    {
      && (forall n :: n in stages ==> stages[n].Valid())
      && (forall m, n :: m in stages && n in stages && m != n ==>
            stages[m] != stages[n] && stages[m].queue != stages[n].queue)
    }

    ghost function View(): Pipeline<V>
      reads this, Parts()
    {
      map n | n in stages :: stages[n].View()
    }

    constructor ()
      ensures Valid() && View() == map[]
    {
      stages := map[];
    }

    /** A name is used once; a new stage starts empty and disturbs no other. */
    method AddStage(name: string, overflow: Overflow, capacity: int) returns (added: bool)
      requires Valid()
      modifies this
      ensures Valid() && (added <==> name !in old(stages))
      ensures View() == if added then old(View())[name := NewStage<V>(overflow, capacity)] else old(View())
    {
      if name in stages { return false; }
      var stage := new PipelineStage<V>(overflow, capacity);
      assert forall n :: n in stages ==> stages[n] != stage && stages[n].queue != stage.queue;
      stages := stages[name := stage];
      return true;
    }

    /** Dispatch to the named stage; the value its handler is then called with, if any. */
    method Dispatch(name: string, e: StageEvent<V>) returns (known: bool, call: Option<V>)
      requires Valid()
      modifies Parts()
      ensures Valid() && (known <==> name in stages)
      ensures View() == Step(old(View()), Event(name, e))
    {
      if name !in stages { return false, None; }
      ghost var before := View();
      assert stages[name] in Parts() && stages[name].queue in Parts();
      call := stages[name].Perform(e);
      assert forall n :: n in stages && n != name ==> stages[n].View() == old(stages[n].View()) && stages[n].Valid();
      StageStepIsStep(before, View(), name, e);
      known := true;
    }

    method Enqueue(name: string, value: Option<V>, key: string, now: int) returns (known: bool)
      requires Valid()
      modifies Parts()
      ensures Valid() && (known <==> name in stages)
      ensures View() == Step(old(View()), Event(name, Put(value, key, now)))
    {
      var call;
      known, call := Dispatch(name, Put(value, key, now));
    }

    /** Start the drain loop of one stage. */
    method DrainStage(name: string) returns (known: bool, call: Option<V>)
      requires Valid()
      modifies Parts()
      ensures Valid() && (known <==> name in stages)
      ensures View() == Step(old(View()), Event(name, Pump))
    {
      known, call := Dispatch(name, Pump);
    }

    /** The handler of one stage settled: that stage's loop moves on, and nobody else notices. */
    method OnHandlerSettled(name: string, ok: bool) returns (known: bool, call: Option<V>)
      requires Valid()
      modifies Parts()
      ensures Valid() && (known <==> name in stages)
      ensures View() == Step(old(View()), Event(name, HandlerSettled(ok)))
    {
      known, call := Dispatch(name, HandlerSettled(ok));
    }
  }

  /** The events of one stage, in order. */
  function Of<V>(xs: seq<Event<V>>, name: string): seq<StageEvent<V>> {
    if xs == [] then []
    else if xs[|xs| - 1].stage == name then Of(xs[..|xs| - 1], name) + [xs[|xs| - 1].e]
    else Of(xs[..|xs| - 1], name)
  }

  /** A stage behaves in every interleaving as if it were alone: no other stage can slow, block or change it. */
  lemma {:induction false} StagesAreIndependent<V>(p: Pipeline<V>, xs: seq<Event<V>>, name: string)
    ensures name in After(p, xs) <==> name in p
    ensures name in p ==> After(p, xs)[name] == StageAfter(p[name], Of(xs, name))
  {
    if xs != [] {
      var before, last := xs[..|xs| - 1], xs[|xs| - 1];
      StagesAreIndependent(p, before, name);
      if last.stage == name {
        var es := Of(before, name) + [last.e];
        assert es[..|es| - 1] == Of(before, name);
      }
    }
  }

  /**
   For every interleaving, a never-drop stage runs at most one handler at a time, and what it took and
   what it holds is everything put in, in order. What it *handled* and holds is everything put in
   exactly when no undefined value has been taken: the drain loop swallows those.
   */
  lemma NeverDropStageHandlesAll<V>(p: Pipeline<V>, xs: seq<Event<V>>, name: string)
    requires name in p && Inv(p[name])
    ensures name in After(p, xs)
    ensures var s := After(p, xs)[name];
            && 0 <= |s.handed| - s.finished <= 1
            && (|s.handed| - s.finished == 1 <==> s.draining)
            && s.taken + Values(s.queue.items) == s.putIn
            && (Wrapped(s.handed) + Values(s.queue.items) == s.putIn <==> None !in s.taken)
  {
    StagesAreIndependent(p, xs, name);
    StageRunKeeps(p[name], Of(xs, name));
    var s := After(p, xs)[name];
    WrappedDefined(s.taken);
    if Wrapped(s.handed) + Values(s.queue.items) == s.putIn {
      assert |Wrapped(s.handed)| == |s.taken|;
    }
  }

  /** n handlers that end well, one after the other. */
  function Settles<V>(n: nat): seq<StageEvent<V>> { seq(n, i => HandlerSettled(true)) }

  lemma {:induction false} DrainGoesOn<V>(s: Stage<V>, n: nat)
    requires s.draining && n <= |s.queue.items| && forall i :: 0 <= i < |s.queue.items| ==> s.queue.items[i].value.Some?
    ensures var t := StageAfter(s, Settles(n));
            && t.draining && t.queue.items == s.queue.items[n..]
            && t.finished == s.finished + n && |t.handed| == |s.handed| + n
  {
    if n > 0 {
      DrainGoesOn(s, n - 1);
      assert Settles<V>(n)[..n - 1] == Settles<V>(n - 1);
      var t := StageAfter(s, Settles(n - 1));
      assert t.queue.items[0] == s.queue.items[n - 1];
      assert Dequeued(t.queue).0.items == t.queue.items[1..];
    }
  }

  /**
   Progress: a pumped stage whose handlers end well hands over everything queued, one value per handler,
   and ends idle and empty.
   */
  lemma PumpDrainsEverything<V>(s: Stage<V>)
    requires !s.draining && s.queue.items != []
    requires forall i :: 0 <= i < |s.queue.items| ==> s.queue.items[i].value.Some?
    ensures var n := |s.queue.items|;
            var t := StageAfter(StageStep(s, Pump), Settles(n));
            && !t.draining && t.queue.items == [] && t.finished == s.finished + n && |t.handed| == |s.handed| + n
  {
    var n := |s.queue.items|;
    var pumped := StageStep(s, Pump);
    assert Dequeued(s.queue).0.items == s.queue.items[1..];
    DrainGoesOn(pumped, n - 1);
    assert Settles<V>(n)[..n - 1] == Settles<V>(n - 1);
  }

  /** A handler that fails ends the drain, keeps what is queued, and leaves the stage free to be pumped again. */
  lemma FailureFreesStage<V>(s: Stage<V>)
    requires s.draining
    ensures var t := StageStep(s, HandlerSettled(false));
            !t.draining && t.queue == s.queue && t.finished == s.finished + 1 && t.handed == s.handed
  {}

  lemma NewStageStartsSound<V>(capacity: int)
    ensures Inv(NewStage<V>(NeverDrop, capacity))
  {}

  /** An undefined value ends the drain with work still queued, and no handler ever sees it. */
  lemma UndefinedStopsDrain()
    ensures var s := StageAfter(NewStage<int>(NeverDrop, 8), [Put(None, "a", 0), Put(Some(7), "b", 1), Pump]);
            s.handed == [] && !s.draining && |s.queue.items| == 1
  {
    var es: seq<StageEvent<int>> := [Put(None, "a", 0), Put(Some(7), "b", 1), Pump];
    var s0 := NewStage<int>(NeverDrop, 8);
    assert es[..2] == [es[0], es[1]] && es[..2][..1] == [es[0]] && [es[0]][..0] == [];
    assert StageAfter(s0, [es[0]]) == StageStep(s0, es[0]);
    assert StageAfter(s0, es[..2]) == StageStep(StageStep(s0, es[0]), es[1]);
  }
}
