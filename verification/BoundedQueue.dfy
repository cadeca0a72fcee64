/**
 The bounded queue between a socket and its consumer: coalescing by key with a hard bound, or never
 dropping with a pressure threshold. An overload is latched until a drain has seen it.
 */
module BoundedQueue {
  import opened Common

  datatype Overflow = Coalesce | NeverDrop

  datatype Item<T> = Item(key: string, value: T, enqueuedAt: int)

  datatype Counts = Counts(enqueued: nat, processed: nat, dropped: nat, coalesced: nat, overloadEvents: nat)

  datatype Queue<T> = Queue(overflow: Overflow, capacity: int, items: seq<Item<T>>,
                            overloaded: bool, droppedHold: bool, counts: Counts)

  function Empty<T>(overflow: Overflow, capacity: int): Queue<T> {
    Queue(overflow, capacity, [], false, false, Counts(0, 0, 0, 0, 0))
  }

  // ---------------------------------------------------------------- the ordered queue

  function Find<T>(items: seq<Item<T>>, key: string): (r: Option<nat>)
    ensures r.Some? ==> r.value < |items| && items[r.value].key == key
    ensures r.None? ==> forall i :: 0 <= i < |items| ==> items[i].key != key
  {
    if items == [] then None
    else if items[|items| - 1].key == key then Some(|items| - 1)
    else Find(items[..|items| - 1], key)
  }

  /** Everything but the overload flag and its event count. */
  ghost predicate SameLoad<T>(a: Queue<T>, b: Queue<T>) {
    && a.overflow == b.overflow && a.capacity == b.capacity && a.items == b.items && a.droppedHold == b.droppedHold
    && a.counts == b.counts.(overloadEvents := a.counts.overloadEvents)
  }

  function RaiseOverload<T>(q: Queue<T>): (r: Queue<T>)
    ensures SameLoad(r, q) && r.overloaded
  {
    if q.overloaded then q
    else q.(overloaded := true, counts := q.counts.(overloadEvents := q.counts.overloadEvents + 1))
  }

  function Reassess<T>(q: Queue<T>): (r: Queue<T>)
    ensures SameLoad(r, q)
    ensures (q.droppedHold ==> q.overloaded) ==> (r.overloaded <==> |r.items| > r.capacity || r.droppedHold)
  {
    if |q.items| > q.capacity then RaiseOverload(q)
    else if q.overloaded && !q.droppedHold then q.(overloaded := false)
    else q
  }

  function DropOldest<T>(q: Queue<T>): Queue<T> {
    if q.items == [] then q
    else RaiseOverload(q.(items := q.items[1..], droppedHold := true,
                          counts := q.counts.(dropped := q.counts.dropped + 1)))
  }

  /** The same book again: the slot and its enqueue time stay, the payload is replaced. */
  function Replaced<T>(q: Queue<T>, slot: nat, value: T): Queue<T>
    requires slot < |q.items|
  {
    Reassess(q.(items := q.items[slot := q.items[slot].(value := value)],
                counts := q.counts.(coalesced := q.counts.coalesced + 1)))
  }

  function Appended<T>(q: Queue<T>, item: Item<T>): Queue<T> {
    Reassess(q.(items := q.items + [item]))
  }

  predicate MustDrop<T>(q: Queue<T>) { q.overflow == Coalesce && |q.items| >= q.capacity }

  function Admitted<T>(q: Queue<T>, item: Item<T>): Queue<T> {
    Appended(if MustDrop(q) then DropOldest(q) else q, item)
  }

  function Counted<T>(q: Queue<T>): Queue<T> { q.(counts := q.counts.(enqueued := q.counts.enqueued + 1)) }

  function Enqueued<T>(before: Queue<T>, value: T, key: string, now: int): Queue<T> {
    var q := Counted(before);
    var slot := Find(q.items, key);
    if q.overflow == Coalesce && slot.Some? then Replaced(q, slot.value, value)
    else Admitted(q, Item(key, value, now))
  }

  function Dequeued<T>(q: Queue<T>): (Queue<T>, Option<T>) {
    if q.items == [] then (q, None)
    else (Reassess(q.(items := q.items[1..], droppedHold := false,
                      counts := q.counts.(processed := q.counts.processed + 1))),
          Some(q.items[0].value))
  }

  function Values<T>(items: seq<Item<T>>): seq<T> {
    seq(|items|, i requires 0 <= i < |items| => items[i].value)
  }

  function Drained<T>(q: Queue<T>): (Queue<T>, seq<T>) {
    (Reassess(q.(items := [], droppedHold := false,
                 counts := q.counts.(processed := q.counts.processed + |q.items|))),
     Values(q.items))
  }

  // ---------------------------------------------------------------- the indexed implementation

  class BoundedQueue<T> {
    const overflow: Overflow
    const capacity: int
    var items: seq<Item<T>>
    /** For coalescing: where each queued key sits in `items`. */
    var indexByKey: map<string, nat>
    var overloaded: bool
    var droppedHold: bool
    var counts: Counts

    ghost function View(): Queue<T>
      reads this
    {
      Queue(overflow, capacity, items, overloaded, droppedHold, counts)
    }

    /** While coalescing, the index is exact, so no key is queued twice. */
    ghost predicate Valid()
      reads this
    {
      overflow == Coalesce ==> IndexIsExact(items, indexByKey)
    }

    constructor (overflow: Overflow, capacity: int)
      ensures Valid() && View() == Empty<T>(overflow, capacity)
    {
      this.overflow, this.capacity := overflow, capacity;
      items, indexByKey, overloaded, droppedHold := [], map[], false, false;
      counts := Counts(0, 0, 0, 0, 0);
    }

    method EmitOverload()
      modifies this`overloaded, this`counts
      ensures View() == RaiseOverload(old(View()))
    {
      if !overloaded {
        overloaded := true;
        counts := counts.(overloadEvents := counts.overloadEvents + 1);
      }
    }

    method ReassessOverload()
      modifies this`overloaded, this`counts
      ensures View() == Reassess(old(View()))
    {
      if |items| > capacity {
        EmitOverload();
      } else if overloaded && !droppedHold {
        overloaded := false;
      }
    }

    /** After a shift every stored index is off by one: rebuild the map from the items. */
    method Reindex()
      requires forall i, j :: 0 <= i < j < |items| ==> items[i].key != items[j].key
      modifies this`indexByKey
      ensures IndexIsExact(items, indexByKey)
    {
      indexByKey := map[];
      for i := 0 to |items|
        invariant IndexIsExact(items[..i], indexByKey)
      {
        indexByKey := indexByKey[items[i].key := i];
      }
      assert items[..|items|] == items;
    }

    method DropOldestItem()
      requires Valid() && overflow == Coalesce
      modifies this`items, this`indexByKey, this`overloaded, this`droppedHold, this`counts
      ensures Valid() && View() == DropOldest(old(View()))
      ensures forall k :: k in indexByKey ==> k in old(indexByKey)
    {
      if |items| == 0 { return; }
      items := items[1..];
      counts := counts.(dropped := counts.dropped + 1);
      Reindex();
      droppedHold := true;
      EmitOverload();
    }

    method Push(value: T, key: string, now: int)
      requires Valid() && (overflow == Coalesce ==> key !in indexByKey)
      modifies this`items, this`indexByKey, this`overloaded, this`counts
      ensures Valid() && View() == Appended(old(View()), Item(key, value, now))
    {
      items := items + [Item(key, value, now)];
      if overflow == Coalesce { indexByKey := indexByKey[key := |items| - 1]; }
      ReassessOverload();
    }

    /** The same key again: the payload changes in place. */
    method Replace(slot: nat, value: T)
      requires Valid() && slot < |items|
      modifies this`items, this`overloaded, this`counts
      ensures Valid() && View() == Replaced(old(View()), slot, value)
    {
      items := items[slot := items[slot].(value := value)];
      counts := counts.(coalesced := counts.coalesced + 1);
      ReassessOverload();
    }

    /** A key that is not queued: make room if the bound is hard, then append. */
    method Admit(value: T, key: string, now: int)
      requires Valid() && (overflow == Coalesce ==> key !in indexByKey)
      modifies this`items, this`indexByKey, this`overloaded, this`droppedHold, this`counts
      ensures Valid() && View() == Admitted(old(View()), Item(key, value, now))
    {
      if overflow == Coalesce && |items| >= capacity { DropOldestItem(); }
      Push(value, key, now);
    }

    method Enqueue(value: T, key: string, now: int)
      requires Valid()
      modifies this
      ensures Valid() && View() == Enqueued(old(View()), value, key, now)
    {
      EnqueuedByIndex(View(), indexByKey, value, key, now);
      counts := counts.(enqueued := counts.enqueued + 1);
      assert View() == Counted(old(View()));
      if overflow == Coalesce && key in indexByKey {
        Replace(indexByKey[key], value);
      } else {
        Admit(value, key, now);
      }
    }

    method Dequeue() returns (value: Option<T>)
      requires Valid()
      modifies this
      ensures Valid() && (View(), value) == Dequeued(old(View()))
    {
      if |items| == 0 { return None; }
      value := Some(items[0].value);
      items := items[1..];
      counts := counts.(processed := counts.processed + 1);
      droppedHold := false;
      if overflow == Coalesce { Reindex(); }
      ReassessOverload();
    }

    method DrainAll() returns (out: seq<T>)
      requires Valid()
      modifies this
      ensures Valid() && (View(), out) == Drained(old(View()))
    {
      out := Values(items);
      counts := counts.(processed := counts.processed + |items|);
      items, indexByKey, droppedHold := [], map[], false;
      ReassessOverload();
    }
  }

  ghost predicate IndexIsExact<T>(items: seq<Item<T>>, index: map<string, nat>) {
    && (forall i :: 0 <= i < |items| ==> items[i].key in index && index[items[i].key] == i)
    && (forall k :: k in index ==> index[k] < |items| && items[index[k]].key == k)
  }

  /** With an exact index, a lookup decides between replacing in place and admitting. */
  lemma EnqueuedByIndex<T>(q: Queue<T>, index: map<string, nat>, value: T, key: string, now: int)
    requires q.overflow == Coalesce ==> IndexIsExact(q.items, index)
    ensures Enqueued(q, value, key, now) ==
            if q.overflow == Coalesce && key in index then Replaced(Counted(q), index[key], value)
            else Admitted(Counted(q), Item(key, value, now))
  {
    if q.overflow == Coalesce { FindByIndex(q.items, index, key); }
  }

  lemma FindByIndex<T>(items: seq<Item<T>>, index: map<string, nat>, key: string)
    requires IndexIsExact(items, index)
    ensures Find(items, key) == if key in index then Some(index[key]) else None
  {
    var found := Find(items, key);
    if found.Some? { assert items[found.value].key in index; }
  }

  // ---------------------------------------------------------------- every run

  datatype Op<T> = Enqueue(value: T, key: string, now: int) | Dequeue | DrainAll

  function Perform<T>(q: Queue<T>, op: Op<T>): (Queue<T>, seq<T>) {
    match op
    case Enqueue(v, k, now) => (Enqueued(q, v, k, now), [])
    case Dequeue => var (q', v) := Dequeued(q); (q', if v.Some? then [v.value] else [])
    case DrainAll => Drained(q)
  }

  function After<T>(overflow: Overflow, capacity: int, ops: seq<Op<T>>): Queue<T> {
    if ops == [] then Empty(overflow, capacity)
    else Perform(After(overflow, capacity, ops[..|ops| - 1]), ops[|ops| - 1]).0
  }

  /** Everything handed out so far, in order. */
  function Delivered<T>(overflow: Overflow, capacity: int, ops: seq<Op<T>>): seq<T> {
    if ops == [] then []
    else
      var before := ops[..|ops| - 1];
      Delivered(overflow, capacity, before) + Perform(After(overflow, capacity, before), ops[|ops| - 1]).1
  }

  /** Everything put in so far, in order. */
  function PutIn<T>(ops: seq<Op<T>>): seq<T> {
    if ops == [] then []
    else PutIn(ops[..|ops| - 1]) + (if ops[|ops| - 1].Enqueue? then [ops[|ops| - 1].value] else [])
  }

  /** The value most recently put in under a key. */
  function Latest<T>(ops: seq<Op<T>>, key: string): Option<T> {
    if ops == [] then None
    else if ops[|ops| - 1].Enqueue? && ops[|ops| - 1].key == key then Some(ops[|ops| - 1].value)
    else Latest(ops[..|ops| - 1], key)
  }

  /** How many snapshots had been dropped when the queue was last drained of anything. */
  function DroppedAtLastDrain<T>(overflow: Overflow, capacity: int, ops: seq<Op<T>>): nat {
    if ops == [] then 0
    else
      var before := ops[..|ops| - 1];
      var q := After(overflow, capacity, before);
      if ops[|ops| - 1].DrainAll? || (ops[|ops| - 1].Dequeue? && q.items != []) then q.counts.dropped
      else DroppedAtLastDrain(overflow, capacity, before)
  }

  ghost predicate KeysDistinct<T>(items: seq<Item<T>>) {
    forall i, j :: 0 <= i < j < |items| ==> items[i].key != items[j].key
  }

  ghost predicate Conserved<T>(q: Queue<T>) {
    q.counts.enqueued == q.counts.processed + q.counts.dropped + q.counts.coalesced + |q.items|
  }

  ghost predicate Sound<T>(q: Queue<T>) {
    && q.capacity >= 0 && Conserved(q)
    && (q.overloaded <==> |q.items| > q.capacity || q.droppedHold)
    && (q.overflow == NeverDrop ==> q.counts.dropped == q.counts.coalesced == 0)
    && (q.overflow == Coalesce ==> |q.items| <= Max(1, q.capacity))
  }

  /** What one step does to the latch: a drop sets it, only a drain of something clears it. */
  ghost predicate LatchStep<T>(q: Queue<T>, q': Queue<T>, drains: bool) {
    && q'.overflow == q.overflow && q'.capacity == q.capacity && q.counts.dropped <= q'.counts.dropped
    && (if drains then !q'.droppedHold && q'.counts.dropped == q.counts.dropped
        else (q'.droppedHold <==> q.droppedHold || q'.counts.dropped > q.counts.dropped))
  }

  lemma EnqueueSound<T>(q: Queue<T>, value: T, key: string, now: int)
    requires Sound(q)
    ensures Sound(Enqueued(q, value, key, now)) && LatchStep(q, Enqueued(q, value, key, now), false)
  {}

  lemma StepSound<T>(q: Queue<T>, op: Op<T>)
    requires Sound(q)
    ensures Sound(Perform(q, op).0)
    ensures LatchStep(q, Perform(q, op).0, op.DrainAll? || (op.Dequeue? && q.items != []))
    ensures Perform(q, op).0.counts.overloadEvents ==
            q.counts.overloadEvents + (if !q.overloaded && Perform(q, op).0.overloaded then 1 else 0)
  {
    if op.Enqueue? { EnqueueSound(q, op.value, op.key, op.now); }
  }

  /** In both disciplines: nothing is counted twice or lost from the counts, and overload means what it says. */
  lemma {:induction false} CountsAndOverload<T>(overflow: Overflow, capacity: int, ops: seq<Op<T>>)
    requires capacity >= 0
    ensures var q := After(overflow, capacity, ops);
            && q.overflow == overflow && q.capacity == capacity && Sound(q)
            && DroppedAtLastDrain(overflow, capacity, ops) <= q.counts.dropped
            && (q.droppedHold <==> q.counts.dropped > DroppedAtLastDrain(overflow, capacity, ops))
  {
    if ops != [] {
      CountsAndOverload(overflow, capacity, ops[..|ops| - 1]);
      StepSound(After(overflow, capacity, ops[..|ops| - 1]), ops[|ops| - 1]);
    }
  }

  /** Never-drop is overloaded exactly over its threshold; a bounded coalescing queue exactly after an unseen drop. */
  lemma OverloadMeaning<T>(overflow: Overflow, capacity: int, ops: seq<Op<T>>)
    requires capacity > 0
    ensures var q := After(overflow, capacity, ops);
            && (overflow == NeverDrop ==> (q.overloaded <==> |q.items| > capacity))
            && (overflow == Coalesce ==> |q.items| <= capacity)
            && (overflow == Coalesce ==>
                  (q.overloaded <==> q.counts.dropped > DroppedAtLastDrain(overflow, capacity, ops)))
  {
    CountsAndOverload(overflow, capacity, ops);
  }

  /** While coalescing, keys stay distinct and each slot holds the latest value of its key. */
  lemma {:induction false} SlotsHoldLatest<T>(capacity: int, ops: seq<Op<T>>)
    ensures var q := After(Coalesce, capacity, ops);
            q.overflow == Coalesce && KeysDistinct(q.items) && AllLatest(q.items, ops)
  {
    if ops != [] {
      var before, op := ops[..|ops| - 1], ops[|ops| - 1];
      SlotsHoldLatest(capacity, before);
      assert ops == before + [op];
      LatestStep(After(Coalesce, capacity, before), before, op);
    }
  }

  lemma LatestStep<T>(q: Queue<T>, ops: seq<Op<T>>, op: Op<T>)
    requires q.overflow == Coalesce && KeysDistinct(q.items) && AllLatest(q.items, ops)
    ensures var q' := Perform(q, op).0;
            q'.overflow == Coalesce && KeysDistinct(q'.items) && AllLatest(q'.items, ops + [op])
  {
    if op.Enqueue? {
      EnqueueLatest(q, ops, op.value, op.key, op.now);
    } else {
      assert (ops + [op])[..|ops|] == ops;
      assert forall i :: 0 <= i < |q.items| ==> Latest(ops + [op], q.items[i].key) == Latest(ops, q.items[i].key);
      if op.Dequeue? && q.items != [] { assert Perform(q, op).0.items == q.items[1..]; }
    }
  }

  ghost predicate AllLatest<T>(items: seq<Item<T>>, ops: seq<Op<T>>) {
    forall i :: 0 <= i < |items| ==> Latest(ops, items[i].key) == Some(items[i].value)
  }

  lemma LatestAppend<T>(ops: seq<Op<T>>, value: T, key: string, now: int, k: string)
    ensures Latest(ops + [Op.Enqueue(value, key, now)], k) == if k == key then Some(value) else Latest(ops, k)
  {
    assert (ops + [Op.Enqueue(value, key, now)])[..|ops|] == ops;
  }

  lemma AllLatestAppend<T>(items: seq<Item<T>>, ops: seq<Op<T>>, value: T, key: string, now: int)
    requires forall i :: 0 <= i < |items| ==>
               if items[i].key == key then items[i].value == value
               else Latest(ops, items[i].key) == Some(items[i].value)
    ensures AllLatest(items, ops + [Op.Enqueue(value, key, now)])
  {
    forall i | 0 <= i < |items|
      ensures Latest(ops + [Op.Enqueue(value, key, now)], items[i].key) == Some(items[i].value)
    {
      LatestAppend(ops, value, key, now, items[i].key);
    }
  }

  lemma EnqueueLatest<T>(q: Queue<T>, ops: seq<Op<T>>, value: T, key: string, now: int)
    requires q.overflow == Coalesce && KeysDistinct(q.items) && AllLatest(q.items, ops)
    ensures var q' := Enqueued(q, value, key, now);
            && q'.overflow == Coalesce && KeysDistinct(q'.items)
            && AllLatest(q'.items, ops + [Op.Enqueue(value, key, now)])
  {
    var slot := Find(q.items, key);
    var items := Enqueued(q, value, key, now).items;
    if slot.Some? {
      assert items == q.items[slot.value := q.items[slot.value].(value := value)];
      assert forall i :: 0 <= i < |items| ==> items[i].key == q.items[i].key;
    } else {
      var kept := if MustDrop(q) && q.items != [] then q.items[1..] else q.items;
      assert items == kept + [Item(key, value, now)];
    }
    AllLatestAppend(items, ops, value, key, now);
  }

  /**
   What one arrival does to a coalescing queue: the same keys in the same order with one payload replaced,
   or one more at the end, and then the head goes exactly when the queue was full.
   */
  lemma CoalesceStep<T>(q: Queue<T>, value: T, key: string, now: int)
    requires q.overflow == Coalesce
    ensures var q' := Enqueued(q, value, key, now);
            && q'.counts.enqueued == q.counts.enqueued + 1 && q'.counts.processed == q.counts.processed
            && (if exists i :: 0 <= i < |q.items| && q.items[i].key == key then
                  && |q'.items| == |q.items| && q'.counts.dropped == q.counts.dropped
                  && q'.counts.coalesced == q.counts.coalesced + 1
                  && forall i :: 0 <= i < |q.items| ==>
                       q'.items[i].key == q.items[i].key && q'.items[i].enqueuedAt == q.items[i].enqueuedAt
                else
                  && q'.counts.coalesced == q.counts.coalesced
                  && q'.items == (if q.items != [] && |q.items| >= q.capacity then q.items[1..] else q.items)
                                 + [Item(key, value, now)]
                  && q'.counts.dropped ==
                     q.counts.dropped + (if q.items != [] && |q.items| >= q.capacity then 1 else 0))
  {
    var slot := Find(q.items, key);
    if slot.Some? { assert q.items[slot.value].key == key; }
  }

  /** What leaves: the head alone, or everything in order, counted as processed. */
  lemma LeavingStep<T>(q: Queue<T>)
    ensures q.items == [] ==> Perform(q, Dequeue) == (q, [])
    ensures q.items != [] ==> Perform(q, Dequeue).1 == [q.items[0].value] && Perform(q, Dequeue).0.items == q.items[1..]
                              && Perform(q, Dequeue).0.counts.processed == q.counts.processed + 1
    ensures Perform(q, DrainAll).0.items == [] && |Perform(q, DrainAll).1| == |q.items|
    ensures forall i :: 0 <= i < |q.items| ==> Perform(q, DrainAll).1[i] == q.items[i].value
    ensures Perform(q, DrainAll).0.counts.processed == q.counts.processed + |q.items|
  {}

  /** A never-drop queue is a FIFO: what was handed out, then what is queued, is what was put in. */
  lemma {:induction false} NeverDropIsFifo<T>(capacity: int, ops: seq<Op<T>>)
    ensures After(NeverDrop, capacity, ops).overflow == NeverDrop
    ensures Delivered(NeverDrop, capacity, ops) + Values(After(NeverDrop, capacity, ops).items) == PutIn(ops)
  {
    if ops != [] {
      var before, op := ops[..|ops| - 1], ops[|ops| - 1];
      NeverDropIsFifo(capacity, before);
      FifoStep(After(NeverDrop, capacity, before), Delivered(NeverDrop, capacity, before), PutIn(before), op);
    }
  }

  lemma FifoStep<T>(q: Queue<T>, out: seq<T>, put: seq<T>, op: Op<T>)
    requires q.overflow == NeverDrop && out + Values(q.items) == put
    ensures (out + Perform(q, op).1) + Values(Perform(q, op).0.items)
            == put + (if op.Enqueue? then [op.value] else [])
  {
    match op
    case Enqueue(v, k, now) =>
      var items := q.items + [Item(k, v, now)];
      assert Perform(q, op).0.items == items;
      assert Values(items) == Values(q.items) + [v];
      assert out + [] == out;
      assert out + (Values(q.items) + [v]) == (out + Values(q.items)) + [v];
    case Dequeue =>
      if q.items != [] {
        assert Perform(q, op).0.items == q.items[1..];
        assert Values(q.items) == [q.items[0].value] + Values(q.items[1..]);
        assert out + ([q.items[0].value] + Values(q.items[1..])) == (out + [q.items[0].value]) + Values(q.items[1..]);
      }
      assert put + [] == put;
    case DrainAll =>
      assert put + [] == put;
  }

  ghost predicate ClockRuns<T>(ops: seq<Op<T>>) {
    forall i, j :: 0 <= i < j < |ops| && ops[i].Enqueue? && ops[j].Enqueue? ==> ops[i].now <= ops[j].now
  }

  ghost predicate InTimeOrder<T>(items: seq<Item<T>>) {
    forall i, j :: 0 <= i < j < |items| ==> items[i].enqueuedAt <= items[j].enqueuedAt
  }

  ghost predicate NoneAfter<T>(items: seq<Item<T>>, now: int) {
    forall i :: 0 <= i < |items| ==> items[i].enqueuedAt <= now
  }

  lemma ItemsStep<T>(q: Queue<T>, op: Op<T>, now: int)
    requires InTimeOrder(q.items) && NoneAfter(q.items, now) && (op.Enqueue? ==> op.now == now)
    ensures InTimeOrder(Perform(q, op).0.items) && NoneAfter(Perform(q, op).0.items, now)
  {
    if op.Enqueue? {
      var slot := Find(q.items, op.key);
      var items := Perform(q, op).0.items;
      if q.overflow == Coalesce && slot.Some? {
        assert forall i :: 0 <= i < |items| ==> items[i].enqueuedAt == q.items[i].enqueuedAt;
      } else {
        var kept := if MustDrop(q) && q.items != [] then q.items[1..] else q.items;
        assert items == kept + [Item(op.key, op.value, op.now)];
      }
    }
  }

  /** On a clock that runs forward the head is the longest-waiting slot, also after in-place replacement. */
  lemma {:induction false} HeadIsOldest<T>(overflow: Overflow, capacity: int, ops: seq<Op<T>>, now: int)
    requires ClockRuns(ops) && forall i :: 0 <= i < |ops| && ops[i].Enqueue? ==> ops[i].now <= now
    ensures InTimeOrder(After(overflow, capacity, ops).items) && NoneAfter(After(overflow, capacity, ops).items, now)
  {
    if ops != [] {
      var before, op := ops[..|ops| - 1], ops[|ops| - 1];
      var at := if op.Enqueue? then op.now else now;
      HeadIsOldest(overflow, capacity, before, at);
      ItemsStep(After(overflow, capacity, before), op, at);
    }
  }
}
