/**
 The gate that admits one historical request at a time. Interactive callers go before background ones,
 first come first served within a class, and a slot is handed back once by whichever of the watchdog
 and the request's own completion comes first.
 */
module HistoricalGate {

  datatype Waiter = Waiter(id: nat, background: bool)

  /** `granted` in order of receiving the slot, `released` those that handed it back, `arrived` everyone. */
  datatype Gate = Gate(busy: bool, waiting: seq<Waiter>, granted: seq<Waiter>, released: set<nat>, arrived: seq<Waiter>)

  function Fresh(): Gate { Gate(false, [], [], {}, []) }

  function Leading(waiting: seq<Waiter>): (n: nat)
    ensures n <= |waiting| && (forall i :: 0 <= i < n ==> !waiting[i].background)
    ensures n < |waiting| ==> waiting[n].background
  {
    if waiting == [] || waiting[0].background then 0 else 1 + Leading(waiting[1..])
  }

  function Inserted(waiting: seq<Waiter>, w: Waiter): seq<Waiter> {
    if w.background then waiting + [w]
    else waiting[..Leading(waiting)] + [w] + waiting[Leading(waiting)..]
  }

  function Acquired(g: Gate, w: Waiter): Gate {
    var h := g.(arrived := g.arrived + [w]);
    if !g.busy then h.(busy := true, granted := g.granted + [w]) else h.(waiting := Inserted(g.waiting, w))
  }

  /** Handing back the slot: straight to the next waiter, or the gate is free. */
  function HandedOn(g: Gate): Gate {
    if g.waiting == [] then g.(busy := false)
    else g.(waiting := g.waiting[1..], granted := g.granted + [g.waiting[0]])
  }

  /** Either end of a request tries to release; only the first try counts. */
  function ReleasedBy(g: Gate, id: nat): Gate {
    if id in g.released then g else HandedOn(g.(released := g.released + {id}))
  }

  class HistoricalGate {
    var busy: bool
    var waiting: seq<Waiter>
    /** The `released` flag of each run that got the slot. */
    var released: set<nat>
    ghost var granted: seq<Waiter>
    ghost var arrived: seq<Waiter>

    ghost function View(): Gate
      reads this
    {
      Gate(busy, waiting, granted, released, arrived)
    }

    constructor ()
      ensures View() == Fresh()
    {
      busy, waiting, released, granted, arrived := false, [], {}, [], [];
    }

    method Acquire(w: Waiter) returns (immediately: bool)
      modifies this
      ensures View() == Acquired(old(View()), w) && immediately == !old(busy)
    {
      arrived := arrived + [w];
      if !busy {
        busy := true;
        granted := granted + [w];
        return true;
      }
      if w.background {
        waiting := waiting + [w];
        return false;
      }
      var i := 0;
      while i < |waiting| && !waiting[i].background
        invariant 0 <= i <= |waiting| && waiting == old(waiting)
        invariant i + Leading(waiting[i..]) == Leading(waiting)
      {
        assert waiting[i..][1..] == waiting[i + 1..];
        i := i + 1;
      }
      waiting := waiting[..i] + [w] + waiting[i..];
      return false;
    }

    method ReleaseOnce(id: nat)
      modifies this
      ensures View() == ReleasedBy(old(View()), id)
    {
      if id in released { return; }
      released := released + {id};
      if |waiting| > 0 {
        granted := granted + [waiting[0]];
        waiting := waiting[1..];
      } else {
        busy := false;
      }
    }
  }

  // ---------------------------------------------------------------- every run

  /** Arrivals, and release attempts by the watchdog or the completion of a run that got the slot. */
  datatype Event = Arrive(w: Waiter) | TryRelease(id: nat)

  ghost predicate Possible(g: Gate, e: Event) {
    match e
    case Arrive(w) => forall i :: 0 <= i < |g.arrived| ==> g.arrived[i].id != w.id
    case TryRelease(id) => exists i :: 0 <= i < |g.granted| && g.granted[i].id == id
  }

  function Next(g: Gate, e: Event): Gate {
    match e
    case Arrive(w) => Acquired(g, w)
    case TryRelease(id) => ReleasedBy(g, id)
  }

  ghost function After(g: Gate, es: seq<Event>): Gate {
    if es == [] then g
    else
      var h := After(g, es[..|es| - 1]);
      if Possible(h, es[|es| - 1]) then Next(h, es[|es| - 1]) else h
  }

  function OfClass(ws: seq<Waiter>, background: bool): seq<Waiter> {
    if ws == [] then []
    else if ws[|ws| - 1].background == background then OfClass(ws[..|ws| - 1], background) + [ws[|ws| - 1]]
    else OfClass(ws[..|ws| - 1], background)
  }

  lemma {:induction false} OfClassConcat(a: seq<Waiter>, b: seq<Waiter>, background: bool)
    ensures OfClass(a + b, background) == OfClass(a, background) + OfClass(b, background)
  {
    if b == [] {
      assert a + b == a;
    } else {
      OfClassConcat(a, b[..|b| - 1], background);
      assert (a + b)[..|a + b| - 1] == a + b[..|b| - 1];
    }
  }

  lemma {:induction false} OfClassNone(ws: seq<Waiter>, background: bool)
    requires forall i :: 0 <= i < |ws| ==> ws[i].background != background
    ensures OfClass(ws, background) == []
  {
    if ws != [] { OfClassNone(ws[..|ws| - 1], background); }
  }

  lemma OfClassOne(w: Waiter, background: bool)
    ensures OfClass([w], background) == if w.background == background then [w] else []
  {
    assert [w][..0] == [];
  }

  /** Interactive waiters first. */
  ghost predicate InteractiveFirst(waiting: seq<Waiter>) {
    forall i, j :: 0 <= i < j < |waiting| && waiting[i].background ==> waiting[j].background
  }

  /** Every grant but the last has been handed back; the last one has not exactly while the gate is busy. */
  ghost predicate OneSlot(g: Gate) {
    && (forall i :: 0 <= i < |g.granted| - 1 ==> g.granted[i].id in g.released)
    && (g.busy ==> g.granted != [] && g.granted[|g.granted| - 1].id !in g.released)
    && (!g.busy ==> g.waiting == [] && forall i :: 0 <= i < |g.granted| ==> g.granted[i].id in g.released)
  }

  ghost predicate Known(g: Gate) {
    && DistinctIds(g.granted) && DistinctIds(g.waiting)
    && (forall i, j :: 0 <= i < |g.granted| && 0 <= j < |g.waiting| ==> g.granted[i].id != g.waiting[j].id)
    && (forall i :: 0 <= i < |g.granted| ==> g.granted[i] in g.arrived)
    && (forall i :: 0 <= i < |g.waiting| ==> g.waiting[i] in g.arrived)
    && (forall id :: id in g.released ==> exists i :: 0 <= i < |g.granted| && g.granted[i].id == id)
  }

  /** Within each class the slot is given in order of arrival. */
  ghost predicate FifoByClass(g: Gate) {
    forall b :: OfClass(g.arrived, b) == OfClass(g.granted, b) + OfClass(g.waiting, b)
  }

  ghost predicate Inv(g: Gate) { OneSlot(g) && Known(g) && InteractiveFirst(g.waiting) && FifoByClass(g) }

  lemma InsertKeepsClasses(waiting: seq<Waiter>, w: Waiter)
    requires InteractiveFirst(waiting)
    ensures InteractiveFirst(Inserted(waiting, w))
  {
    InsertedMembers(waiting, w);
  }

  lemma LeadingSplits(waiting: seq<Waiter>)
    requires InteractiveFirst(waiting)
    ensures OfClass(waiting, false) == waiting[..Leading(waiting)]
    ensures OfClass(waiting, true) == waiting[Leading(waiting)..]
  {
    var n := Leading(waiting);
    assert waiting == waiting[..n] + waiting[n..];
    ClassesOfSplit(waiting[..n], waiting[n..]);
  }

  lemma ClassesOfSplit(head: seq<Waiter>, tail: seq<Waiter>)
    requires forall i :: 0 <= i < |head| ==> !head[i].background
    requires forall i :: 0 <= i < |tail| ==> tail[i].background
    ensures OfClass(head + tail, false) == head && OfClass(head + tail, true) == tail
  {
    OfClassConcat(head, tail, false);
    OfClassConcat(head, tail, true);
    OfClassAll(head, false);
    OfClassAll(tail, true);
    OfClassNone(head, true);
    OfClassNone(tail, false);
  }

  lemma InsertFifo(waiting: seq<Waiter>, w: Waiter, b: bool)
    requires InteractiveFirst(waiting)
    ensures OfClass(Inserted(waiting, w), b) == OfClass(waiting, b) + OfClass([w], b)
  {
    if w.background {
      OfClassConcat(waiting, [w], b);
    } else {
      LeadingSplits(waiting);
      LeadingAfterInsert(waiting, w);
      InsertKeepsClasses(waiting, w);
      LeadingSplits(Inserted(waiting, w));
      OfClassOne(w, b);
    }
  }

  lemma LeadingAfterInsert(waiting: seq<Waiter>, w: Waiter)
    requires InteractiveFirst(waiting) && !w.background
    ensures Leading(Inserted(waiting, w)) == Leading(waiting) + 1
  {
    InsertedMembers(waiting, w);
    var n, all := Leading(waiting), Inserted(waiting, w);
    assert forall i :: 0 <= i <= n ==> !all[i].background;
    assert n + 1 < |all| ==> all[n + 1] == waiting[n];
  }

  lemma ArriveFifo(g: Gate, w: Waiter)
    requires InteractiveFirst(g.waiting) && FifoByClass(g) && (!g.busy ==> g.waiting == [])
    ensures FifoByClass(Acquired(g, w)) && InteractiveFirst(Acquired(g, w).waiting)
  {
    var h := Acquired(g, w);
    forall b ensures OfClass(h.arrived, b) == OfClass(h.granted, b) + OfClass(h.waiting, b) {
      OfClassConcat(g.arrived, [w], b);
      if g.busy {
        InsertFifo(g.waiting, w, b);
      } else {
        OfClassConcat(g.granted, [w], b);
      }
    }
    if g.busy { InsertKeepsClasses(g.waiting, w); }
  }

  lemma ReleaseFifo(g: Gate)
    requires InteractiveFirst(g.waiting) && FifoByClass(g)
    ensures FifoByClass(HandedOn(g)) && InteractiveFirst(HandedOn(g).waiting)
  {
    if g.waiting != [] {
      var h := HandedOn(g);
      forall b ensures OfClass(h.arrived, b) == OfClass(h.granted, b) + OfClass(h.waiting, b) {
        OfClassConcat(g.granted, [g.waiting[0]], b);
        assert g.waiting == [g.waiting[0]] + g.waiting[1..];
        OfClassConcat([g.waiting[0]], g.waiting[1..], b);
      }
    }
  }

  lemma InsertedMembers(waiting: seq<Waiter>, w: Waiter)
    ensures |Inserted(waiting, w)| == |waiting| + 1
    ensures forall i :: 0 <= i < |waiting| + 1 ==>
              var n := if w.background then |waiting| else Leading(waiting);
              Inserted(waiting, w)[i] == if i < n then waiting[i] else if i == n then w else waiting[i - 1]
  {}

  lemma GrantKnown(g: Gate, w: Waiter)
    requires Known(g) && Possible(g, Arrive(w)) && !g.busy
    ensures Known(Acquired(g, w))
  {
    assert forall v :: v in g.arrived ==> v.id != w.id;
    GrantsStayListed(g, w);
  }

  lemma GrantsStayListed(g: Gate, w: Waiter)
    requires forall id :: id in g.released ==> exists i :: 0 <= i < |g.granted| && g.granted[i].id == id
    ensures forall id :: id in g.released ==> exists i :: 0 <= i < |g.granted + [w]| && (g.granted + [w])[i].id == id
  {
    forall id | id in g.released ensures exists i :: 0 <= i < |g.granted + [w]| && (g.granted + [w])[i].id == id {
      var i :| 0 <= i < |g.granted| && g.granted[i].id == id;
      assert (g.granted + [w])[i].id == id;
    }
  }

  ghost predicate DistinctIds(ws: seq<Waiter>) {
    forall i, j :: 0 <= i < j < |ws| ==> ws[i].id != ws[j].id
  }

  lemma InsertedDistinct(waiting: seq<Waiter>, w: Waiter)
    requires DistinctIds(waiting) && forall i :: 0 <= i < |waiting| ==> waiting[i].id != w.id
    ensures DistinctIds(Inserted(waiting, w))
  {
    InsertedMembers(waiting, w);
  }

  lemma InsertedFrom(waiting: seq<Waiter>, w: Waiter)
    ensures var all := Inserted(waiting, w);
            forall i :: 0 <= i < |all| ==> all[i] == w || all[i] in waiting
  {}

  lemma QueueKnown(g: Gate, w: Waiter)
    requires Known(g) && Possible(g, Arrive(w)) && g.busy
    ensures Known(Acquired(g, w))
  {
    assert forall v :: v in g.arrived ==> v.id != w.id;
    InsertedDistinct(g.waiting, w);
    InsertedFrom(g.waiting, w);
  }

  lemma ArriveKnown(g: Gate, w: Waiter)
    requires Known(g) && Possible(g, Arrive(w))
    ensures Known(Acquired(g, w))
  {
    if g.busy { QueueKnown(g, w); } else { GrantKnown(g, w); }
  }

  lemma ReleaseKnown(g: Gate, id: nat)
    requires Known(g) && Possible(g, TryRelease(id))
    ensures Known(ReleasedBy(g, id))
  {
    var h := ReleasedBy(g, id);
    forall r | r in h.released ensures exists i :: 0 <= i < |h.granted| && h.granted[i].id == r {
      var i :| 0 <= i < |g.granted| && g.granted[i].id == r;
      assert h.granted[i].id == r;
    }
  }

  lemma SlotStep(g: Gate, e: Event)
    requires OneSlot(g) && Known(g) && Possible(g, e)
    ensures OneSlot(Next(g, e))
  {}

  lemma {:induction false} EveryRunKeeps(es: seq<Event>)
    ensures Inv(After(Fresh(), es))
  {
    if es == [] {
      assert forall b :: OfClass([], b) == [];
    } else {
      EveryRunKeeps(es[..|es| - 1]);
      var g := After(Fresh(), es[..|es| - 1]);
      var e := es[|es| - 1];
      if Possible(g, e) {
        SlotStep(g, e);
        match e
        case Arrive(w) => ArriveKnown(g, w); ArriveFifo(g, w);
        case TryRelease(id) =>
          ReleaseKnown(g, id);
          if id !in g.released { ReleaseFifo(g.(released := g.released + {id})); }
      }
    }
  }

  /** While busy exactly one grant is unreleased, and otherwise none is. */
  lemma ExactlyOneUnreleased(es: seq<Event>)
    ensures var g := After(Fresh(), es);
            var open := set i | 0 <= i < |g.granted| && g.granted[i].id !in g.released;
            if g.busy then open == {|g.granted| - 1} else open == {}
  {
    EveryRunKeeps(es);
    OpenGrants(After(Fresh(), es));
  }

  lemma OpenGrants(g: Gate)
    requires OneSlot(g)
    ensures var open := set i | 0 <= i < |g.granted| && g.granted[i].id !in g.released;
            if g.busy then open == {|g.granted| - 1} else open == {}
  {}

  // ---------------------------------------------------------------- how long an interactive caller waits

  /** Release attempts that changed something. */
  ghost function Releases(g: Gate, es: seq<Event>): nat {
    if es == [] then 0
    else
      var h := After(g, es[..|es| - 1]);
      var e := es[|es| - 1];
      Releases(g, es[..|es| - 1]) + (if Possible(h, e) && e.TryRelease? && e.id !in h.released then 1 else 0)
  }

  /** An interactive caller that arrives behind k waiting interactive callers is k-th in line. */
  lemma ArrivesBehindInteractive(g: Gate, w: Waiter)
    requires g.busy && !w.background && InteractiveFirst(g.waiting)
    ensures var k := |OfClass(g.waiting, false)|;
            k < |Acquired(g, w).waiting| && Acquired(g, w).waiting[k] == w
  {
    LeadingSplits(g.waiting);
    InsertedMembers(g.waiting, w);
  }

  lemma {:induction false} OfClassAll(ws: seq<Waiter>, background: bool)
    requires forall i :: 0 <= i < |ws| ==> ws[i].background == background
    ensures OfClass(ws, background) == ws
  {
    if ws != [] {
      OfClassAll(ws[..|ws| - 1], background);
      assert ws == ws[..|ws| - 1] + [ws[|ws| - 1]];
    }
  }

  /**
   The k-th interactive waiter moves up by one place per release and gets the slot at release k + 1,
   whoever else arrives meanwhile and however often the watchdog and the completion both try to release.
   */
  lemma {:induction false} SlotAfterKPlusOneReleases(g: Gate, es: seq<Event>, k: nat)
    requires g.busy && InteractiveFirst(g.waiting) && k < |g.waiting| && !g.waiting[k].background
    ensures var r := Releases(g, es);
            var h := After(g, es);
            && (r <= k ==> h.busy && InteractiveFirst(h.waiting) && k - r < |h.waiting|
                           && h.waiting[k - r] == g.waiting[k] && |h.granted| == |g.granted| + r)
            && (r > k ==> |h.granted| > |g.granted| + k && h.granted[|g.granted| + k] == g.waiting[k])
  {
    if es != [] {
      var before := es[..|es| - 1];
      var e := es[|es| - 1];
      SlotAfterKPlusOneReleases(g, before, k);
      var r := Releases(g, before);
      var h := After(g, before);
      if Possible(h, e) && e.Arrive? && r <= k {
        InsertedMembers(h.waiting, e.w);
        InsertKeepsClasses(h.waiting, e.w);
        assert !e.w.background ==> k - r < Leading(h.waiting);
      }
    }
  }
}
