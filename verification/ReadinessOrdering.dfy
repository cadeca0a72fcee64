/**
 Ordering readiness decisions across backend restarts: a durable boot ordinal per process, a generation
 within a process, and a client that must end on the newest decision however they are delivered.
 */
module ReadinessOrdering {
  import opened Common

  /** The ordering fields of a decision; what a client shows before the first one is all absent. */
  datatype Decision = Decision(instance: Option<string>, ordinal: Option<int>, generation: Option<int>)

  const NOTHING := Decision(None, None, None)

  datatype Verdict = Accept | AdoptNewInstance | RejectStale | RejectIncompatible

  predicate HasInstance(d: Decision) { d.instance.Some? && d.instance.value != "" }

  function OrderDecision(rendered: Decision, incoming: Decision): Verdict {
    if incoming.generation.None? then RejectIncompatible
    else if !HasInstance(incoming) then RejectIncompatible
    else if incoming.ordinal.None? then RejectIncompatible
    else if rendered.instance.None? || rendered.generation.None? then Accept
    else if incoming.instance == rendered.instance then
      if incoming.generation.value > rendered.generation.value then Accept else RejectStale
    else if rendered.ordinal.None? then AdoptNewInstance
    else if incoming.ordinal.value > rendered.ordinal.value then AdoptNewInstance
    else if incoming.ordinal.value < rendered.ordinal.value then RejectStale
    else RejectIncompatible
  }

  /** What the client shows after one more delivery. */
  function Show(rendered: Decision, incoming: Decision): Decision {
    var v := OrderDecision(rendered, incoming);
    if v == Accept || v == AdoptNewInstance then incoming else rendered
  }

  function Shown(ds: seq<Decision>): Decision {
    if ds == [] then NOTHING else Show(Shown(ds[..|ds| - 1]), ds[|ds| - 1])
  }

  /**
   What the client does with a delivery: one that cannot be ordered, or that claims a known ordinal for
   another process, is incompatible and changes nothing; otherwise the newer of the two is shown.
   */
  lemma VerdictMeans(rendered: Decision, incoming: Decision)
    requires rendered == NOTHING || Orderable(rendered)
    ensures var v := OrderDecision(rendered, incoming);
            var clash := rendered != NOTHING && Orderable(incoming) && incoming.instance != rendered.instance
                         && incoming.ordinal == rendered.ordinal;
            && (v == RejectIncompatible <==> !Orderable(incoming) || clash)
            && (v == Accept <==> Orderable(incoming)
                                 && (rendered == NOTHING || (incoming.instance == rendered.instance
                                                             && incoming.generation.value > rendered.generation.value)))
            && (v == AdoptNewInstance <==> Orderable(incoming) && rendered != NOTHING
                                           && incoming.instance != rendered.instance
                                           && incoming.ordinal.value > rendered.ordinal.value)
            && (Show(rendered, incoming) == if v == Accept || v == AdoptNewInstance then incoming else rendered)
  {}

  predicate Orderable(d: Decision) { d.generation.Some? && HasInstance(d) && d.ordinal.Some? }

  /** Lexicographic by boot ordinal, then generation. */
  predicate Leq(a: Decision, b: Decision)
    requires Orderable(a) && Orderable(b)
  {
    a.ordinal.value < b.ordinal.value
    || (a.ordinal.value == b.ordinal.value && a.generation.value <= b.generation.value)
  }

  /** Each process has one ordinal and no two processes share one. */
  ghost predicate OneOrdinalEach(ds: seq<Decision>) {
    forall i, j :: 0 <= i < |ds| && 0 <= j < |ds| && Orderable(ds[i]) && Orderable(ds[j]) ==>
      (ds[i].instance == ds[j].instance <==> ds[i].ordinal == ds[j].ordinal)
  }

  ghost predicate IsMaximumOf(d: Decision, ds: seq<Decision>) {
    && d in ds && Orderable(d)
    && forall i :: 0 <= i < |ds| && Orderable(ds[i]) ==> Leq(ds[i], d)
  }

  ghost predicate AnyOrderable(ds: seq<Decision>) { exists i :: 0 <= i < |ds| && Orderable(ds[i]) }

  /** In any order and with any repeats, the client shows the maximum of what was delivered. */
  lemma {:induction false} ClientShowsMaximum(ds: seq<Decision>)
    requires OneOrdinalEach(ds)
    ensures if AnyOrderable(ds) then IsMaximumOf(Shown(ds), ds) else Shown(ds) == NOTHING
  {
    if ds != [] {
      var before, last := ds[..|ds| - 1], ds[|ds| - 1];
      assert forall i :: 0 <= i < |before| ==> before[i] == ds[i];
      ClientShowsMaximum(before);
      assert ds == before + [last];
      if AnyOrderable(before) {
        var i :| 0 <= i < |before| && Orderable(before[i]);
        assert Orderable(ds[i]);
        MaximumGrows(before, last, Shown(before));
      } else if Orderable(last) {
        assert Orderable(ds[|before|]);
        assert forall i :: 0 <= i < |before| ==> !Orderable(before[i]);
      } else {
        forall i | 0 <= i < |ds| ensures !Orderable(ds[i]) {
          if i < |before| { assert ds[i] == before[i]; }
        }
      }
    }
  }

  lemma MaximumGrows(ds: seq<Decision>, d: Decision, shown: Decision)
    requires OneOrdinalEach(ds + [d]) && IsMaximumOf(shown, ds)
    ensures IsMaximumOf(Show(shown, d), ds + [d])
  {
    var all := ds + [d];
    var k :| 0 <= k < |ds| && ds[k] == shown;
    assert all[k] == shown && all[|ds|] == d;
    assert forall i :: 0 <= i < |ds| ==> all[i] == ds[i];
  }

  /** Two clients that were delivered the same decisions show the same one. */
  lemma DeliveryOrderIsIrrelevant(ds: seq<Decision>, es: seq<Decision>)
    requires OneOrdinalEach(ds) && OneOrdinalEach(es) && forall d :: d in ds <==> d in es
    ensures Shown(ds) == Shown(es)
  {
    ClientShowsMaximum(ds);
    ClientShowsMaximum(es);
    OrderableCarriesOver(ds, es);
    OrderableCarriesOver(es, ds);
    if AnyOrderable(ds) { SameMaximum(ds, es, Shown(ds), Shown(es)); }
  }

  lemma OrderableCarriesOver(ds: seq<Decision>, es: seq<Decision>)
    requires forall d :: d in ds ==> d in es
    ensures AnyOrderable(ds) ==> AnyOrderable(es)
  {
    if AnyOrderable(ds) {
      var i :| 0 <= i < |ds| && Orderable(ds[i]);
      assert ds[i] in es;
    }
  }

  lemma SameMaximum(ds: seq<Decision>, es: seq<Decision>, a: Decision, b: Decision)
    requires OneOrdinalEach(ds) && (forall d :: d in ds <==> d in es) && IsMaximumOf(a, ds) && IsMaximumOf(b, es)
    ensures a == b
  {
    assert a in es && b in ds;
    var i :| 0 <= i < |ds| && ds[i] == a;
    var j :| 0 <= j < |ds| && ds[j] == b;
    var k :| 0 <= k < |es| && es[k] == a;
    assert Leq(ds[j], a) && Leq(es[k], b);
  }

  /** More deliveries never rewind what is shown. */
  lemma NeverRewinds(ds: seq<Decision>, more: seq<Decision>)
    requires OneOrdinalEach(ds + more) && AnyOrderable(ds)
    ensures Orderable(Shown(ds)) && Orderable(Shown(ds + more)) && Leq(Shown(ds), Shown(ds + more))
  {
    var all := ds + more;
    assert forall i :: 0 <= i < |ds| ==> all[i] == ds[i];
    ClientShowsMaximum(ds);
    var i :| 0 <= i < |ds| && Orderable(ds[i]);
    assert Orderable(all[i]);
    ClientShowsMaximum(all);
    var k :| 0 <= k < |ds| && ds[k] == Shown(ds);
    assert all[k] == Shown(ds);
  }

  // ---------------------------------------------------------------- where the ordinals come from

  /** What the claim statement answers: it threw, the seed row is missing, or a value came back. */
  datatype Answer = Threw | NoRow | Row(ordinal: int)

  datatype Process = Process(ordinal: Option<int>, resolved: bool)

  /** How a process takes the answer to its claim. */
  function Taken(p: Process, a: Answer): Process {
    match a
    case Threw => p
    case NoRow => p.(resolved := true)
    case Row(n) => if n <= 0 then p.(resolved := true) else Process(Some(n), true)
  }

  class BackendInstance {
    const instanceId: string
    var bootOrdinal: Option<int>
    var resolved: bool
    var failed: bool

    constructor (instanceId: string)
      ensures this.instanceId == instanceId && View() == Process(None, false) && !failed
    {
      this.instanceId := instanceId;
      bootOrdinal, resolved, failed := None, false, false;
    }

    function View(): Process
      reads this
    {
      Process(bootOrdinal, resolved)
    }

    /** One resolution, from its check to its answer; a resolved process asks no more. */
    method ResolveBootOrdinal(answer: Answer) returns (r: Option<int>)
      modifies this
      ensures View() == if old(resolved) then old(View()) else Taken(old(View()), answer)
      ensures r == if old(resolved) || (answer.Row? && answer.ordinal > 0) then bootOrdinal else None
      ensures !old(resolved) ==> (failed <==> r.None?)
      ensures !old(resolved) && answer.Row? && answer.ordinal > 0 ==> r == Some(answer.ordinal) == bootOrdinal
      ensures answer == Threw ==> View() == old(View())
      ensures answer != Threw ==> resolved
    {
      if resolved { return bootOrdinal; }
      match answer {
        case Threw => failed := true; return None;
        case NoRow => failed, resolved := true, true; return None;
        case Row(n) =>
          resolved := true;
          if n <= 0 { failed := true; return None; }
          bootOrdinal, failed := Some(n), false;
          return bootOrdinal;
      }
    }
  }

  /** A claim in flight: which process made it, and the answer once the database has one. */
  datatype Claim = Claim(process: string, answer: Option<Answer>)

  /** All processes against one database row, and every decision they published. */
  datatype Fleet = Fleet(lastOrdinal: Option<int>, processes: map<string, Process>,
                         claims: map<nat, Claim>, published: seq<Decision>)

  datatype Event =
    | Boot(id: string)
    | BeginClaim(id: string, claim: nat)
    | DatabaseCommits(claim: nat)
    | DatabaseFails(claim: nat)
    | ClaimReturns(claim: nat)
    | Publish(id: string, generation: int)

  ghost predicate Outstanding(f: Fleet, id: string) { exists c :: c in f.claims && f.claims[c].process == id }

  /** `serial` is the assumption that one process never overlaps two resolutions. */
  ghost predicate Possible(f: Fleet, e: Event, serial: bool) {
    match e
    case Boot(id) => id !in f.processes && id != ""
    case BeginClaim(id, c) =>
      id in f.processes && !f.processes[id].resolved && c !in f.claims && (serial ==> !Outstanding(f, id))
    case DatabaseCommits(c) => c in f.claims && f.claims[c].answer.None?
    case DatabaseFails(c) => c in f.claims
    case ClaimReturns(c) => c in f.claims && f.claims[c].answer.Some? && f.claims[c].process in f.processes
    case Publish(id, _) => id in f.processes
  }

  function Next(f: Fleet, e: Event): Fleet {
    match e
    case Boot(id) => f.(processes := f.processes[id := Process(None, false)])
    case BeginClaim(id, c) => f.(claims := f.claims[c := Claim(id, None)])
    case DatabaseCommits(c) =>
      if c !in f.claims then f
      else if f.lastOrdinal.None? then f.(claims := f.claims[c := f.claims[c].(answer := Some(NoRow))])
      else
        var n := f.lastOrdinal.value + 1;
        f.(lastOrdinal := Some(n), claims := f.claims[c := f.claims[c].(answer := Some(Row(n)))])
    case DatabaseFails(c) =>
      if c !in f.claims then f else f.(claims := f.claims[c := f.claims[c].(answer := Some(Threw))])
    case ClaimReturns(c) =>
      if c !in f.claims || f.claims[c].answer.None? || f.claims[c].process !in f.processes then f
      else
        var id := f.claims[c].process;
        f.(processes := f.processes[id := Taken(f.processes[id], f.claims[c].answer.value)], claims := f.claims - {c})
    case Publish(id, g) =>
      if id !in f.processes then f
      else f.(published := f.published + [Decision(Some(id), f.processes[id].ordinal, Some(g))])
  }

  ghost function After(lastOrdinal: Option<int>, es: seq<Event>, serial: bool): Fleet {
    if es == [] then Fleet(lastOrdinal, map[], map[], [])
    else
      var f := After(lastOrdinal, es[..|es| - 1], serial);
      if Possible(f, es[|es| - 1], serial) then Next(f, es[|es| - 1]) else f
  }

  /** The ordinal a claim has been given but not yet delivered. */
  predicate Holds(c: Claim, n: int) { c.answer == Some(Row(n)) }

  ghost predicate OrdinalsDistinct(f: Fleet) {
    && (forall p, q :: p in f.processes && q in f.processes && p != q && f.processes[p].ordinal.Some? ==>
          f.processes[p].ordinal != f.processes[q].ordinal)
    && (forall c, p :: c in f.claims && p in f.processes && f.processes[p].ordinal.Some? ==>
          !Holds(f.claims[c], f.processes[p].ordinal.value))
    && (forall c, d, n :: c in f.claims && d in f.claims && c != d && Holds(f.claims[c], n) ==> !Holds(f.claims[d], n))
  }

  ghost predicate OrdinalsIssued(f: Fleet) {
    && (forall p :: p in f.processes && f.processes[p].ordinal.Some? ==>
          f.lastOrdinal.Some? && f.processes[p].ordinal.value <= f.lastOrdinal.value)
    && (forall c, n :: c in f.claims && Holds(f.claims[c], n) ==> f.lastOrdinal.Some? && n <= f.lastOrdinal.value)
  }

  /** At most one claim per process, and none once it has an ordinal. */
  ghost predicate ClaimsSerial(f: Fleet) {
    && (forall c :: c in f.claims ==> f.claims[c].process in f.processes && !f.processes[f.claims[c].process].resolved)
    && (forall c, d :: c in f.claims && d in f.claims && c != d ==> f.claims[c].process != f.claims[d].process)
    && (forall p :: p in f.processes && f.processes[p].ordinal.Some? ==> f.processes[p].resolved)
  }

  /** Published ordinals are the ordinals their processes still have. */
  ghost predicate PublishedStable(f: Fleet) {
    forall i :: 0 <= i < |f.published| && Orderable(f.published[i]) ==>
      && f.published[i].instance.value in f.processes
      && f.published[i].ordinal == f.processes[f.published[i].instance.value].ordinal
  }

  /** What holds whether or not resolutions overlap, as long as no published ordinal is replaced. */
  ghost predicate Core(f: Fleet) { OrdinalsDistinct(f) && OrdinalsIssued(f) && PublishedStable(f) }

  ghost predicate Inv(f: Fleet) { Core(f) && ClaimsSerial(f) }

  ghost predicate HasPublished(f: Fleet, id: string) {
    exists i :: 0 <= i < |f.published| && Orderable(f.published[i]) && f.published[i].instance == Some(id)
  }

  /** A positive row returns to a process that has already published under an ordinal. */
  ghost predicate Rebinds(f: Fleet, e: Event) {
    && e.ClaimReturns? && e.claim in f.claims && HasPublished(f, f.claims[e.claim].process)
    && exists n :: n > 0 && Holds(f.claims[e.claim], n)
  }

  lemma DistinctKeeps(f: Fleet, e: Event)
    requires Core(f) && Possible(f, e, false)
    ensures OrdinalsDistinct(Next(f, e))
  {
    if e.ClaimReturns? {
      ReturnStaysDistinct(f, e.claim);
    } else if e.DatabaseCommits? {
      CommitStaysDistinct(f, e.claim);
    }
  }

  lemma ReturnStaysDistinct(f: Fleet, c: nat)
    requires OrdinalsDistinct(f) && Possible(f, ClaimReturns(c), false)
    ensures OrdinalsDistinct(Next(f, ClaimReturns(c)))
  {
    var a := f.claims[c].answer.value;
    if a.Row? { assert Holds(f.claims[c], a.ordinal); }
  }

  lemma CommitStaysDistinct(f: Fleet, c: nat)
    requires OrdinalsDistinct(f) && OrdinalsIssued(f) && Possible(f, DatabaseCommits(c), false)
    ensures OrdinalsDistinct(Next(f, DatabaseCommits(c)))
  {
    var f' := Next(f, DatabaseCommits(c));
    assert forall d :: d in f.claims && d != c ==> f'.claims[d] == f.claims[d];
  }

  lemma IssuedKeeps(f: Fleet, e: Event)
    requires OrdinalsIssued(f) && Possible(f, e, false)
    ensures OrdinalsIssued(Next(f, e))
  {
    if e.ClaimReturns? {
      var a := f.claims[e.claim].answer.value;
      if a.Row? { assert Holds(f.claims[e.claim], a.ordinal); }
    }
  }

  /** Exactly such a return changes an ordinal somebody has published under. */
  lemma PublishedStableIff(f: Fleet, e: Event)
    requires Core(f) && Possible(f, e, false)
    ensures PublishedStable(Next(f, e)) <==> !Rebinds(f, e)
  {
    if e.ClaimReturns? {
      ReturnStableIff(f, e.claim);
    }
  }

  lemma ReturnStableIff(f: Fleet, c: nat)
    requires Core(f) && Possible(f, ClaimReturns(c), false)
    ensures PublishedStable(Next(f, ClaimReturns(c))) <==> !Rebinds(f, ClaimReturns(c))
  {
    var a := f.claims[c].answer.value;
    var id := f.claims[c].process;
    if a.Row? { assert Holds(f.claims[c], a.ordinal); }
    if Rebinds(f, ClaimReturns(c)) {
      var i :| 0 <= i < |f.published| && Orderable(f.published[i]) && f.published[i].instance == Some(id);
      assert f.processes[id].ordinal == f.published[i].ordinal != Some(a.ordinal);
      assert !PublishedStable(Next(f, ClaimReturns(c)));
    }
  }

  /** No step of the run replaces a published ordinal. */
  ghost predicate NeverRebinds(lastOrdinal: Option<int>, es: seq<Event>) {
    forall k :: 0 <= k < |es| && Possible(After(lastOrdinal, es[..k], false), es[k], false) ==>
      !Rebinds(After(lastOrdinal, es[..k], false), es[k])
  }

  /** Overlapping resolutions included: the core laws hold over every run that never rebinds. */
  lemma {:induction false} OverlappingFleetKeeps(lastOrdinal: Option<int>, es: seq<Event>)
    requires NeverRebinds(lastOrdinal, es)
    ensures Core(After(lastOrdinal, es, false))
  {
    if es != [] {
      var before, e := es[..|es| - 1], es[|es| - 1];
      assert forall k :: 0 <= k < |before| ==> before[..k] == es[..k] && before[k] == es[k];
      OverlappingFleetKeeps(lastOrdinal, before);
      var f := After(lastOrdinal, before, false);
      if Possible(f, e, false) {
        DistinctKeeps(f, e);
        IssuedKeeps(f, e);
        PublishedStableIff(f, e);
      }
    }
  }

  lemma SerialKeeps(f: Fleet, e: Event)
    requires ClaimsSerial(f) && Possible(f, e, true)
    ensures ClaimsSerial(Next(f, e))
  {
    var f' := Next(f, e);
    assert forall d :: d in f.claims && d in f'.claims ==> f'.claims[d].process == f.claims[d].process;
  }

  /** One resolution at a time: a process with a claim out has no ordinal yet, so nothing is rebound. */
  lemma SerialNeverRebinds(f: Fleet, e: Event)
    requires Inv(f) && Possible(f, e, true)
    ensures !Rebinds(f, e)
  {
    if e.ClaimReturns? {
      var id := f.claims[e.claim].process;
      assert f.processes[id].ordinal.None?;
      assert forall i :: 0 <= i < |f.published| && Orderable(f.published[i]) ==> f.published[i].instance != Some(id);
    }
  }

  lemma {:induction false} EveryFleetKeeps(lastOrdinal: Option<int>, es: seq<Event>)
    ensures Inv(After(lastOrdinal, es, true))
  {
    if es != [] {
      EveryFleetKeeps(lastOrdinal, es[..|es| - 1]);
      var f, e := After(lastOrdinal, es[..|es| - 1], true), es[|es| - 1];
      if Possible(f, e, true) {
        DistinctKeeps(f, e);
        IssuedKeeps(f, e);
        SerialNeverRebinds(f, e);
        PublishedStableIff(f, e);
        SerialKeeps(f, e);
      }
    }
  }

  lemma CoreOrdinals(f: Fleet, delivered: seq<Decision>)
    requires Core(f) && forall i :: 0 <= i < |delivered| ==> delivered[i] in f.published
    ensures OneOrdinalEach(delivered)
  {
    forall i, j | 0 <= i < |delivered| && 0 <= j < |delivered| && Orderable(delivered[i]) && Orderable(delivered[j])
      ensures delivered[i].instance == delivered[j].instance <==> delivered[i].ordinal == delivered[j].ordinal
    {
      var a :| 0 <= a < |f.published| && f.published[a] == delivered[i];
      var b :| 0 <= b < |f.published| && f.published[b] == delivered[j];
    }
  }

  /**
   End to end: whatever boots, crashes, database failures and lost answers produced the decisions, a
   client given any of them in any order shows the newest of those it was given.
   */
  lemma FleetDecisionsConverge(lastOrdinal: Option<int>, es: seq<Event>, delivered: seq<Decision>)
    requires forall i :: 0 <= i < |delivered| ==> delivered[i] in After(lastOrdinal, es, true).published
    ensures if AnyOrderable(delivered) then IsMaximumOf(Shown(delivered), delivered) else Shown(delivered) == NOTHING
  {
    EveryFleetKeeps(lastOrdinal, es);
    CoreOrdinals(After(lastOrdinal, es, true), delivered);
    ClientShowsMaximum(delivered);
  }

  /** The same with overlapping resolutions, for every run in which none replaces a published ordinal. */
  lemma OverlappingDecisionsConverge(lastOrdinal: Option<int>, es: seq<Event>, delivered: seq<Decision>)
    requires NeverRebinds(lastOrdinal, es)
    requires forall i :: 0 <= i < |delivered| ==> delivered[i] in After(lastOrdinal, es, false).published
    ensures if AnyOrderable(delivered) then IsMaximumOf(Shown(delivered), delivered) else Shown(delivered) == NOTHING
  {
    OverlappingFleetKeeps(lastOrdinal, es);
    CoreOrdinals(After(lastOrdinal, es, false), delivered);
    ClientShowsMaximum(delivered);
  }

  /** And one that does is fatal: the process's next decision gives it a second ordinal. */
  lemma RebindThenPublishBreaks(f: Fleet, c: nat, generation: int)
    requires Core(f) && Possible(f, ClaimReturns(c), false) && Rebinds(f, ClaimReturns(c))
    ensures var f' := Next(f, ClaimReturns(c));
            !OneOrdinalEach(Next(f', Publish(f.claims[c].process, generation)).published)
  {
    var id := f.claims[c].process;
    var n := f.claims[c].answer.value.ordinal;
    var i :| 0 <= i < |f.published| && Orderable(f.published[i]) && f.published[i].instance == Some(id);
    assert Holds(f.claims[c], n);
    var last := Next(Next(f, ClaimReturns(c)), Publish(id, generation)).published;
    assert last[i] == f.published[i] && last[|f.published|] == Decision(Some(id), Some(n), Some(generation));
  }

  lemma Extend(es: seq<Event>, f: Fleet, e: Event)
    requires After(Some(0), es, false) == f && Possible(f, e, false)
    ensures After(Some(0), es + [e], false) == Next(f, e)
  {
    assert (es + [e])[..|es|] == es;
  }

  lemma BothClaimsCommit() returns (es: seq<Event>, f: Fleet)
    ensures After(Some(0), es, false) == f
    ensures f.processes == map["p" := Process(None, false)] && f.published == []
    ensures f.claims == map[1 := Claim("p", Some(Row(1))), 2 := Claim("p", Some(Row(2)))]
  {
    es, f := [], Fleet(Some(0), map[], map[], []);
    Extend(es, f, Boot("p"));
    es, f := es + [Boot("p")], Next(f, Boot("p"));
    Extend(es, f, BeginClaim("p", 1));
    es, f := es + [BeginClaim("p", 1)], Next(f, BeginClaim("p", 1));
    Extend(es, f, BeginClaim("p", 2));
    es, f := es + [BeginClaim("p", 2)], Next(f, BeginClaim("p", 2));
    Extend(es, f, DatabaseCommits(1));
    es, f := es + [DatabaseCommits(1)], Next(f, DatabaseCommits(1));
    Extend(es, f, DatabaseCommits(2));
    es, f := es + [DatabaseCommits(2)], Next(f, DatabaseCommits(2));
  }

  /** Two overlapping resolutions of one process each claim: it publishes under two ordinals. */
  lemma OverlapGivesTwoOrdinals() returns (es: seq<Event>)
    ensures !OneOrdinalEach(After(Some(0), es, false).published)
  {
    var f;
    es, f := BothClaimsCommit();
    Extend(es, f, ClaimReturns(1));
    es, f := es + [ClaimReturns(1)], Next(f, ClaimReturns(1));
    Extend(es, f, Publish("p", 1));
    es, f := es + [Publish("p", 1)], Next(f, Publish("p", 1));
    Extend(es, f, ClaimReturns(2));
    es, f := es + [ClaimReturns(2)], Next(f, ClaimReturns(2));
    Extend(es, f, Publish("p", 2));
    es, f := es + [Publish("p", 2)], Next(f, Publish("p", 2));
    assert f.published == [Decision(Some("p"), Some(1), Some(1)), Decision(Some("p"), Some(2), Some(2))];
    assert Orderable(f.published[0]) && Orderable(f.published[1]);
  }
}
