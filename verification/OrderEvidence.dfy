/**
 What a broker snapshot proves about one order, and how REST reads and stream updates are merged into
 the session's view of it. A field the broker did not send is absent, which is not the same as zero.
 */
module OrderEvidence {
  import opened Common

  datatype OrderState =
    | Created | Submitting | Acknowledged | Open | PartiallyFilled | Complete
    | CancelRequested | Cancelled | Rejected | Unknown | ReconciliationRequired

  predicate IsTerminal(s: OrderState) { s == Complete || s == Cancelled || s == Rejected }

  /** States after which nothing more is read, so their books close on the snapshot that reports them. */
  predicate FreezesAccounting(s: OrderState) { IsTerminal(s) || s == PartiallyFilled }

  /** A broker status label, trimmed and upper-cased. */
  datatype Label =
    | Transit | Pending | PartTraded | Traded | CancelledLabel | Closed | RejectedLabel | Expired | OtherLabel

  function DhanOrderState(status: Label, filled: int, quantity: int): OrderState {
    match status
    case Transit => Acknowledged
    case Pending => if filled > 0 && filled < quantity then PartiallyFilled else Open
    case PartTraded => if filled >= quantity && quantity > 0 then Complete else PartiallyFilled
    case Traded => if quantity > 0 && filled > 0 && filled < quantity then PartiallyFilled else Complete
    case CancelledLabel => Cancelled
    case Closed => Cancelled
    case RejectedLabel => Rejected
    case Expired => if filled > 0 && filled < quantity then PartiallyFilled else Cancelled
    case OtherLabel => Unknown
  }

  // ---------------------------------------------------------------- absent versus zero

  /** A raw broker field: a number, or one of the forms that carry none. */
  datatype Raw = Missing | EmptyText | Flag(b: bool) | NotNumeric | Number(value: real)

  function ReadQuantity(raw: Raw): (r: Option<nat>)
    ensures r == Some(0) <==> raw == Number(0.0)
    ensures r.Some? ==> raw == Number(r.value as real)
    ensures r.Some? <==> raw.Number? && raw.value >= 0.0 && raw.value == raw.value.Floor as real
  {
    if raw.Number? && raw.value >= 0.0 && raw.value == raw.value.Floor as real then Some(raw.value.Floor) else None
  }

  function ReadPrice(raw: Raw): (r: Option<real>)
    ensures r.Some? ==> r.value > 0.0 && raw == Number(r.value)
    ensures r.Some? <==> raw.Number? && raw.value > 0.0
  {
    if raw.Number? && raw.value > 0.0 then Some(raw.value) else None
  }

  // ---------------------------------------------------------------- the verdict on one snapshot

  datatype PriceQuality = PriceConfirmed | PriceMissing | PriceNotApplicable
  datatype Accounting = BooksComplete | PendingPrice | Unproven
  datatype Quality = Quality(quantityConfirmed: bool, price: PriceQuality, accounting: Accounting)
  datatype Verdict = Verdict(
    sufficient: bool, filled: nat, price: Option<real>, accountingComplete: bool, quality: Quality)

  function Evaluate(claimed: OrderState, priorFilled: int, quantity: Option<nat>, price: Option<real>): Verdict {
    var prior := AtLeastZero(priorFilled);
    if quantity.None? then
      if FreezesAccounting(claimed) then
        Verdict(false, prior, price, false,
                Quality(false, if price.Some? then PriceConfirmed else PriceMissing, Unproven))
      else
        Verdict(true, prior, price, true,
                Quality(false,
                        if prior <= 0 then PriceNotApplicable
                        else if price.Some? then PriceConfirmed else PriceMissing,
                        if prior > 0 && price.None? then PendingPrice else BooksComplete))
    else
      var filled := if prior >= quantity.value then prior else quantity.value;
      if filled == 0 then
        Verdict(true, 0, None, true, Quality(true, PriceNotApplicable, BooksComplete))
      else
        Verdict(true, filled, price, price.Some?,
                Quality(true, if price.Some? then PriceConfirmed else PriceMissing,
                        if price.Some? then BooksComplete else PendingPrice))
  }

  // ---------------------------------------------------------------- orders and observations

  datatype Fill = Fill(quantity: int, price: Option<real>)

  datatype Order = Order(
    state: OrderState, quantity: int, filled: int, pending: int, averagePrice: Option<real>,
    fills: seq<Fill>, evidence: Option<Quality>, brokerOrderId: Option<string>)

  /** A REST read of the order book, with the trade-book rows that could be fetched. */
  datatype Remote = Remote(status: Label, filledQty: Raw, averagePrice: Raw, remaining: Option<int>,
                           orderId: Option<string>, trades: seq<Fill>)

  datatype Update = Update(status: Label, cumulativeQty: Raw, averagePrice: Raw, brokerOrderId: Option<string>)

  function Remaining(quantity: int, filled: int): int { Max(0, quantity - filled) }

  function Project(known: Order, remote: Remote): Order {
    var observed := ReadQuantity(remote.filledQty);
    var price := ReadPrice(remote.averagePrice);
    var stated := if observed.Some? then observed.value else known.filled;
    var claimed := DhanOrderState(remote.status, stated, known.quantity);
    var v := Evaluate(claimed, known.filled, observed, price);
    Order(
      if v.sufficient then DhanOrderState(remote.status, v.filled, known.quantity) else ReconciliationRequired,
      known.quantity, v.filled,
      if remote.remaining.Some? then remote.remaining.value else Remaining(known.quantity, v.filled),
      v.price,
      if remote.trades != [] then remote.trades else if v.filled > 0 then [Fill(v.filled, v.price)] else [],
      Some(v.quality), remote.orderId)
  }

  /** A completed re-read, including the guard that keeps a lower cumulative figure from being stored. */
  function Refresh(known: Order, remote: Remote): Order {
    var p := Project(known, remote);
    if p.filled < known.filled then
      p.(filled := known.filled, pending := Remaining(known.quantity, known.filled),
         fills := if |p.fills| < |known.fills| then known.fills else p.fills,
         averagePrice := if p.averagePrice.None? then known.averagePrice else p.averagePrice)
    else p
  }

  /** A stream update merged into a known order, and whether it was applied or ignored. */
  function ApplyUpdate(known: Order, u: Update): (Order, bool) {
    var observed := ReadQuantity(u.cumulativeQty);
    var price := ReadPrice(u.averagePrice);
    var claimed := DhanOrderState(u.status, if observed.Some? then observed.value else known.filled, known.quantity);
    var v := Evaluate(claimed, known.filled, observed, price);
    var regressed := observed.Some? && observed.value < known.filled;
    var accepted := if regressed then known.filled else v.filled;
    var average := if v.price.Some? && !regressed then v.price else known.averagePrice;
    var derived := if v.sufficient then DhanOrderState(u.status, accepted, known.quantity) else known.state;
    var state := if IsTerminal(known.state) && !IsTerminal(derived) then known.state else derived;
    if regressed && state == known.state then (known, false) else
    (Order(state, known.quantity, accepted, Remaining(known.quantity, accepted), average,
           if accepted > 0 && known.fills == [] then [Fill(accepted, average)] else known.fills,
           if regressed then known.evidence else Some(v.quality),
           if u.brokerOrderId.Some? then u.brokerOrderId else known.brokerOrderId),
     true)
  }

  /** Whether an order's execution accounting is final. */
  predicate AccountingComplete(o: Order) {
    if o.state == Unknown || o.state == ReconciliationRequired then false
    else if o.evidence.Some? then o.evidence.value.accounting == BooksComplete
    else o.filled <= 0 || (o.averagePrice.Some? && o.averagePrice.value > 0.0)
  }

  /** The order as built from a request. */
  function FromRequest(quantity: int): Order {
    Order(Created, quantity, 0, quantity, None, [], None, None)
  }

  // ---------------------------------------------------------------- observations applied one at a time

  datatype Observation = Rest(remote: Remote) | Stream(update: Update)

  function Observe(o: Order, x: Observation): Order {
    match x
    case Rest(r) => Refresh(o, r)
    case Stream(u) => ApplyUpdate(o, u).0
  }

  function After(o: Order, xs: seq<Observation>): Order {
    if xs == [] then o else Observe(After(o, xs[..|xs| - 1]), xs[|xs| - 1])
  }

  /** The quantity an observation states outright. */
  function Explicit(x: Observation): Option<nat> {
    match x
    case Rest(r) => ReadQuantity(r.filledQty)
    case Stream(u) => ReadQuantity(u.cumulativeQty)
  }

  function HighestExplicit(start: int, xs: seq<Observation>): int {
    if xs == [] then start
    else
      var rest := HighestExplicit(start, xs[..|xs| - 1]);
      var q := Explicit(xs[|xs| - 1]);
      if q.Some? && q.value > rest then q.value else rest
  }

  /** The filled quantity is the highest ever stated, whatever the mix and the order of the sources. */
  lemma {:induction false} FilledIsHighestExplicit(o: Order, xs: seq<Observation>)
    requires o.filled >= 0
    ensures After(o, xs).filled == HighestExplicit(o.filled, xs) >= o.filled
    ensures After(o, xs).quantity == o.quantity
  {
    if xs != [] { FilledIsHighestExplicit(o, xs[..|xs| - 1]); }
  }

  lemma {:induction false} HighestIsAttained(start: int, xs: seq<Observation>)
    ensures forall x :: x in xs && Explicit(x).Some? ==> Explicit(x).value <= HighestExplicit(start, xs)
    ensures HighestExplicit(start, xs) >= start
    ensures HighestExplicit(start, xs) == start
         || exists x :: x in xs && Explicit(x) == Some(HighestExplicit(start, xs))
  {
    if xs != [] {
      var before, last := xs[..|xs| - 1], xs[|xs| - 1];
      HighestIsAttained(start, before);
      assert xs == before + [last];
      assert last in xs;
    }
  }

  /** Any two deliveries of the same observations agree on the filled quantity. */
  lemma FilledIgnoresOrder(o: Order, xs: seq<Observation>, ys: seq<Observation>)
    requires o.filled >= 0 && (forall x :: x in xs <==> x in ys)
    ensures After(o, xs).filled == After(o, ys).filled
  {
    FilledIsHighestExplicit(o, xs);
    FilledIsHighestExplicit(o, ys);
    HighestIsAttained(o.filled, xs);
    HighestIsAttained(o.filled, ys);
  }

  /** The guard after a re-read has nothing left to do: the projection already carried the prior fill. */
  lemma RefreshGuardIsRedundant(known: Order, remote: Remote)
    requires known.filled >= 0
    ensures Refresh(known, remote) == Project(known, remote)
  {}

  /** A projection closes the books only on a quantity the broker stated. */
  lemma ProjectionFreezesOnlyOnExplicit(known: Order, remote: Remote)
    ensures FreezesAccounting(Project(known, remote).state) ==> ReadQuantity(remote.filledQty).Some?
  {}

  /** A stream update moves an order into a closing state only on a stated quantity. */
  lemma StreamFreezesOnlyOnExplicit(known: Order, u: Update)
    ensures var next := ApplyUpdate(known, u).0;
            FreezesAccounting(next.state) && next.state != known.state ==> ReadQuantity(u.cumulativeQty).Some?
  {}

  /** Over every run, books are closed only if some source stated a quantity. */
  lemma {:induction false} BooksCloseOnlyOnStatedQuantity(quantity: int, xs: seq<Observation>)
    ensures FreezesAccounting(After(FromRequest(quantity), xs).state) ==>
              exists i :: 0 <= i < |xs| && Explicit(xs[i]).Some?
  {
    if xs != [] {
      BooksCloseOnlyOnStatedQuantity(quantity, xs[..|xs| - 1]);
      assert forall i :: 0 <= i < |xs| - 1 ==> xs[..|xs| - 1][i] == xs[i];
    }
  }

  /** Stream updates never take an order out of terminality. */
  lemma {:induction false} StreamsKeepTerminality(o: Order, xs: seq<Observation>)
    requires IsTerminal(o.state) && forall i :: 0 <= i < |xs| ==> xs[i].Stream?
    ensures IsTerminal(After(o, xs).state)
  {
    if xs != [] { StreamsKeepTerminality(o, xs[..|xs| - 1]); }
  }

  /** The labels that end an order, given what is filled of it. */
  predicate EndsOrder(status: Label, filled: int, quantity: int) {
    match status
    case CancelledLabel => true
    case Closed => true
    case RejectedLabel => true
    case PartTraded => filled >= quantity > 0
    case Traded => !(0 < filled < quantity)
    case Expired => !(0 < filled < quantity)
    case Transit => false
    case Pending => false
    case OtherLabel => false
  }

  /** The observation proves an end: it states a quantity, and its label ends an order filled that far. */
  predicate Closes(x: Observation, filled: int, quantity: int) {
    Explicit(x).Some? && EndsOrder(if x.Rest? then x.remote.status else x.update.status, filled, quantity)
  }

  /** After a read an order is terminal exactly when that read proves an end, whatever was known before. */
  lemma ReadKeepsTerminalityIff(known: Order, remote: Remote)
    requires known.filled >= 0
    ensures IsTerminal(Refresh(known, remote).state) <==>
            Closes(Rest(remote), HighestExplicit(known.filled, [Rest(remote)]), known.quantity)
  {
    var xs := [Rest(remote)];
    assert xs[..0] == [];
    assert HighestExplicit(known.filled, xs[..0]) == known.filled;
  }

  /** After a stream update it is terminal exactly when it was before or the update proves an end. */
  lemma StreamTerminalIff(known: Order, u: Update)
    requires known.filled >= 0
    ensures IsTerminal(ApplyUpdate(known, u).0.state) <==>
            IsTerminal(known.state) ||
            Closes(Stream(u), HighestExplicit(known.filled, [Stream(u)]), known.quantity)
  {
    var xs := [Stream(u)];
    assert xs[..0] == [];
    assert HighestExplicit(known.filled, xs[..0]) == known.filled;
  }

  // ---------------------------------------------------------------- which label leads to which state

  /** Something, but not all, is filled. */
  predicate Short(filled: int, quantity: int) { 0 < filled < quantity }

  /** What a read leaves: each state exactly for its labels and fills, given the quantity now proven. */
  lemma ReadStateIs(known: Order, remote: Remote)
    requires known.filled >= 0
    ensures var state := Refresh(known, remote).state;
            var stated := Explicit(Rest(remote)).Some?;
            var f := HighestExplicit(known.filled, [Rest(remote)]);
            var q := known.quantity;
            && (state == Complete <==> stated && ((remote.status == Traded && !Short(f, q))
                                                  || (remote.status == PartTraded && f >= q > 0)))
            && (state == Rejected <==> stated && remote.status == RejectedLabel)
            && (state == Cancelled <==> stated && (remote.status == CancelledLabel || remote.status == Closed
                                                   || (remote.status == Expired && !Short(f, q))))
            && (state == PartiallyFilled <==>
                  stated && ((Short(f, q) && (remote.status == Pending || remote.status == Traded
                                              || remote.status == Expired))
                             || (remote.status == PartTraded && !(f >= q > 0))))
            && (state == Open <==> remote.status == Pending && !Short(f, q))
            && (state == Acknowledged <==> remote.status == Transit)
            && (state == Unknown <==> remote.status == OtherLabel)
            && (state == ReconciliationRequired <==>
                  !stated && remote.status != Transit && remote.status != OtherLabel
                  && (remote.status == Pending ==> Short(f, q)))
  {
    OneHighest(known.filled, Rest(remote));
  }

  lemma OneHighest(start: int, x: Observation)
    ensures HighestExplicit(start, [x]) ==
            if Explicit(x).Some? && Explicit(x).value > start then Explicit(x).value else start
  {
    assert [x][..0] == [];
    assert HighestExplicit(start, [x][..0]) == start;
  }

  /** The end a closing label names. */
  function EndOf(status: Label): OrderState {
    if status == Traded || status == PartTraded then Complete
    else if status == RejectedLabel then Rejected
    else Cancelled
  }

  function StatusOf(x: Observation): Label { if x.Rest? then x.remote.status else x.update.status }

  /**
   What a stream update leaves: the end it proves; else a terminal order stays what it was; else a label
   that claims an end or a part without a quantity changes nothing; else the working state of its label.
   */
  lemma StreamStateIs(known: Order, u: Update)
    requires known.filled >= 0
    ensures var state := ApplyUpdate(known, u).0.state;
            var stated := Explicit(Stream(u)).Some?;
            var f := HighestExplicit(known.filled, [Stream(u)]);
            var q := known.quantity;
            if Closes(Stream(u), f, q) then state == EndOf(u.status)
            else if IsTerminal(known.state) then state == known.state
            else if u.status == Transit then state == Acknowledged
            else if u.status == OtherLabel then state == Unknown
            else if u.status == Pending && !Short(f, q) then state == Open
            else if stated then state == PartiallyFilled
            else state == known.state
  {
    OneHighest(known.filled, Stream(u));
  }

  /** A read that closes an order names the same end. */
  lemma ReadEndIs(known: Order, remote: Remote)
    requires known.filled >= 0
    requires Closes(Rest(remote), HighestExplicit(known.filled, [Rest(remote)]), known.quantity)
    ensures Refresh(known, remote).state == EndOf(remote.status)
  {
    OneHighest(known.filled, Rest(remote));
    ReadStateIs(known, remote);
  }

  predicate ClosesAt(o: Order, xs: seq<Observation>, j: nat)
    requires j < |xs|
  {
    Closes(xs[j], HighestExplicit(o.filled, xs[..j + 1]), o.quantity)
  }

  /** From position k on, every read proves an end. */
  ghost predicate ReadsCloseFrom(o: Order, xs: seq<Observation>, k: nat) {
    forall j :: k <= j < |xs| && xs[j].Rest? ==> ClosesAt(o, xs, j)
  }

  /** The order was terminal at the start, or some observation proved its end, and no later read undid it. */
  ghost predicate EndedAndKept(o: Order, xs: seq<Observation>) {
    || (IsTerminal(o.state) && ReadsCloseFrom(o, xs, 0))
    || exists k :: 0 <= k < |xs| && ClosesAt(o, xs, k) && ReadsCloseFrom(o, xs, k)
  }

  lemma HighestStep(start: int, known: int, x: Observation, before: seq<Observation>)
    requires known == HighestExplicit(start, before)
    ensures HighestExplicit(start, before + [x]) == HighestExplicit(known, [x])
  {
    assert (before + [x])[..|before|] == before;
    assert [x][..0] == [];
    assert HighestExplicit(known, [x][..0]) == known;
  }

  lemma ClosesInPrefix(o: Order, before: seq<Observation>, x: Observation)
    ensures forall j :: 0 <= j < |before| ==> (ClosesAt(o, before + [x], j) <==> ClosesAt(o, before, j))
    ensures forall k :: 0 <= k <= |before| ==>
              (ReadsCloseFrom(o, before + [x], k) <==>
                 ReadsCloseFrom(o, before, k) && (x.Rest? ==> ClosesAt(o, before + [x], |before|)))
  {
    var xs := before + [x];
    forall j | 0 <= j < |before| ensures ClosesAt(o, xs, j) <==> ClosesAt(o, before, j) {
      assert xs[..j + 1] == before[..j + 1] && xs[j] == before[j];
    }
    forall k | 0 <= k <= |before|
      ensures ReadsCloseFrom(o, xs, k) <==>
              ReadsCloseFrom(o, before, k) && (x.Rest? ==> ClosesAt(o, xs, |before|))
    {
      if ReadsCloseFrom(o, xs, k) {
        assert x.Rest? ==> xs[|before|].Rest?;
        forall j | k <= j < |before| && before[j].Rest? ensures ClosesAt(o, before, j) {
          assert xs[j] == before[j];
        }
      }
    }
  }

  lemma EndedAndKeptStep(o: Order, before: seq<Observation>, x: Observation)
    ensures var closes := ClosesAt(o, before + [x], |before|);
            EndedAndKept(o, before + [x]) <==> closes || (EndedAndKept(o, before) && !x.Rest?)
  {
    var xs := before + [x];
    ClosesInPrefix(o, before, x);
    var closes := ClosesAt(o, xs, |before|);
    if closes { assert ReadsCloseFrom(o, xs, |before|); }
    if EndedAndKept(o, before) && !x.Rest? && !(IsTerminal(o.state) && ReadsCloseFrom(o, before, 0)) {
      var k :| 0 <= k < |before| && ClosesAt(o, before, k) && ReadsCloseFrom(o, before, k);
      assert ClosesAt(o, xs, k) && ReadsCloseFrom(o, xs, k);
    }
  }

  /**
   Over every run of reads and stream updates, an order ends up terminal exactly when it was so at the
   start or some observation proved its end, and every read since then proved an end again.
   */
  lemma {:induction false} TerminalIff(o: Order, xs: seq<Observation>)
    requires o.filled >= 0
    ensures IsTerminal(After(o, xs).state) <==> EndedAndKept(o, xs)
  {
    if xs != [] {
      var before, x := xs[..|xs| - 1], xs[|xs| - 1];
      assert xs == before + [x];
      TerminalIff(o, before);
      FilledIsHighestExplicit(o, before);
      var known := After(o, before);
      HighestStep(o.filled, known.filled, x, before);
      EndedAndKeptStep(o, before, x);
      assert xs[..|before| + 1] == xs;
      match x
      case Rest(r) => ReadKeepsTerminalityIff(known, r);
      case Stream(u) => StreamTerminalIff(known, u);
    }
  }

  lemma {:induction false} EndIsLastClosing(o: Order, xs: seq<Observation>, k: nat)
    requires o.filled >= 0 && k < |xs| && ClosesAt(o, xs, k)
    requires forall j :: k < j < |xs| ==> !ClosesAt(o, xs, j)
    ensures IsTerminal(After(o, xs).state) ==> After(o, xs).state == EndOf(StatusOf(xs[k]))
  {
    var before, x := xs[..|xs| - 1], xs[|xs| - 1];
    assert xs == before + [x] && xs[..|before| + 1] == xs;
    var known := After(o, before);
    FilledIsHighestExplicit(o, before);
    HighestStep(o.filled, known.filled, x, before);
    if k == |before| {
      match x
      case Rest(r) => ReadEndIs(known, r);
      case Stream(u) => StreamStateIs(known, u);
    } else {
      ClosesInPrefix(o, before, x);
      EndIsLastClosing(o, before, k);
      assert !ClosesAt(o, xs, |before|);
      match x
      case Rest(r) => ReadKeepsTerminalityIff(known, r);
      case Stream(u) => StreamStateIs(known, u); StreamTerminalIff(known, u);
    }
  }

  // ---------------------------------------------------------------- which price is stored

  function Published(x: Observation): Option<real> {
    ReadPrice(if x.Rest? then x.remote.averagePrice else x.update.averagePrice)
  }

  /** The observation states a quantity and still nothing is filled, so there is no price to keep. */
  predicate ConfirmsNothing(o: Order, xs: seq<Observation>, k: nat)
    requires k < |xs|
  {
    Explicit(xs[k]).Some? && HighestExplicit(o.filled, xs[..k + 1]) == 0
  }

  /** A read always sets the price; an update does if it publishes one and is not behind on the quantity. */
  predicate SetsPrice(o: Order, xs: seq<Observation>, k: nat)
    requires k < |xs|
  {
    || xs[k].Rest?
    || (&& Published(xs[k]).Some? && !ConfirmsNothing(o, xs, k)
        && !(Explicit(xs[k]).Some? && Explicit(xs[k]).value < HighestExplicit(o.filled, xs[..k])))
  }

  function PriceSet(o: Order, xs: seq<Observation>, k: nat): Option<real>
    requires k < |xs|
  {
    if ConfirmsNothing(o, xs, k) then None else Published(xs[k])
  }

  lemma ObservedPrice(known: Order, x: Observation)
    requires known.filled >= 0
    ensures var nothing := Explicit(x).Some? && HighestExplicit(known.filled, [x]) == 0;
            var behind := Explicit(x).Some? && Explicit(x).value < known.filled;
            Observe(known, x).averagePrice ==
              if x.Rest? then (if nothing then None else Published(x))
              else if Published(x).Some? && !nothing && !behind then Published(x)
              else known.averagePrice
  {
    OneHighest(known.filled, x);
  }

  lemma PricesInPrefix(o: Order, before: seq<Observation>, x: Observation, j: nat)
    requires j < |before|
    ensures SetsPrice(o, before + [x], j) <==> SetsPrice(o, before, j)
    ensures PriceSet(o, before + [x], j) == PriceSet(o, before, j)
  {
    var xs := before + [x];
    assert xs[..j + 1] == before[..j + 1] && xs[..j] == before[..j] && xs[j] == before[j];
  }

  /** Over every run the stored average price is the one set last, or the starting one if none was set. */
  lemma {:induction false} PriceIsLastSet(o: Order, xs: seq<Observation>, k: int)
    requires o.filled >= 0 && -1 <= k < |xs| && (k >= 0 ==> SetsPrice(o, xs, k))
    requires forall j :: 0 <= j < |xs| && k < j ==> !SetsPrice(o, xs, j)
    ensures After(o, xs).averagePrice == if k < 0 then o.averagePrice else PriceSet(o, xs, k)
  {
    if xs != [] {
      var before, x := xs[..|xs| - 1], xs[|xs| - 1];
      assert xs == before + [x] && xs[..|before| + 1] == xs && xs[..|before|] == before;
      var known := After(o, before);
      FilledIsHighestExplicit(o, before);
      HighestStep(o.filled, known.filled, x, before);
      ObservedPrice(known, x);
      if k < |before| {
        forall j | 0 <= j < |before| ensures SetsPrice(o, xs, j) <==> SetsPrice(o, before, j) {
          PricesInPrefix(o, before, x, j);
        }
        if k >= 0 { PricesInPrefix(o, before, x, k); }
        PriceIsLastSet(o, before, k);
        assert !SetsPrice(o, xs, |before|);
      }
    }
  }

  // ---------------------------------------------------------------- what else is recorded

  /** A read records the broker's id, what is left, the trades or one aggregate fill, and the quality of it all. */
  lemma ReadRecords(known: Order, remote: Remote)
    requires known.filled >= 0
    ensures var next := Refresh(known, remote);
            && next.brokerOrderId == remote.orderId && next.quantity == known.quantity
            && next.pending == (if remote.remaining.Some? then remote.remaining.value
                                else if next.filled < known.quantity then known.quantity - next.filled else 0)
            && next.fills == (if remote.trades != [] then remote.trades
                              else if next.filled > 0 then [Fill(next.filled, next.averagePrice)] else [])
            && next.evidence.Some? && (next.evidence.value.quantityConfirmed <==> Explicit(Rest(remote)).Some?)
  {}

  /** The recorded price quality: not wanted while a certain order has no fill, else confirmed or missing. */
  lemma ReadPriceQuality(known: Order, remote: Remote)
    requires known.filled >= 0
    ensures var next := Refresh(known, remote);
            next.evidence.Some? && next.evidence.value.price ==
              if next.filled == 0 && next.state != ReconciliationRequired then PriceNotApplicable
              else if Published(Rest(remote)).Some? then PriceConfirmed else PriceMissing
  {}

  /** The verdict's own accounting flag: whatever is proven, unless a stated fill has no price. */
  lemma VerdictAccounting(claimed: OrderState, prior: int, quantity: Option<nat>, price: Option<real>)
    ensures var v := Evaluate(claimed, prior, quantity, price);
            && (v.sufficient <==> quantity.Some? || !FreezesAccounting(claimed))
            && (v.accountingComplete <==> v.sufficient && (quantity.None? || v.filled == 0 || price.Some?))
  {}

  /** The books of a read are closed exactly when its state is certain and any fill has a published price. */
  lemma ReadAccountingIff(known: Order, remote: Remote)
    requires known.filled >= 0
    ensures var next := Refresh(known, remote);
            AccountingComplete(next) <==>
              && next.state != Unknown && next.state != ReconciliationRequired
              && (next.filled == 0 || Published(Rest(remote)).Some?)
  {}

  /** An uncertain state is never final, and without recorded evidence a fill needs a price. */
  lemma AccountingIsCautious(o: Order)
    ensures o.state == Unknown || o.state == ReconciliationRequired ==> !AccountingComplete(o)
    ensures o.evidence.None? && o.state != Unknown && o.state != ReconciliationRequired ==>
              (AccountingComplete(o) <==> o.filled <= 0 || (o.averagePrice.Some? && o.averagePrice.value > 0.0))
  {}

  /** An update that is behind on the quantity and names no new state changes nothing; any other is recorded. */
  lemma StreamRecords(known: Order, u: Update)
    requires known.filled >= 0
    ensures var (next, applied) := ApplyUpdate(known, u);
            var behind := Explicit(Stream(u)).Some? && Explicit(Stream(u)).value < known.filled;
            && (!applied ==> behind && next == known)
            && (applied ==>
                  && next.pending == (if next.filled < known.quantity then known.quantity - next.filled else 0)
                  && next.fills == (if known.fills == [] && next.filled > 0
                                    then [Fill(next.filled, next.averagePrice)] else known.fills)
                  && next.brokerOrderId == (if u.brokerOrderId.Some? then u.brokerOrderId else known.brokerOrderId)
                  && (behind ==> next.state != known.state && next.evidence == known.evidence)
                  && (!behind ==> next.evidence.Some?
                                  && (next.evidence.value.quantityConfirmed <==> Explicit(Stream(u)).Some?)))
  {}

  /** The books of an update that is not behind are closed exactly when it proves something and any fill is priced. */
  lemma StreamAccountingIff(known: Order, u: Update)
    requires known.filled >= 0 && !(Explicit(Stream(u)).Some? && Explicit(Stream(u)).value < known.filled)
    ensures var next := ApplyUpdate(known, u).0;
            var claimsEnd := u.status != Transit && u.status != OtherLabel
                             && (u.status == Pending ==> Short(known.filled, known.quantity));
            AccountingComplete(next) <==>
              && next.state != Unknown && next.state != ReconciliationRequired
              && (Explicit(Stream(u)).Some? || !claimsEnd)
              && (next.filled == 0 || Published(Stream(u)).Some?)
  {}

  /** A REST read can: the projection takes the label at its word. */
  lemma RestCanReopen()
    ensures var o := FromRequest(10).(state := Complete, filled := 10);
            var r := Remote(Pending, Number(10.0), Number(5.0), None, None, []);
            IsTerminal(o.state) && After(o, [Rest(r)]).state == Open && After(o, [Rest(r)]).filled == 10
  {
    var o := FromRequest(10).(state := Complete, filled := 10);
    var r := Remote(Pending, Number(10.0), Number(5.0), None, None, []);
    var xs := [Rest(r)];
    assert xs[..0] == [];
    assert ReadQuantity(Number(10.0)) == Some(10);
    assert After(o, xs) == Observe(After(o, []), Rest(r));
  }

  /**
   A re-read snapshots the order, waits for the broker and then overwrites it. Updates that land in
   between survive exactly when none of them stated more than the snapshot or the answer did.
   */
  lemma OverlappingReadKeepsFillIff(snapshot: Order, landed: seq<Observation>, remote: Remote)
    requires snapshot.filled >= 0
    ensures var before := After(snapshot, landed).filled;
            var written := Refresh(snapshot, remote).filled;
            && written == HighestExplicit(snapshot.filled, [Rest(remote)])
            && (before <= written <==>
                  forall x :: x in landed && Explicit(x).Some? ==>
                    Explicit(x).value <= HighestExplicit(snapshot.filled, [Rest(remote)]))
  {
    FilledIsHighestExplicit(snapshot, landed);
    HighestIsAttained(snapshot.filled, landed);
    var one := [Rest(remote)];
    assert one[..0] == [];
    FilledIsHighestExplicit(snapshot, one);
    HighestIsAttained(snapshot.filled, one);
    assert After(snapshot, one) == Observe(After(snapshot, one[..0]), one[0]);
  }

  /** Five filled by a stream update, overwritten by an older answer of three. */
  lemma OverlappingReadCanRewind()
    ensures var o := FromRequest(10);
            var landed := [Stream(Update(PartTraded, Number(5.0), Number(7.0), None))];
            var late := Remote(PartTraded, Number(3.0), Number(7.0), None, None, []);
            After(o, landed).filled == 5 && Refresh(o, late).filled == 3
  {
    var o := FromRequest(10);
    var landed := [Stream(Update(PartTraded, Number(5.0), Number(7.0), None))];
    assert landed[..0] == [];
    assert ReadQuantity(Number(5.0)) == Some(5) && ReadQuantity(Number(3.0)) == Some(3);
    assert After(o, landed) == Observe(After(o, []), landed[0]);
  }

  /** Filled exposure whose books are called complete has a price and a fill record. */
  ghost predicate Honest(o: Order) {
    && o.filled >= 0
    && (o.evidence.None? ==> o.filled == 0)
    && (o.filled > 0 ==> o.fills != [])
    && (o.filled > 0 && AccountingComplete(o) ==> o.averagePrice.Some?)
    && (o.filled > 0 && o.evidence.value.accounting == BooksComplete ==> o.averagePrice.Some?)
  }

  /** Over every run of observations a positive fill is never accounted complete without a price. */
  lemma {:induction false} UnpricedFillNeverComplete(quantity: int, xs: seq<Observation>)
    ensures var o := After(FromRequest(quantity), xs);
            && Honest(o)
            && (o.filled > 0 && o.averagePrice.None? ==> !AccountingComplete(o))
  {
    if xs != [] { UnpricedFillNeverComplete(quantity, xs[..|xs| - 1]); }
  }

  /** The same for one read, whatever was known before: no published price, no closed books. */
  lemma UnpricedReadNeverComplete(known: Order, remote: Remote)
    ensures var p := Project(known, remote);
            p.filled > 0 && ReadPrice(remote.averagePrice).None? ==> !AccountingComplete(p)
  {}
}
