/**
 The versioned residual row of one execution attempt, the immutable commands that update it by
 compare-and-set, and what every run of such commands leaves behind.

 Money is integer paise. A digest is represented by the value that is hashed, which is what an
 injective hash means; text fields of a leg are interned as numbers.
 */
module ResidualProjection {
  import opened Common

  const MAX_APPLICATION_IDS := 32
  const MAX_SAFE_INTEGER := 9007199254740991
  const NFO := 0
  const UNATTRIBUTED := "unattributed"

  datatype Leg = Leg(
    role: int, token: int, symbol: int, exchange: Option<int>, side: int,
    quantity: int, averagePrice: int, source: int, createdAt: int, flattenAttempt: Option<int>)

  // ---------------------------------------------------------------- content identity of a residual

  type Key = seq<int>
  type Identity = seq<Key>

  /** The canonical rendering of a leg: fixed field order, with the two legacy defaults filled in. */
  function CanonicalKey(leg: Leg): Key {
    [leg.role, leg.token, leg.symbol, leg.exchange.GetOr(NFO), leg.side,
     leg.quantity, leg.averagePrice, leg.source, leg.createdAt, leg.flattenAttempt.GetOr(1)]
  }

  function CanonicalKeys(legs: seq<Leg>): seq<Key> {
    seq(|legs|, i requires 0 <= i < |legs| => CanonicalKey(legs[i]))
  }

  predicate KeyLeq(a: Key, b: Key) {
    a == [] || (b != [] && (a[0] < b[0] || (a[0] == b[0] && KeyLeq(a[1..], b[1..]))))
  }

  function Insert(k: Key, keys: seq<Key>): seq<Key> {
    if keys == [] || KeyLeq(k, keys[0]) then [k] + keys
    else [keys[0]] + Insert(k, keys[1..])
  }

  function SortKeys(keys: seq<Key>): seq<Key> {
    if keys == [] then [] else Insert(keys[0], SortKeys(keys[1..]))
  }

  function ResidualIdentity(legs: seq<Leg>): Identity { SortKeys(CanonicalKeys(legs)) }

  ghost predicate Sorted(keys: seq<Key>) {
    forall i, j :: 0 <= i < j < |keys| ==> KeyLeq(keys[i], keys[j])
  }

  lemma KeyLeqTotal(a: Key, b: Key)
    ensures KeyLeq(a, b) || KeyLeq(b, a)
  {}

  lemma KeyLeqAntisymmetric(a: Key, b: Key)
    requires KeyLeq(a, b) && KeyLeq(b, a)
    ensures a == b
  {
    if a != [] {
      KeyLeqAntisymmetric(a[1..], b[1..]);
      assert a == [a[0]] + a[1..] && b == [b[0]] + b[1..];
    }
  }

  lemma KeyLeqTransitive(a: Key, b: Key, c: Key)
    requires KeyLeq(a, b) && KeyLeq(b, c)
    ensures KeyLeq(a, c)
  {}

  lemma {:induction false} InsertContents(k: Key, keys: seq<Key>)
    ensures multiset(Insert(k, keys)) == multiset(keys) + multiset{k}
  {
    if keys != [] && !KeyLeq(k, keys[0]) {
      InsertContents(k, keys[1..]);
      assert keys == [keys[0]] + keys[1..];
    }
  }

  lemma {:induction false} SortKeysContents(keys: seq<Key>)
    ensures multiset(SortKeys(keys)) == multiset(keys)
  {
    if keys != [] {
      SortKeysContents(keys[1..]);
      InsertContents(keys[0], SortKeys(keys[1..]));
      assert keys == [keys[0]] + keys[1..];
    }
  }

  lemma {:induction false} InsertSorted(k: Key, keys: seq<Key>)
    requires Sorted(keys)
    ensures Sorted(Insert(k, keys))
  {
    if keys == [] {
    } else if KeyLeq(k, keys[0]) {
      forall j | 0 <= j < |keys| ensures KeyLeq(k, keys[j]) {
        if j > 0 { KeyLeqTransitive(k, keys[0], keys[j]); }
      }
    } else {
      var tail := Insert(k, keys[1..]);
      InsertSorted(k, keys[1..]);
      InsertContents(k, keys[1..]);
      KeyLeqTotal(k, keys[0]);
      forall j | 0 <= j < |tail| ensures KeyLeq(keys[0], tail[j]) {
        assert tail[j] in multiset(tail);
        assert tail[j] == k || tail[j] in keys[1..];
      }
    }
  }

  lemma {:induction false} SortKeysSorted(keys: seq<Key>)
    ensures Sorted(SortKeys(keys))
  {
    if keys != [] {
      SortKeysSorted(keys[1..]);
      InsertSorted(keys[0], SortKeys(keys[1..]));
    }
  }

  /** A sorted sequence is determined by its contents. */
  lemma {:induction false} SortedIsCanonical(a: seq<Key>, b: seq<Key>)
    requires Sorted(a) && Sorted(b) && multiset(a) == multiset(b)
    ensures a == b
  {
    SameSize(a, b);
    if a != [] {
      HeadIsLeast(a, b);
      HeadIsLeast(b, a);
      KeyLeqAntisymmetric(a[0], b[0]);
      TailsMatch(a, b);
      SortedIsCanonical(a[1..], b[1..]);
      assert a == [a[0]] + a[1..] && b == [b[0]] + b[1..];
    }
  }

  lemma SameSize(a: seq<Key>, b: seq<Key>)
    requires multiset(a) == multiset(b)
    ensures |a| == |b|
  {
    assert |a| == |multiset(a)| == |multiset(b)| == |b|;
  }

  lemma TailContents(a: seq<Key>)
    requires a != []
    ensures multiset(a[1..]) == multiset(a) - multiset{a[0]}
  {
    assert a == [a[0]] + a[1..];
  }

  lemma TailsMatch(a: seq<Key>, b: seq<Key>)
    requires a != [] && b != [] && Sorted(a) && Sorted(b) && multiset(a) == multiset(b) && a[0] == b[0]
    ensures Sorted(a[1..]) && Sorted(b[1..]) && multiset(a[1..]) == multiset(b[1..])
  {
    TailContents(a);
    TailContents(b);
  }

  lemma HeadIsLeast(a: seq<Key>, b: seq<Key>)
    requires a != [] && b != [] && Sorted(a) && multiset(a) == multiset(b)
    ensures KeyLeq(a[0], b[0])
  {
    assert b[0] in multiset(a);
    var j :| 0 <= j < |a| && a[j] == b[0];
    KeyLeqTotal(a[0], a[0]);
  }

  /** A leg with the two legacy defaults written out: the NFO exchange and the first flatten attempt. */
  function Normalized(leg: Leg): Leg {
    leg.(exchange := Some(if leg.exchange.Some? then leg.exchange.value else NFO),
         flattenAttempt := Some(if leg.flattenAttempt.Some? then leg.flattenAttempt.value else 1))
  }

  function NormalizedLegs(legs: seq<Leg>): seq<Leg> {
    seq(|legs|, i requires 0 <= i < |legs| => Normalized(legs[i]))
  }

  /** The rendering loses nothing: equal keys mean equal legs, field by field, up to the two defaults. */
  lemma KeyTellsLeg(a: Leg, b: Leg)
    ensures CanonicalKey(a) == CanonicalKey(b) <==> Normalized(a) == Normalized(b)
  {
    var ka, kb := CanonicalKey(a), CanonicalKey(b);
    if ka == kb {
      assert forall i :: 0 <= i < 10 ==> ka[i] == kb[i];
      assert ka[0] == kb[0] && ka[1] == kb[1] && ka[2] == kb[2] && ka[3] == kb[3] && ka[4] == kb[4];
      assert ka[5] == kb[5] && ka[6] == kb[6] && ka[7] == kb[7] && ka[8] == kb[8] && ka[9] == kb[9];
    }
  }

  lemma {:induction false} KeysCountLegs(legs: seq<Leg>, leg: Leg)
    ensures multiset(CanonicalKeys(legs))[CanonicalKey(leg)] == multiset(NormalizedLegs(legs))[Normalized(leg)]
  {
    if legs != [] {
      var before, last := legs[..|legs| - 1], legs[|legs| - 1];
      KeysCountLegs(before, leg);
      KeyTellsLeg(last, leg);
      assert CanonicalKeys(legs) == CanonicalKeys(before) + [CanonicalKey(last)];
      assert NormalizedLegs(legs) == NormalizedLegs(before) + [Normalized(last)];
    }
  }

  lemma SameKeysSameLegs(a: seq<Leg>, b: seq<Leg>)
    requires multiset(CanonicalKeys(a)) == multiset(CanonicalKeys(b))
    ensures multiset(NormalizedLegs(a)) <= multiset(NormalizedLegs(b))
  {
    forall n | n in multiset(NormalizedLegs(a))
      ensures multiset(NormalizedLegs(a))[n] <= multiset(NormalizedLegs(b))[n]
    {
      var i :| 0 <= i < |a| && NormalizedLegs(a)[i] == n;
      KeysCountLegs(a, a[i]);
      KeysCountLegs(b, a[i]);
    }
  }

  lemma SameLegsSameKeys(a: seq<Leg>, b: seq<Leg>)
    requires multiset(NormalizedLegs(a)) == multiset(NormalizedLegs(b))
    ensures multiset(CanonicalKeys(a)) <= multiset(CanonicalKeys(b))
  {
    forall k | k in multiset(CanonicalKeys(a))
      ensures multiset(CanonicalKeys(a))[k] <= multiset(CanonicalKeys(b))[k]
    {
      var i :| 0 <= i < |a| && CanonicalKeys(a)[i] == k;
      KeysCountLegs(a, a[i]);
      KeysCountLegs(b, a[i]);
    }
  }

  lemma SameKeysIffSameLegs(a: seq<Leg>, b: seq<Leg>)
    ensures multiset(CanonicalKeys(a)) == multiset(CanonicalKeys(b))
       <==> multiset(NormalizedLegs(a)) == multiset(NormalizedLegs(b))
  {
    if multiset(CanonicalKeys(a)) == multiset(CanonicalKeys(b)) {
      SameKeysSameLegs(a, b);
      SameKeysSameLegs(b, a);
    }
    if multiset(NormalizedLegs(a)) == multiset(NormalizedLegs(b)) {
      SameLegsSameKeys(a, b);
      SameLegsSameKeys(b, a);
    }
  }

  /** The same legs in any order, up to the two defaults. */
  ghost predicate SameLegs(a: seq<Leg>, b: seq<Leg>) {
    multiset(NormalizedLegs(a)) == multiset(NormalizedLegs(b))
  }

  /** Two residuals have the same identity exactly when they hold the same legs in any order. */
  lemma IdentityIffSameLegs(a: seq<Leg>, b: seq<Leg>)
    ensures ResidualIdentity(a) == ResidualIdentity(b) <==> SameLegs(a, b)
  {
    SameKeysIffSameLegs(a, b);
    SortKeysSorted(CanonicalKeys(a));
    SortKeysSorted(CanonicalKeys(b));
    SortKeysContents(CanonicalKeys(a));
    SortKeysContents(CanonicalKeys(b));
    if multiset(CanonicalKeys(a)) == multiset(CanonicalKeys(b)) {
      SortedIsCanonical(ResidualIdentity(a), ResidualIdentity(b));
    }
  }

  // ---------------------------------------------------------------- commands

  datatype ApplicationId = ApplicationId(
    attempt: string, expectedVersion: int, expectedIdentity: Identity,
    nextIdentity: Identity, chargeDelta: int, chargeDay: string)

  datatype Command = Command(
    applicationId: ApplicationId, expectedVersion: int, expectedIdentity: Identity,
    expectedResidual: seq<Leg>, nextIdentity: Identity, residual: seq<Leg>,
    chargeDelta: int, chargeDay: string)

  /** Rupees to paise, half up. */
  function RoundPaise(rupees: real): int { (rupees * 100.0 + 0.5).Floor }

  /** No other whole number of paise is nearer; a half goes up. */
  predicate IsNearestPaise(paise: int, rupees: real) {
    paise as real - 0.5 <= rupees * 100.0 < paise as real + 0.5
  }

  predicate IsDigit(c: char) { '0' <= c <= '9' }

  predicate IsIsoDay(day: string) {
    |day| == 10 && day[4] == '-' && day[7] == '-' &&
    forall i :: 0 <= i < 10 && i != 4 && i != 7 ==> IsDigit(day[i])
  }

  function UsableVersion(version: Option<int>): nat {
    if version.Some? && 0 <= version.value <= MAX_SAFE_INTEGER then version.value else 0
  }

  /** The immutable command. `chargeDelta` is rupees, absent when not finite. */
  function CreateCommand(attempt: string, expectedVersion: int, expectedResidual: seq<Leg>,
                         nextResidual: seq<Leg>, chargeDelta: Option<real>, chargeDay: string): (c: Command)
    ensures Built(c)
    ensures c.expectedResidual == expectedResidual && c.residual == nextResidual
    ensures c.expectedVersion == if 0 <= expectedVersion <= MAX_SAFE_INTEGER then expectedVersion else 0
    ensures if chargeDelta.Some? && chargeDelta.value > 0.0 then IsNearestPaise(c.chargeDelta, chargeDelta.value)
            else c.chargeDelta == 0
    ensures c.chargeDay == if IsIsoDay(chargeDay) then chargeDay else "unattributed"
    ensures c.applicationId.attempt == attempt && c.applicationId.chargeDelta == c.chargeDelta
    ensures c.applicationId.chargeDay == c.chargeDay && c.applicationId.expectedVersion == c.expectedVersion
    ensures c.applicationId.expectedIdentity == c.expectedIdentity && c.applicationId.nextIdentity == c.nextIdentity
  {
    var version := UsableVersion(Some(expectedVersion));
    var expectedIdentity := ResidualIdentity(expectedResidual);
    var nextIdentity := ResidualIdentity(nextResidual);
    var delta := if chargeDelta.Some? && chargeDelta.value > 0.0 then RoundPaise(chargeDelta.value) else 0;
    var day := if IsIsoDay(chargeDay) then chargeDay else UNATTRIBUTED;
    Command(ApplicationId(attempt, version, expectedIdentity, nextIdentity, delta, day),
            version, expectedIdentity, expectedResidual, nextIdentity, nextResidual, delta, day)
  }

  /** What every command a process can send satisfies, first try or retry. */
  ghost predicate Built(c: Command) {
    && c.applicationId.expectedVersion == c.expectedVersion
    && 0 <= c.expectedVersion <= MAX_SAFE_INTEGER
    && c.expectedIdentity == ResidualIdentity(c.expectedResidual)
    && c.nextIdentity == ResidualIdentity(c.residual)
    && c.chargeDelta >= 0
    && c.chargeDay != ""
  }

  // ---------------------------------------------------------------- the compare-and-set

  datatype Snapshot = Snapshot(
    version: Option<int>, identity: Option<Identity>, residual: Option<seq<Leg>>,
    charges: Option<int>, chargeDay: Option<string>, dayCharges: Option<int>,
    applications: Option<seq<ApplicationId>>, resolved: bool)

  datatype Status = Applied | AlreadyApplied | Stale | NotFound

  datatype Result = Result(
    status: Status, version: Option<int>, identity: Option<Identity>, residual: Option<seq<Leg>>,
    charges: Option<int>, chargeDay: Option<string>, dayCharges: Option<int>)

  function Version(s: Snapshot): nat { UsableVersion(s.version) }
  function Residual(s: Snapshot): seq<Leg> { s.residual.GetOr([]) }
  function StoredIdentity(s: Snapshot): Identity {
    if s.identity.Some? then s.identity.value else ResidualIdentity(Residual(s))
  }
  function Ring(s: Snapshot): seq<ApplicationId> { s.applications.GetOr([]) }
  function Lifetime(s: Snapshot): nat { AtLeastZero(s.charges.GetOr(0)) }
  function DayTotal(s: Snapshot): nat { AtLeastZero(s.dayCharges.GetOr(0)) }

  function Last32<T>(xs: seq<T>): seq<T> {
    if |xs| <= MAX_APPLICATION_IDS then xs else xs[|xs| - MAX_APPLICATION_IDS..]
  }

  function Report(status: Status, row: Option<Snapshot>): Result {
    match row
    case None => Result(status, None, None, None, None, None, None)
    case Some(s) =>
      Result(status, Some(Version(s)), Some(StoredIdentity(s)), Some(Residual(s)),
             Some(Lifetime(s)), s.chargeDay, Some(DayTotal(s)))
  }

  /** The answer a stored row gives to a command. */
  function Verdict(s: Snapshot, c: Command): Status {
    if c.applicationId in Ring(s) then AlreadyApplied
    else if Version(s) != c.expectedVersion || StoredIdentity(s) != c.expectedIdentity then Stale
    else Applied
  }

  function Step(s: Snapshot, c: Command): Snapshot {
    if Verdict(s, c) != Applied then s else
    Snapshot(
      Some(Version(s) + 1),
      Some(c.nextIdentity),
      Some(c.residual),
      Some(Lifetime(s) + c.chargeDelta),
      if c.chargeDelta > 0 then Some(c.chargeDay) else s.chargeDay,
      Some(if c.chargeDelta > 0
           then (if s.chargeDay == Some(c.chargeDay) then DayTotal(s) else 0) + c.chargeDelta
           else s.dayCharges.GetOr(0)),
      Some(Last32(Ring(s) + [c.applicationId])),
      |c.residual| == 0)
  }

  function Transition(row: Option<Snapshot>, c: Command): (Result, Option<Snapshot>) {
    match row
    case None => (Report(NotFound, None), None)
    case Some(s) => (Report(Verdict(s, c), Some(Step(s, c))), Some(Step(s, c)))
  }

  /** A command lands exactly when its version is current and it names the stored legs in some order. */
  lemma AppliesIffExpectationHolds(s: Snapshot, c: Command)
    requires Built(c) && IdentityMatches(s) && c.applicationId !in Ring(s)
    ensures Verdict(s, c) == Applied <==>
            && Version(s) == c.expectedVersion
            && SameLegs(Residual(s), c.expectedResidual)
  {
    IdentityIffSameLegs(Residual(s), c.expectedResidual);
  }

  // ---------------------------------------------------------------- runs

  /** The row after a sequence of commands: any commands, any order, any repeats. */
  function After(s: Snapshot, cmds: seq<Command>): Snapshot {
    if cmds == [] then s
    else Step(After(s, cmds[..|cmds| - 1]), cmds[|cmds| - 1])
  }

  /** The commands of a run that were applied, in order. */
  function Winners(s: Snapshot, cmds: seq<Command>): seq<Command> {
    if cmds == [] then []
    else
      var before := cmds[..|cmds| - 1];
      var last := cmds[|cmds| - 1];
      if Verdict(After(s, before), last) == Applied then Winners(s, before) + [last] else Winners(s, before)
  }

  function TotalDelta(ws: seq<Command>): int {
    if ws == [] then 0 else TotalDelta(ws[..|ws| - 1]) + ws[|ws| - 1].chargeDelta
  }

  function Ids(ws: seq<Command>): seq<ApplicationId> {
    seq(|ws|, i requires 0 <= i < |ws| => ws[i].applicationId)
  }

  predicate AppliedAt(s: Snapshot, cmds: seq<Command>, i: nat)
    requires i < |cmds|
  {
    Verdict(After(s, cmds[..i]), cmds[i]) == Applied
  }

  ghost predicate AllBuilt(cmds: seq<Command>) { forall i :: 0 <= i < |cmds| ==> Built(cmds[i]) }

  ghost predicate IdentityMatches(s: Snapshot) { StoredIdentity(s) == ResidualIdentity(Residual(s)) }

  /** Room for one version per winner before the counter leaves the safe integers. */
  ghost predicate VersionRoom(s: Snapshot, cmds: seq<Command>) {
    Version(s) + |Winners(s, cmds)| <= MAX_SAFE_INTEGER
  }

  lemma {:induction false} WinnersWereSent(s: Snapshot, cmds: seq<Command>)
    requires AllBuilt(cmds)
    ensures AllBuilt(Winners(s, cmds)) && |Winners(s, cmds)| <= |cmds|
  {
    if cmds != [] { WinnersWereSent(s, cmds[..|cmds| - 1]); }
  }

  lemma {:induction false} WinnerVersions(s: Snapshot, cmds: seq<Command>)
    requires AllBuilt(cmds) && VersionRoom(s, cmds)
    ensures forall k :: 0 <= k < |Winners(s, cmds)| ==> Winners(s, cmds)[k].expectedVersion == Version(s) + k
    ensures Version(After(s, cmds)) == Version(s) + |Winners(s, cmds)|
  {
    if cmds != [] { WinnerVersions(s, cmds[..|cmds| - 1]); }
  }

  lemma {:induction false} WinnerCharges(s: Snapshot, cmds: seq<Command>)
    requires AllBuilt(cmds)
    ensures Lifetime(After(s, cmds)) == Lifetime(s) + TotalDelta(Winners(s, cmds))
  {
    if cmds != [] {
      WinnerCharges(s, cmds[..|cmds| - 1]);
      TotalDeltaAppend(Winners(s, cmds[..|cmds| - 1]), cmds[|cmds| - 1]);
    }
  }

  lemma TotalDeltaAppend(ws: seq<Command>, c: Command)
    ensures TotalDelta(ws + [c]) == TotalDelta(ws) + c.chargeDelta
  {
    assert (ws + [c])[..|ws|] == ws;
  }

  /**
   The whole-run law: the winners carry consecutive versions from the starting one, so no version has
   two winners; the version grew by their number; and the lifetime charges by their deltas.
   */
  lemma RunLaw(s: Snapshot, cmds: seq<Command>)
    requires AllBuilt(cmds) && VersionRoom(s, cmds)
    ensures AllBuilt(Winners(s, cmds)) && |Winners(s, cmds)| <= |cmds|
    ensures forall k :: 0 <= k < |Winners(s, cmds)| ==> Winners(s, cmds)[k].expectedVersion == Version(s) + k
    ensures Version(After(s, cmds)) == Version(s) + |Winners(s, cmds)|
    ensures Lifetime(After(s, cmds)) == Lifetime(s) + TotalDelta(Winners(s, cmds))
  {
    WinnersWereSent(s, cmds);
    WinnerVersions(s, cmds);
    WinnerCharges(s, cmds);
  }

  /** The row shows the last winner's legs, and is resolved exactly when those are none. */
  lemma {:induction false} LastWinnerStands(s: Snapshot, cmds: seq<Command>)
    requires Winners(s, cmds) != []
    ensures var last := Winners(s, cmds)[|Winners(s, cmds)| - 1];
            && Residual(After(s, cmds)) == last.residual
            && StoredIdentity(After(s, cmds)) == last.nextIdentity
            && (After(s, cmds).resolved <==> Residual(After(s, cmds)) == [])
  {
    var before := cmds[..|cmds| - 1];
    if Verdict(After(s, before), cmds[|cmds| - 1]) != Applied { LastWinnerStands(s, before); }
  }

  lemma {:induction false} WinnersOfPrefix(s: Snapshot, cmds: seq<Command>, i: nat)
    requires i <= |cmds|
    ensures |Winners(s, cmds[..i])| <= |Winners(s, cmds)|
    ensures Winners(s, cmds[..i]) == Winners(s, cmds)[..|Winners(s, cmds[..i])|]
  {
    if i == |cmds| {
      assert cmds[..i] == cmds;
    } else {
      var before := cmds[..|cmds| - 1];
      WinnersOfPrefix(s, before, i);
      assert before[..i] == cmds[..i];
    }
  }

  /** An applied command is the winner that comes right after the winners of the commands before it. */
  lemma WinnerRank(s: Snapshot, cmds: seq<Command>, i: nat)
    requires i < |cmds| && AppliedAt(s, cmds, i)
    ensures |Winners(s, cmds[..i])| < |Winners(s, cmds)|
    ensures Winners(s, cmds)[|Winners(s, cmds[..i])|] == cmds[i]
  {
    assert cmds[..i + 1][..i] == cmds[..i];
    WinnersOfPrefix(s, cmds, i + 1);
    assert Winners(s, cmds[..i + 1]) == Winners(s, cmds[..i]) + [cmds[i]];
  }

  lemma RanksGrow(s: Snapshot, cmds: seq<Command>, i: nat, j: nat)
    requires i < j <= |cmds| && AppliedAt(s, cmds, i)
    ensures |Winners(s, cmds[..i])| < |Winners(s, cmds[..j])|
  {
    assert cmds[..j][..i] == cmds[..i] && cmds[..j][i] == cmds[i];
    WinnerRank(s, cmds[..j], i);
  }

  /** No command is ever applied twice, however long ago its id left the ring. */
  lemma AppliedAtMostOnce(s: Snapshot, cmds: seq<Command>, i: nat, j: nat)
    requires AllBuilt(cmds) && VersionRoom(s, cmds)
    requires i < j < |cmds| && AppliedAt(s, cmds, i) && AppliedAt(s, cmds, j)
    ensures cmds[i].expectedVersion < cmds[j].expectedVersion
    ensures cmds[i] != cmds[j] && cmds[i].applicationId != cmds[j].applicationId
  {
    RunLaw(s, cmds);
    WinnerRank(s, cmds, i);
    WinnerRank(s, cmds, j);
    RanksGrow(s, cmds, i, j);
    assert Built(cmds[i]) && Built(cmds[j]);
  }

  /** The ring holds the ids of the last 32 applied commands. */
  lemma {:induction false} RingLaw(s: Snapshot, cmds: seq<Command>)
    ensures RingIs(Ring(s), Winners(s, cmds), Ring(After(s, cmds)))
  {
    if cmds != [] {
      var before := cmds[..|cmds| - 1];
      var last := cmds[|cmds| - 1];
      RingLaw(s, before);
      RingStep(Ring(s), Winners(s, before), last, Ring(After(s, before)));
    }
  }

  ghost predicate RingIs(start: seq<ApplicationId>, ws: seq<Command>, ring: seq<ApplicationId>) {
    ring == if ws == [] then start else Last32(start + Ids(ws))
  }

  lemma LastTwice<T>(xs: seq<T>, x: T)
    ensures Last32(Last32(xs) + [x]) == Last32(xs + [x])
  {}

  lemma IdsAppend(start: seq<ApplicationId>, ws: seq<Command>, last: Command)
    ensures start + Ids(ws + [last]) == (start + Ids(ws)) + [last.applicationId]
  {
    assert Ids(ws + [last]) == Ids(ws) + [last.applicationId];
  }

  lemma RingStep(start: seq<ApplicationId>, ws: seq<Command>, last: Command, ring: seq<ApplicationId>)
    requires RingIs(start, ws, ring)
    ensures RingIs(start, ws + [last], Last32(ring + [last.applicationId]))
  {
    IdsAppend(start, ws, last);
    if ws == [] {
      assert start + Ids(ws) == start;
    } else {
      LastTwice(start + Ids(ws), last.applicationId);
    }
  }

  lemma RingMembership(start: seq<ApplicationId>, ws: seq<Command>, ring: seq<ApplicationId>, rank: nat)
    requires rank < |ws| && RingIs(start, ws, ring)
    requires forall k :: rank < k < |ws| ==> ws[k].applicationId != ws[rank].applicationId
    ensures ws[rank].applicationId in ring <==> |ws| - rank - 1 < MAX_APPLICATION_IDS
  {
    var all := start + Ids(ws);
    var dropped := |all| - |ring|;
    assert all[|start| + rank] == ws[rank].applicationId;
    if |ws| - rank - 1 < MAX_APPLICATION_IDS {
      assert ring[|start| + rank - dropped] == ws[rank].applicationId;
    } else {
      forall k | 0 <= k < |ring| ensures ring[k] != ws[rank].applicationId {
        assert ring[k] == all[dropped + k] == ws[dropped + k - |start|].applicationId;
      }
    }
  }

  /**
   What a retry of an applied command is told: "already applied" while fewer than 32 later commands
   have landed, "stale" ever after; and it never changes the row.
   */
  lemma RetryAnswer(s: Snapshot, cmds: seq<Command>, i: nat)
    requires AllBuilt(cmds) && VersionRoom(s, cmds)
    requires i < |cmds| && AppliedAt(s, cmds, i)
    ensures var later := |Winners(s, cmds)| - |Winners(s, cmds[..i])| - 1;
            && 0 <= later
            && Verdict(After(s, cmds), cmds[i]) == (if later < 32 then AlreadyApplied else Stale)
            && Step(After(s, cmds), cmds[i]) == After(s, cmds)
  {
    RunLaw(s, cmds);
    WinnerRank(s, cmds, i);
    RingLaw(s, cmds);
    var ws := Winners(s, cmds);
    var rank := |Winners(s, cmds[..i])|;
    forall k | rank < k < |ws| ensures ws[k].applicationId != ws[rank].applicationId {
      assert Built(ws[k]) && Built(ws[rank]);
    }
    RingMembership(Ring(s), ws, Ring(After(s, cmds)), rank);
  }

  /** The stored identity stays the identity of the stored legs. */
  lemma {:induction false} IdentityAlwaysMatches(s: Snapshot, cmds: seq<Command>)
    requires AllBuilt(cmds) && IdentityMatches(s)
    ensures IdentityMatches(After(s, cmds))
  {
    if cmds != [] { IdentityAlwaysMatches(s, cmds[..|cmds| - 1]); }
  }

  /** The latest-day bucket never exceeds the lifetime total. */
  lemma {:induction false} DayTotalWithinLifetime(s: Snapshot, cmds: seq<Command>)
    requires AllBuilt(cmds) && DayTotal(s) <= Lifetime(s)
    ensures DayTotal(After(s, cmds)) <= Lifetime(After(s, cmds))
  {
    if cmds != [] { DayTotalWithinLifetime(s, cmds[..|cmds| - 1]); }
  }

  /** The ids still in the ring belong to earlier versions. */
  ghost predicate RingIsPast(s: Snapshot) {
    forall i :: 0 <= i < |Ring(s)| ==> Ring(s)[i].expectedVersion < Version(s)
  }

  lemma {:induction false} RingStaysPast(s: Snapshot, cmds: seq<Command>)
    requires AllBuilt(cmds) && RingIsPast(s) && VersionRoom(s, cmds)
    ensures RingIsPast(After(s, cmds))
  {
    if cmds != [] {
      var before, last := cmds[..|cmds| - 1], cmds[|cmds| - 1];
      RingStaysPast(s, before);
      RunLaw(s, before);
      assert Built(last);
      PastStep(After(s, before), last);
    }
  }

  lemma LastArePast(ring: seq<ApplicationId>, version: int)
    requires forall i :: 0 <= i < |ring| ==> ring[i].expectedVersion < version
    ensures forall i :: 0 <= i < |Last32(ring)| ==> Last32(ring)[i].expectedVersion < version
  {}

  lemma PastStep(s: Snapshot, c: Command)
    requires Built(c) && RingIsPast(s) && (Verdict(s, c) == Applied ==> Version(s) < MAX_SAFE_INTEGER)
    ensures RingIsPast(Step(s, c))
  {
    if Verdict(s, c) == Applied {
      var ring := Ring(s) + [c.applicationId];
      assert forall i :: 0 <= i < |ring| ==> ring[i].expectedVersion <= Version(s);
      LastArePast(ring, Version(s) + 1);
    }
  }

  /**
   End to end: at any point of any run, a command created for the current version and the stored legs,
   in any order, lands. It leaves exactly the next legs and charges the nearest paise.
   */
  lemma CreatedCommandLands(s: Snapshot, cmds: seq<Command>, attempt: string, expected: seq<Leg>, next: seq<Leg>,
                            charge: Option<real>, day: string)
    requires AllBuilt(cmds) && RingIsPast(s) && VersionRoom(s, cmds) && IdentityMatches(s)
    requires Version(After(s, cmds)) < MAX_SAFE_INTEGER && SameLegs(Residual(After(s, cmds)), expected)
    ensures var row := After(s, cmds);
            var c := CreateCommand(attempt, Version(row), expected, next, charge, day);
            var left := Step(row, c);
            && Verdict(row, c) == Applied && Residual(left) == next && (left.resolved <==> next == [])
            && Version(left) == Version(row) + 1
            && (if charge.Some? && charge.value > 0.0
                then IsNearestPaise(Lifetime(left) - Lifetime(row), charge.value)
                else Lifetime(left) == Lifetime(row))
  {
    RingStaysPast(s, cmds);
    IdentityAlwaysMatches(s, cmds);
    var row := After(s, cmds);
    var c := CreateCommand(attempt, Version(row), expected, next, charge, day);
    assert c.applicationId !in Ring(row);
    AppliesIffExpectationHolds(row, c);
  }

  /** Every answer shows the row: its version, legs and charges, a missing figure as zero, and its day as stored. */
  lemma ReportShowsRow(status: Status, s: Snapshot)
    ensures var r := Report(status, Some(s));
            && r.status == status && r.chargeDay == s.chargeDay
            && r.residual == Some(if s.residual.Some? then s.residual.value else [])
            && (s.version.Some? && 0 <= s.version.value <= MAX_SAFE_INTEGER ==> r.version == s.version)
            && (s.identity.Some? ==> r.identity == s.identity)
            && (s.identity.None? ==> r.identity == Some(ResidualIdentity(Residual(s))))
            && (s.charges.Some? && s.charges.value >= 0 ==> r.charges == s.charges)
            && (s.charges.None? || s.charges.value < 0 ==> r.charges == Some(0))
            && (s.dayCharges.Some? && s.dayCharges.value >= 0 ==> r.dayCharges == s.dayCharges)
            && (s.dayCharges.None? || s.dayCharges.value < 0 ==> r.dayCharges == Some(0))
  {}

  // ---------------------------------------------------------------- where the promises stop

  /** The counter advances by one exactly below the last safe integer; there it falls back to zero. */
  lemma VersionAdvancesIff(s: Snapshot, c: Command)
    requires Verdict(s, c) == Applied
    ensures Version(Step(s, c)) == Version(s) + 1 <==> Version(s) < MAX_SAFE_INTEGER
    ensures Version(s) == MAX_SAFE_INTEGER ==> Version(Step(s, c)) == 0
  {}

  /** So the version counts the winners of a run exactly when there is room for them. */
  lemma VersionCountsWinnersIff(s: Snapshot, cmds: seq<Command>)
    requires AllBuilt(cmds)
    ensures Version(After(s, cmds)) == Version(s) + |Winners(s, cmds)| <==> VersionRoom(s, cmds)
  {
    if VersionRoom(s, cmds) { RunLaw(s, cmds); }
  }

  /** At the last safe integer a later winner can carry a smaller version than an earlier one. */
  lemma VersionWrapExample() returns (s: Snapshot, cmds: seq<Command>)
    ensures AllBuilt(cmds) && |cmds| == 2 && Version(s) == MAX_SAFE_INTEGER
    ensures AppliedAt(s, cmds, 0) && AppliedAt(s, cmds, 1)
    ensures cmds[1].expectedVersion < cmds[0].expectedVersion
  {
    var a := CreateCommand("a", MAX_SAFE_INTEGER, [], [], None, "");
    var b := CreateCommand("a", 0, [], [], None, "");
    s := Snapshot(Some(MAX_SAFE_INTEGER), None, None, None, None, None, None, false);
    cmds := [a, b];
    assert cmds[..0] == [] && cmds[..1] == [a];
    assert After(s, [a]) == Step(s, a) by { assert [a][..0] == []; }
  }

  /** Paise charged to one day by the applied commands. */
  function DaySpend(ws: seq<Command>, day: string): int {
    if ws == [] then 0 else
    DaySpend(ws[..|ws| - 1], day)
    + (if ws[|ws| - 1].chargeDay == day then ws[|ws| - 1].chargeDelta else 0)
  }

  /** The command charged `day`. */
  predicate Charged(c: Command, day: string) { c.chargeDelta > 0 && c.chargeDay == day }

  /** The command charged a day other than `day`. */
  predicate ChargedElse(c: Command, day: string) { c.chargeDelta > 0 && c.chargeDay != day }

  ghost predicate SpentOn(ws: seq<Command>, day: string) { exists i :: 0 <= i < |ws| && Charged(ws[i], day) }

  /** A charge of `day` landed before a charge of another day. */
  ghost predicate LaterDayIntervenes(ws: seq<Command>, day: string) {
    exists i, j :: 0 <= i < j < |ws| && Charged(ws[i], day) && ChargedElse(ws[j], day)
  }

  lemma IntervenesAppend(ws: seq<Command>, last: Command, day: string)
    ensures SpentOn(ws + [last], day) <==> SpentOn(ws, day) || Charged(last, day)
    ensures LaterDayIntervenes(ws + [last], day)
       <==> LaterDayIntervenes(ws, day) || (SpentOn(ws, day) && ChargedElse(last, day))
  {
    var all := ws + [last];
    assert all[|ws|] == last;
    if SpentOn(ws, day) {
      var i :| 0 <= i < |ws| && Charged(ws[i], day);
      assert Charged(all[i], day);
    }
    if LaterDayIntervenes(ws, day) {
      var i, j :| 0 <= i < j < |ws| && Charged(ws[i], day) && ChargedElse(ws[j], day);
      assert Charged(all[i], day) && ChargedElse(all[j], day);
    }
  }

  /** What the row's one bucket holds for `day`: nothing once another day is the latest charged one. */
  function BucketFor(s: Snapshot, day: string): int {
    if s.chargeDay == Some(day) then DayTotal(s) else 0
  }

  /**
   On a row that starts uncharged, the bucket holds all of a day's charges exactly when no other day
   was charged after that day's first charge; otherwise it holds less.
   */
  lemma {:induction false} BucketIsDaySpendIff(s: Snapshot, cmds: seq<Command>, day: string)
    requires AllBuilt(cmds) && s.chargeDay == None && DayTotal(s) == 0
    ensures var ws := Winners(s, cmds);
            var bucket := BucketFor(After(s, cmds), day);
            && 0 <= bucket <= DaySpend(ws, day)
            && (DaySpend(ws, day) > 0 <==> SpentOn(ws, day))
            && (bucket == DaySpend(ws, day) <==> !LaterDayIntervenes(ws, day))
  {
    if cmds != [] {
      var before := cmds[..|cmds| - 1];
      var last := cmds[|cmds| - 1];
      BucketIsDaySpendIff(s, before, day);
      var ws := Winners(s, before);
      assert DaySpend(ws + [last], day) == DaySpend(ws, day) + (if last.chargeDay == day then last.chargeDelta else 0)
        by { assert (ws + [last])[..|ws|] == ws; }
      IntervenesAppend(ws, last, day);
      assert Built(last);
      BucketStep(After(s, before), last, day);
    }
  }

  lemma BucketStep(s: Snapshot, c: Command, day: string)
    requires c.chargeDelta >= 0
    ensures Verdict(s, c) != Applied ==> Step(s, c) == s
    ensures Verdict(s, c) == Applied ==>
              BucketFor(Step(s, c), day) ==
                if Charged(c, day) then BucketFor(s, day) + c.chargeDelta
                else if ChargedElse(c, day) then 0
                else BucketFor(s, day)
  {}
}
