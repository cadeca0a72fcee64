/** Ageing a broker figure: which figures are fresh, stale, invalid or not there. Times are milliseconds. */
module EvidenceTiming {
  import opened Common

  datatype Identity = Identity(broker: string, account: Option<string>, session: Option<string>)

  /** A moment on both clocks; a monotonic reading that is not finite is absent. */
  datatype Instant = Instant(mono: Option<int>, wall: int)

  /** The wall time the source claims: none, one that is not finite, or a value. */
  datatype SourceStamp = NoStamp | BadStamp | Stamp(wall: int)

  datatype Observation = Observation(failed: bool, at: Option<Instant>, source: SourceStamp, identity: Option<Identity>)

  datatype Status = Usable | Stale | Invalid | Unavailable

  datatype Aged = Aged(status: Status, ageMs: Option<int>)

  predicate Differ(a: Option<string>, b: Option<string>) { a.Some? && b.Some? && a != b }

  /** Two known identities that cannot be the same account; an unknown part is not a mismatch. */
  predicate IdentityMismatch(observed: Option<Identity>, current: Option<Identity>) {
    observed.Some? && current.Some? &&
    (observed.value.broker != current.value.broker
     || Differ(observed.value.account, current.value.account)
     || Differ(observed.value.session, current.value.session))
  }

  function MonoElapsed(from: Option<int>, to: Option<int>): (r: Option<int>)
    ensures r.Some? <==> from.Some? && to.Some? && from.value <= to.value
    ensures r.Some? ==> r.value >= 0 && from.value + r.value == to.value
  {
    if from.Some? && to.Some? && to.value >= from.value then Some(to.value - from.value) else None
  }

  /** How long before we received it the source says it observed the figure, when that is material. */
  function CacheLag(o: Observation, graceMs: int): int {
    if o.source.Stamp? && o.at.Some? && Max(0, o.at.value.wall - o.source.wall) > graceMs
    then Max(0, o.at.value.wall - o.source.wall) else 0
  }

  predicate FromTheFuture(o: Observation, graceMs: int) {
    o.source.Stamp? && o.at.Some? && o.source.wall - o.at.value.wall > graceMs
  }

  function AgeEvidence(o: Observation, evaluatedMono: Option<int>, maxAgeMs: int, graceMs: int,
                       current: Option<Identity>): Aged {
    if o.failed || o.at.None? then Aged(Unavailable, None)
    else if IdentityMismatch(o.identity, current) then Aged(Invalid, MonoElapsed(o.at.value.mono, evaluatedMono))
    else if o.at.value.mono.None? || evaluatedMono.None? then Aged(Invalid, None)
    else if o.source.BadStamp? then Aged(Invalid, None)
    else if FromTheFuture(o, graceMs) then Aged(Invalid, None)
    else
      var mono := MonoElapsed(o.at.value.mono, evaluatedMono);
      if mono.None? then Aged(Invalid, None)
      else
        var age := mono.value + CacheLag(o, graceMs);
        if age > maxAgeMs then Aged(Stale, Some(age)) else Aged(Usable, Some(age))
  }

  /** The two identities are known and name a different broker, or both name different accounts or sessions. */
  ghost predicate OtherAccount(a: Option<Identity>, b: Option<Identity>) {
    && a.Some? && b.Some?
    && (|| a.value.broker != b.value.broker
        || (a.value.account.Some? && b.value.account.Some? && a.value.account.value != b.value.account.value)
        || (a.value.session.Some? && b.value.session.Some? && a.value.session.value != b.value.session.value))
  }

  /** How much older than its receipt the figure admits to be; within the grace it is taken as of its receipt. */
  ghost function AdmittedLag(o: Observation, graceMs: int): int
    requires o.at.Some?
  {
    if o.source.Stamp? && o.at.value.wall - o.source.wall > graceMs && o.at.value.wall > o.source.wall
    then o.at.value.wall - o.source.wall else 0
  }

  /** What it takes to be evidence: obtained, about this account, timed, and not stamped in the future. */
  ghost predicate Attributable(o: Observation, evaluatedMono: int, graceMs: int, current: Option<Identity>)
    requires o.at.Some?
  {
    && !OtherAccount(o.identity, current) && o.at.value.mono.Some? && o.at.value.mono.value <= evaluatedMono
    && o.source != BadStamp
    && (o.source.Stamp? ==> o.source.wall <= o.at.value.wall + graceMs)
  }

  /** ... and within the age bound, counting what the source itself admits. */
  ghost predicate Fresh(o: Observation, evaluatedMono: int, maxAgeMs: int, graceMs: int, current: Option<Identity>) {
    && !o.failed && o.at.Some? && Attributable(o, evaluatedMono, graceMs, current)
    && evaluatedMono - o.at.value.mono.value + AdmittedLag(o, graceMs) <= maxAgeMs
  }

  /** Only a known difference is a mismatch. */
  lemma MismatchIff(a: Option<Identity>, b: Option<Identity>)
    ensures IdentityMismatch(a, b) <==> OtherAccount(a, b)
  {}

  /**
   What each answer means: unavailable was never obtained, invalid cannot be attributed or timed, stale is
   attributable but too old, and usable is exactly fresh. An attributable figure reports its age.
   */
  lemma StatusMeans(o: Observation, now: int, maxAgeMs: int, graceMs: int, current: Option<Identity>)
    ensures var aged := AgeEvidence(o, Some(now), maxAgeMs, graceMs, current);
            && (aged.status == Unavailable <==> o.failed || o.at.None?)
            && (aged.status == Invalid <==> !o.failed && o.at.Some? && !Attributable(o, now, graceMs, current))
            && (aged.status == Usable <==> Fresh(o, now, maxAgeMs, graceMs, current))
            && (aged.status == Stale <==> !o.failed && o.at.Some? && Attributable(o, now, graceMs, current)
                                          && !Fresh(o, now, maxAgeMs, graceMs, current))
            && (aged.status == Usable || aged.status == Stale ==>
                  aged.ageMs == Some(now - o.at.value.mono.value + AdmittedLag(o, graceMs)))
  {
    MismatchIff(o.identity, current);
  }

  /** A decision taken without a reading of its own clock can use nothing. */
  lemma NoClockNoEvidence(o: Observation, maxAgeMs: int, graceMs: int, current: Option<Identity>)
    ensures var status := AgeEvidence(o, None, maxAgeMs, graceMs, current).status;
            status == Unavailable || status == Invalid
  {}

  /**
   A figure is usable exactly when it is fresh. Waiting never revives it: a stale figure stays stale at
   every later evaluation, and a usable one was usable at every instant since it was observed.
   */
  lemma UsableIffFresh(o: Observation, now: int, later: int, maxAgeMs: int, graceMs: int, current: Option<Identity>)
    requires now <= later
    ensures AgeEvidence(o, Some(now), maxAgeMs, graceMs, current).status == Usable
       <==> Fresh(o, now, maxAgeMs, graceMs, current)
    ensures AgeEvidence(o, Some(now), maxAgeMs, graceMs, current).status == Stale ==>
            AgeEvidence(o, Some(later), maxAgeMs, graceMs, current).status == Stale
    ensures AgeEvidence(o, Some(later), maxAgeMs, graceMs, current).status == Usable
            && o.at.value.mono.value <= now ==>
            AgeEvidence(o, Some(now), maxAgeMs, graceMs, current).status == Usable
  {
    StatusMeans(o, now, maxAgeMs, graceMs, current);
    StatusMeans(o, later, maxAgeMs, graceMs, current);
  }
}
