/**
 Runs of the journal: any sequence of its transactions, with GC, retention, epoch changes and
 reboots interleaved anywhere.  `World` adds what a run has done so far to the tables.
 */
module JournalRuns {
  import opened Basics
  import opened AuthTokens
  import opened JournalTables

  datatype Event =
    | EAdmit(decision: Decision, pipeline: string, now: int, healthy: bool)
    | EPresent(p: Presentation)
    | EMarkRunning(attempt: string)
    | ETombstone(attempt: string, run: string, reason: string, now: int)
    | EComplete(attempt: string, result: string, runId: Option<string>, now: int)
    | ERecord(attempt: string, result: string, runId: Option<string>, now: int)
    | ERespool(scan: seq<string>, now: int)
    | EEnqueue(attempt: string, kind: string, payload: string, now: int)
    | EAck(attempt: string, now: int)
    | EFail(seqno: nat, error: string, now: int)
    | EBoot
    | EAdvanceEpoch
    | ERecover(now: int)
    | EGc(now: int)
    | ERetention(now: int)

  function Step(t: Tables, e: Event, cfg: Config): Tables {
    match e
    case EAdmit(d, pipeline, now, healthy) => Admit(t, d, pipeline, now, healthy, cfg)
    case EPresent(p) => Present(t, p, cfg)
    case EMarkRunning(a) => MarkRunning(t, a)
    case ETombstone(a, run, reason, now) => RecordTombstone(t, a, run, reason, now)
    case EComplete(a, result, runId, now) => CompleteAndEnqueue(t, a, result, runId, now)
    case ERecord(a, result, runId, now) => RecordCompletion(t, a, result, runId, now)
    case ERespool(scan, now) => Respool(t, scan, now)
    case EEnqueue(a, kind, payload, now) => Enqueue(t, a, kind, payload, now)
    case EAck(a, now) => MarkAcked(t, a, now)
    case EFail(seqno, error, now) => RecordFailure(t, seqno, error, now)
    case EBoot => MarkInterrupted(t)
    case EAdvanceEpoch => AdvanceEpoch(t)
    case ERecover(now) => RecoverClock(t, now)
    case EGc(now) => GcExpired(t, now, cfg)
    case ERetention(now) => CleanupRetention(t, now, cfg)
  }

  /** The attempt this event admits, if it admits one: the events after which a run thread starts. */
  function AdmittedBy(t: Tables, e: Event, cfg: Config): Option<string> {
    var o := match e
      case EAdmit(d, _, now, healthy) => AdmitOutcome(t, d, now, healthy, cfg)
      case EPresent(p) => PresentOutcome(t, p, cfg)
      case _ => Closed;
    if o.Admitted? then Some(o.attempt) else None
  }

  /** The completions a retention sweep deletes. */
  function AgedBy(t: Tables, e: Event, cfg: Config): set<string> {
    if e.ERetention? then AckedBefore(t, e.now - cfg.audit * MICROS) else {}
  }

  datatype World = World(t: Tables, admitted: multiset<string>, tombstoned: set<string>, aged: set<string>)

  const START := World(FRESH, multiset{}, {}, {})

  function Next(w: World, e: Event, cfg: Config): World {
    var started := AdmittedBy(w.t, e, cfg);
    World(Step(w.t, e, cfg),
          if started.Some? then w.admitted + multiset{started.value} else w.admitted,
          w.tombstoned + (if e.ETombstone? then {e.attempt} else {}),
          w.aged + AgedBy(w.t, e, cfg))
  }

  function Run(w: World, es: seq<Event>, cfg: Config): World {
    if es == [] then w else Next(Run(w, es[..|es| - 1], cfg), es[|es| - 1], cfg)
  }

  function Rank(p: Phase): nat {
    match p
    case Reserved => 0
    case Running => 1
    case Interrupted => 2
    case Completed => 3
  }

  // ── the invariant every step keeps ────────────────────────────────────────

  predicate UniqueTokens(t: Tables) {
    forall a, b | a in t.authorizations && b in t.authorizations && a != b ::
      t.authorizations[a].token != t.authorizations[b].token
  }

  predicate Inv(w: World) {
    && w.t.authorizations.Keys <= w.t.reservations.Keys
    && (forall a | a in w.tombstoned :: a in w.t.tombstones || a in w.t.reservations)
    && (forall a | a in w.admitted :: a in w.t.reservations && w.admitted[a] == 1)
    && (forall e | e in w.t.watermarks :: e <= w.t.epoch)
    && (forall a | a in w.t.reservations && w.t.reservations[a].phase == Completed ::
          a in w.t.completions || a in w.aged)
    && UniqueTokens(w.t)
  }

  /** The respool touches the outbox only. */
  lemma {:induction false} RespoolFrame(t: Tables, scan: seq<string>, now: int)
    ensures var t' := Respool(t, scan, now); t' == t.(outbox := t'.outbox, nextSeq := t'.nextSeq)
  {
    if scan != [] {
      RespoolFrame(t, scan[..|scan| - 1], now);
    }
  }

  /** What an admission that commits adds: one reservation, and at most its own authorization. */
  predicate Joins(t: Tables, t': Tables, a: string) {
    && a !in t.tombstones && a !in t.reservations
    && t'.reservations.Keys == t.reservations.Keys + {a}
    && (forall b | b in t.reservations :: t'.reservations[b] == t.reservations[b])
    && t'.reservations[a].phase == Reserved
    && t'.watermarks.Keys == t.watermarks.Keys + {t.epoch}
    && t'.epoch == t.epoch && t'.tombstones == t.tombstones
    && t'.completions == t.completions && t'.outbox == t.outbox
    && t'.authorizations.Keys <= t.authorizations.Keys + {a}
    && (forall b | b in t'.authorizations && b in t.authorizations :: t'.authorizations[b] == t.authorizations[b])
    && (a in t'.authorizations && a !in t.authorizations ==> !TokenInUse(t, t'.authorizations[a].token))
  }

  lemma AdmitEffect(t: Tables, e: Event, cfg: Config)
    requires e.EAdmit? || e.EPresent?
    ensures match AdmittedBy(t, e, cfg)
            case None => Step(t, e, cfg) == t
            case Some(a) => Joins(t, Step(t, e, cfg), a)
  {
  }

  /** What every other step does: no identity is added, and a tombstone goes only with an authorization. */
  predicate Quiet(t: Tables, t': Tables) {
    && t'.reservations.Keys == t.reservations.Keys
    && t'.authorizations.Keys <= t.authorizations.Keys
    && (forall a | a in t'.authorizations :: t'.authorizations[a] == t.authorizations[a])
    && (forall a | a in t.tombstones && a !in t'.tombstones :: a in t.authorizations)
    && t'.epoch >= t.epoch
    && t'.watermarks.Keys <= t.watermarks.Keys + {t'.epoch}
  }

  lemma GcEffect(t: Tables, now: int, cfg: Config)
    ensures Quiet(t, GcExpired(t, now, cfg))
  {
  }

  lemma RetentionEffect(t: Tables, now: int, cfg: Config)
    ensures Quiet(t, CleanupRetention(t, now, cfg))
  {
  }

  /** Steps that touch neither identities nor clocks. */
  predicate Plain(t: Tables, t': Tables) {
    && t'.authorizations == t.authorizations && t'.tombstones == t.tombstones
    && t'.epoch == t.epoch && t'.watermarks == t.watermarks && t'.reservations.Keys == t.reservations.Keys
  }

  predicate IsClockStep(e: Event) {
    e.ETombstone? || e.EAdvanceEpoch? || e.ERecover? || e.EGc? || e.ERetention?
  }

  lemma CompletePlain(t: Tables, a: string, result: string, run: Option<string>, now: int)
    ensures Plain(t, CompleteAndEnqueue(t, a, result, run, now))
  {
    var t' := RecordCompletion(t, a, result, run, now);
    assert Plain(t, t');
    assert Plain(t', RespoolOne(t', a, now));
  }

  lemma FailurePlain(t: Tables, seqno: nat, error: string, now: int)
    ensures Plain(t, RecordFailure(t, seqno, error, now))
  {
  }

  lemma PlainEffect(t: Tables, e: Event, cfg: Config)
    requires !e.EAdmit? && !e.EPresent? && !IsClockStep(e)
    ensures Plain(t, Step(t, e, cfg))
  {
    if e.EComplete? {
      CompletePlain(t, e.attempt, e.result, e.runId, e.now);
    } else if e.ERespool? {
      RespoolFrame(t, e.scan, e.now);
    } else if e.EFail? {
      FailurePlain(t, e.seqno, e.error, e.now);
    }
  }

  lemma OtherEffect(t: Tables, e: Event, cfg: Config)
    requires !e.EAdmit? && !e.EPresent?
    ensures Quiet(t, Step(t, e, cfg))
  {
    if !IsClockStep(e) {
      PlainEffect(t, e, cfg);
    } else if e.EGc? {
      GcEffect(t, e.now, cfg);
    } else if e.ERetention? {
      RetentionEffect(t, e.now, cfg);
    }
  }

  /** Phases only rise, and a reservation turns completed only together with its completion row. */
  predicate PhasesFollow(t: Tables, t': Tables) {
    forall a | a in t.reservations ::
      && a in t'.reservations
      && Rank(t.reservations[a].phase) <= Rank(t'.reservations[a].phase)
      && (t'.reservations[a].phase == Completed ==> t.reservations[a].phase == Completed || a in t'.completions)
  }

  lemma RecordEffect(t: Tables, a: string, result: string, run: Option<string>, now: int)
    ensures PhasesFollow(t, RecordCompletion(t, a, result, run, now))
    ensures t.completions.Keys <= RecordCompletion(t, a, result, run, now).completions.Keys
  {
  }

  lemma CompleteEffect(t: Tables, a: string, result: string, run: Option<string>, now: int)
    ensures PhasesFollow(t, CompleteAndEnqueue(t, a, result, run, now))
    ensures t.completions.Keys <= CompleteAndEnqueue(t, a, result, run, now).completions.Keys
  {
    RecordEffect(t, a, result, run, now);
    var t' := RecordCompletion(t, a, result, run, now);
    var t'' := RespoolOne(t', a, now);
    assert t''.reservations == t'.reservations && t''.completions == t'.completions;
  }

  predicate RowsLeave(t: Tables, t': Tables, gone: set<string>) {
    forall a | a in t.completions && a !in t'.completions :: a in gone
  }

  lemma RowsEffect(t: Tables, e: Event, cfg: Config)
    requires !e.EAdmit? && !e.EPresent?
    ensures RowsLeave(t, Step(t, e, cfg), AgedBy(t, e, cfg))
  {
    match e {
      case EComplete(a, result, runId, now) => CompleteEffect(t, a, result, runId, now);
      case ERecord(a, result, runId, now) => RecordEffect(t, a, result, runId, now);
      case ERespool(scan, now) => RespoolFrame(t, scan, now);
      case _ =>
    }
  }

  lemma PhaseEffect(t: Tables, e: Event, cfg: Config)
    requires !e.EAdmit? && !e.EPresent?
    ensures PhasesFollow(t, Step(t, e, cfg)) && RowsLeave(t, Step(t, e, cfg), AgedBy(t, e, cfg))
  {
    RowsEffect(t, e, cfg);
    match e {
      case EComplete(a, result, runId, now) => CompleteEffect(t, a, result, runId, now);
      case ERecord(a, result, runId, now) => RecordEffect(t, a, result, runId, now);
      case ERespool(scan, now) => RespoolFrame(t, scan, now);
      case _ =>
    }
  }

  lemma JoinKeepsInv(w: World, t': Tables, a: string)
    requires Inv(w) && Joins(w.t, t', a)
    ensures Inv(w.(t := t', admitted := w.admitted + multiset{a}))
  {
  }

  lemma QuietKeepsInv(w: World, t': Tables, revoked: set<string>, gone: set<string>)
    requires Inv(w) && Quiet(w.t, t') && PhasesFollow(w.t, t') && RowsLeave(w.t, t', gone)
    requires revoked <= t'.tombstones.Keys
    ensures Inv(w.(t := t', tombstoned := w.tombstoned + revoked, aged := w.aged + gone))
  {
  }

  lemma StepKeepsInv(w: World, e: Event, cfg: Config)
    requires Inv(w)
    ensures Inv(Next(w, e, cfg))
  {
    var t' := Step(w.t, e, cfg);
    if e.EAdmit? || e.EPresent? {
      AdmitEffect(w.t, e, cfg);
      if AdmittedBy(w.t, e, cfg).Some? {
        JoinKeepsInv(w, t', AdmittedBy(w.t, e, cfg).value);
      }
    } else {
      OtherEffect(w.t, e, cfg);
      PhaseEffect(w.t, e, cfg);
      QuietKeepsInv(w, t', if e.ETombstone? then {e.attempt} else {}, AgedBy(w.t, e, cfg));
    }
  }

  lemma {:induction false} RunKeepsInv(w: World, es: seq<Event>, cfg: Config)
    requires Inv(w)
    ensures Inv(Run(w, es, cfg))
  {
    if es != [] {
      RunKeepsInv(w, es[..|es| - 1], cfg);
      StepKeepsInv(Run(w, es[..|es| - 1], cfg), es[|es| - 1], cfg);
    }
  }

  // ── admission is at most once, and revocation is final ────────────────────

  /** In every run each attempt is admitted, hence started, at most once. */
  lemma AdmittedAtMostOnce(es: seq<Event>, a: string, cfg: Config)
    ensures Run(START, es, cfg).admitted[a] <= 1
  {
    RunKeepsInv(START, es, cfg);
  }

  lemma {:induction false} TombstonedGrows(w: World, es: seq<Event>, cfg: Config)
    ensures w.tombstoned <= Run(w, es, cfg).tombstoned
  {
    if es != [] {
      TombstonedGrows(w, es[..|es| - 1], cfg);
    }
  }

  /** Whatever ran before a revocation and whatever runs after it, the attempt is not admitted again. */
  lemma RevokedStaysOut(before: seq<Event>, revoke: Event, after: seq<Event>, e: Event, cfg: Config)
    requires revoke.ETombstone?
    ensures var w := Run(Next(Run(START, before, cfg), revoke, cfg), after, cfg);
            AdmittedBy(w.t, e, cfg) != Some(revoke.attempt)
  {
    var w0 := Run(START, before, cfg);
    RunKeepsInv(START, before, cfg);
    StepKeepsInv(w0, revoke, cfg);
    var w1 := Next(w0, revoke, cfg);
    RunKeepsInv(w1, after, cfg);
    TombstonedGrows(w1, after, cfg);
    var w := Run(w1, after, cfg);
    if e.EAdmit? || e.EPresent? {
      AdmitEffect(w.t, e, cfg);
    }
  }

  // ── phases, completion rows and watermarks over time ──────────────────────

  predicate PhasesRise(t: Tables, t': Tables) {
    forall a | a in t.reservations ::
      a in t'.reservations && Rank(t.reservations[a].phase) <= Rank(t'.reservations[a].phase)
  }

  predicate WatermarksRise(t: Tables, t': Tables) {
    t.epoch <= t'.epoch && forall e | e in t.watermarks :: e in t'.watermarks && t.watermarks[e] <= t'.watermarks[e]
  }

  lemma StepRaisesWatermarks(t: Tables, e: Event, cfg: Config)
    ensures WatermarksRise(t, Step(t, e, cfg))
  {
    if !e.EAdmit? && !e.EPresent? && !IsClockStep(e) {
      PlainEffect(t, e, cfg);
    }
  }

  lemma StepRaisesPhases(t: Tables, e: Event, cfg: Config)
    ensures PhasesRise(t, Step(t, e, cfg))
  {
    if e.EAdmit? || e.EPresent? {
      AdmitEffect(t, e, cfg);
    } else {
      PhaseEffect(t, e, cfg);
    }
  }

  /** Across any run no reservation disappears or falls back, and no watermark is lowered. */
  lemma {:induction false} RunRises(w: World, es: seq<Event>, cfg: Config)
    ensures PhasesRise(w.t, Run(w, es, cfg).t) && WatermarksRise(w.t, Run(w, es, cfg).t)
  {
    if es != [] {
      RunRises(w, es[..|es| - 1], cfg);
      StepRaisesPhases(Run(w, es[..|es| - 1], cfg).t, es[|es| - 1], cfg);
      StepRaisesWatermarks(Run(w, es[..|es| - 1], cfg).t, es[|es| - 1], cfg);
    }
  }

  /** A completed reservation still has its completion row unless that row was acked and aged out. */
  lemma CompletedHasRow(es: seq<Event>, a: string, cfg: Config)
    ensures var w := Run(START, es, cfg);
            a in w.t.reservations && w.t.reservations[a].phase == Completed ==>
              a in w.t.completions || a in w.aged
    ensures forall e | e in Run(START, es, cfg).t.watermarks :: e <= Run(START, es, cfg).t.epoch
  {
    RunKeepsInv(START, es, cfg);
  }

  /**
   However far the clock fell, recovery opens a new epoch whose watermark is exactly the clock
   it read, so admission is open at that clock again; with a negative skew it never is.
   */
  lemma RecoveryReopensAdmission(es: seq<Event>, now: int, cfg: Config)
    ensures var t := RecoverClock(Run(START, es, cfg).t, now);
            && t.epoch in t.watermarks && t.watermarks[t.epoch] == Millis(now)
            && (Admitting(t, now, cfg) <==> cfg.skew >= 0)
  {
    RunKeepsInv(START, es, cfg);
  }

  // ── retired tokens ────────────────────────────────────────────────────────

  /** Fields a token spells out, independently of the secrets and the clock it is checked with. */
  ghost predicate Says(token: string, f: Fields) {
    exists parts, mac :: Spells(token, parts, mac) && ReadFields(parts) == Some(f) && IsAscii(mac)
  }

  /** What a row written by a token presentation records about its token. */
  ghost predicate RowMatchesToken(row: Authorization) {
    exists f :: Says(row.token, f) && row.expiresAt == (f.issuedAt + f.ttl) * MICROS
  }

  ghost predicate TokenRows(t: Tables) {
    forall a | a in t.authorizations :: RowMatchesToken(t.authorizations[a])
  }

  /** Runs in which every admission comes from a presented token, as the worker's `/agent/run` does. */
  predicate TokenDriven(es: seq<Event>) {
    forall e | e in es :: !e.EAdmit?
  }

  predicate SameEpoch(es: seq<Event>) {
    forall e | e in es :: !e.EAdvanceEpoch? && !e.ERecover?
  }

  lemma AcceptedSays(token: string, f: Fields, env: Env, sign: Sign)
    requires Validate(token, env, sign) == Accepted(f)
    ensures Says(token, f) && InBounds(f, env)
  {
    AcceptedIffCertified(token, f, env, sign);
    var parts, mac :| Certified(token, f, parts, mac, env, sign);
    assert Spells(token, parts, mac);
  }

  /** A row that a presentation adds is for the presented token and expires with it. */
  lemma PresentAdds(t: Tables, p: Presentation, cfg: Config, a: string)
    requires a in Present(t, p, cfg).authorizations && a !in t.authorizations
    ensures Present(t, p, cfg).authorizations[a].token == p.token
    ensures RowMatchesToken(Present(t, p, cfg).authorizations[a])
  {
    var v := Validate(p.token, EnvOf(p, cfg), cfg.sign);
    AcceptedSays(p.token, v.fields, EnvOf(p, cfg), cfg.sign);
    assert Present(t, p, cfg).authorizations[a].expiresAt == (v.fields.issuedAt + v.fields.ttl) * MICROS;
  }

  lemma PresentKeepsRows(t: Tables, p: Presentation, cfg: Config)
    ensures forall a | a in t.authorizations ::
              a in Present(t, p, cfg).authorizations && Present(t, p, cfg).authorizations[a] == t.authorizations[a]
  {
  }

  lemma StepKeepsTokenRows(t: Tables, e: Event, cfg: Config)
    requires TokenRows(t) && !e.EAdmit?
    ensures TokenRows(Step(t, e, cfg))
  {
    if e.EPresent? {
      PresentKeepsRows(t, e.p, cfg);
      forall a | a in Present(t, e.p, cfg).authorizations && a !in t.authorizations
        ensures RowMatchesToken(Present(t, e.p, cfg).authorizations[a])
      {
        PresentAdds(t, e.p, cfg, a);
      }
    } else {
      OtherEffect(t, e, cfg);
    }
  }

  lemma {:induction false} RunKeepsTokenRows(es: seq<Event>, cfg: Config)
    requires TokenDriven(es)
    ensures TokenRows(Run(START, es, cfg).t)
  {
    if es != [] {
      RunKeepsTokenRows(es[..|es| - 1], cfg);
      StepKeepsTokenRows(Run(START, es[..|es| - 1], cfg).t, es[|es| - 1], cfg);
    }
  }

  /** The token's row is gone and this epoch's watermark has passed its validity window. */
  ghost predicate Retired(t: Tables, token: string, f: Fields, epoch: int, cfg: Config) {
    t.epoch == epoch && !TokenInUse(t, token) && RetiredByWatermark(t, f, cfg)
  }

  /** Truncating to milliseconds cannot lose a whole-second deadline that has been reached. */
  lemma MillisPassesSecond(now: int, second: int)
    requires second * MICROS <= now
    ensures second * 1000 <= Millis(now)
  {
  }

  lemma GcRetires(t: Tables, now: int, a: string, f: Fields, cfg: Config)
    requires UniqueTokens(t) && a in Expired(t, now, cfg)
    requires t.authorizations[a].expiresAt == (f.issuedAt + f.ttl) * MICROS
    ensures Retired(GcExpired(t, now, cfg), t.authorizations[a].token, f, t.epoch, cfg)
  {
    MillisPassesSecond(now, f.issuedAt + f.ttl + cfg.skew);
  }

  /** The validator reads one fixed set of fields from a token, whatever it is validated against. */
  lemma ReadsSameFields(token: string, f: Fields, env: Env, sign: Sign)
    requires Says(token, f)
    ensures var v := Validate(token, env, sign); v.Rejected? || v == Accepted(f)
  {
    var parts, mac :| Spells(token, parts, mac) && ReadFields(parts) == Some(f) && IsAscii(mac);
    JudgedOnItsFields(parts, mac, f, env, sign);
  }

  lemma RetiredIsRefused(t: Tables, f: Fields, p: Presentation, cfg: Config)
    requires Says(p.token, f)
    requires Retired(t, p.token, f, t.epoch, cfg)
    ensures PresentOutcome(t, p, cfg).RefusedAuth? && Present(t, p, cfg) == t
  {
    ReadsSameFields(p.token, f, EnvOf(p, cfg), cfg.sign);
  }

  lemma PresentKeepsUnused(t: Tables, p: Presentation, token: string, cfg: Config)
    requires !TokenInUse(t, token) && p.token != token
    ensures !TokenInUse(Present(t, p, cfg), token)
  {
    PresentKeepsRows(t, p, cfg);
    forall a | a in Present(t, p, cfg).authorizations
      ensures Present(t, p, cfg).authorizations[a].token != token
    {
      if a !in t.authorizations {
        PresentAdds(t, p, cfg, a);
      }
    }
  }

  lemma StaysRetired(t: Tables, t': Tables, token: string, f: Fields, cfg: Config)
    requires Retired(t, token, f, t.epoch, cfg)
    requires t'.epoch == t.epoch && WatermarksRise(t, t') && !TokenInUse(t', token)
    ensures Retired(t', token, f, t.epoch, cfg)
  {
  }

  lemma StepKeepsEpoch(t: Tables, e: Event, cfg: Config)
    requires !e.EAdvanceEpoch? && !e.ERecover?
    ensures Step(t, e, cfg).epoch == t.epoch
  {
    if !e.EAdmit? && !e.EPresent? && !IsClockStep(e) {
      PlainEffect(t, e, cfg);
    }
  }

  lemma StepKeepsRetired(t: Tables, e: Event, token: string, f: Fields, cfg: Config)
    requires Says(token, f) && Retired(t, token, f, t.epoch, cfg)
    requires !e.EAdmit? && !e.EAdvanceEpoch? && !e.ERecover?
    ensures Retired(Step(t, e, cfg), token, f, t.epoch, cfg)
  {
    if e.EPresent? && e.p.token == token {
      RetiredIsRefused(t, f, e.p, cfg);
    } else {
      StepRaisesWatermarks(t, e, cfg);
      StepKeepsEpoch(t, e, cfg);
      var t' := Step(t, e, cfg);
      if e.EPresent? {
        PresentKeepsUnused(t, e.p, token, cfg);
      } else {
        OtherEffect(t, e, cfg);
      }
      StaysRetired(t, t', token, f, cfg);
    }
  }

  lemma {:induction false} RunKeepsRetired(w: World, es: seq<Event>, token: string, f: Fields, cfg: Config)
    requires Says(token, f)
    requires Retired(w.t, token, f, w.t.epoch, cfg) && TokenDriven(es) && SameEpoch(es)
    ensures Retired(Run(w, es, cfg).t, token, f, w.t.epoch, cfg)
  {
    if es != [] {
      var e := es[|es| - 1];
      assert e in es;
      RunKeepsRetired(w, es[..|es| - 1], token, f, cfg);
      StepKeepsRetired(Run(w, es[..|es| - 1], cfg).t, e, token, f, cfg);
    }
  }

  lemma NextOfGc(w: World, now: int, cfg: Config)
    ensures Next(w, EGc(now), cfg).t == GcExpired(w.t, now, cfg)
  {
  }

  lemma CollectedStaysRetired(w: World, gcNow: int, a: string, f: Fields, after: seq<Event>, cfg: Config)
    requires UniqueTokens(w.t) && TokenDriven(after) && SameEpoch(after)
    requires a in Expired(w.t, gcNow, cfg) && Says(w.t.authorizations[a].token, f)
    requires w.t.authorizations[a].expiresAt == (f.issuedAt + f.ttl) * MICROS
    ensures Retired(Run(Next(w, EGc(gcNow), cfg), after, cfg).t, w.t.authorizations[a].token, f, w.t.epoch, cfg)
  {
    var (w1, token) := (Next(w, EGc(gcNow), cfg), w.t.authorizations[a].token);
    NextOfGc(w, gcNow, cfg);
    assert Retired(w1.t, token, f, w1.t.epoch, cfg) by { GcRetires(w.t, gcNow, a, f, cfg); }
    RunKeepsRetired(w1, after, token, f, cfg);
  }

  lemma DeletedMeansExpired(t: Tables, gcNow: int, a: string, cfg: Config)
    requires a in t.authorizations && a !in GcExpired(t, gcNow, cfg).authorizations
    ensures a in Expired(t, gcNow, cfg)
  {
  }

  lemma RowSays(es: seq<Event>, a: string, cfg: Config) returns (f: Fields)
    requires TokenDriven(es) && a in Run(START, es, cfg).t.authorizations
    ensures var t := Run(START, es, cfg).t;
            && UniqueTokens(t) && Says(t.authorizations[a].token, f)
            && t.authorizations[a].expiresAt == (f.issuedAt + f.ttl) * MICROS
  {
    RunKeepsInv(START, es, cfg);
    RunKeepsTokenRows(es, cfg);
    var row := Run(START, es, cfg).t.authorizations[a];
    assert RowMatchesToken(row);
    f :| Says(row.token, f) && row.expiresAt == (f.issuedAt + f.ttl) * MICROS;
  }

  lemma CollectedIsRefused(w: World, gcNow: int, a: string, f: Fields, after: seq<Event>, p: Presentation, cfg: Config)
    requires UniqueTokens(w.t) && TokenDriven(after) && SameEpoch(after)
    requires a in Expired(w.t, gcNow, cfg) && p.token == w.t.authorizations[a].token && Says(p.token, f)
    requires w.t.authorizations[a].expiresAt == (f.issuedAt + f.ttl) * MICROS
    ensures var t := Run(Next(w, EGc(gcNow), cfg), after, cfg).t;
            PresentOutcome(t, p, cfg).RefusedAuth? && Present(t, p, cfg) == t
  {
    CollectedStaysRetired(w, gcNow, a, f, after, cfg);
    RetiredIsRefused(Run(Next(w, EGc(gcNow), cfg), after, cfg).t, f, p, cfg);
  }

  /**
   Once GC has deleted a token's row, every later presentation of that token in the same epoch
   is refused and changes nothing, at whatever clock and under whatever secrets it is presented.
   */
  lemma CollectedTokenStaysRefused(before: seq<Event>, gcNow: int, a: string, after: seq<Event>,
                                   p: Presentation, cfg: Config)
    requires TokenDriven(before) && TokenDriven(after) && SameEpoch(after)
    requires var t := Run(START, before, cfg).t;
             && a in t.authorizations && a !in GcExpired(t, gcNow, cfg).authorizations
             && p.token == t.authorizations[a].token
    ensures var t := Run(Next(Run(START, before, cfg), EGc(gcNow), cfg), after, cfg).t;
            PresentOutcome(t, p, cfg).RefusedAuth? && Present(t, p, cfg) == t
  {
    var w := Run(START, before, cfg);
    var f := RowSays(before, a, cfg);
    DeletedMeansExpired(w.t, gcNow, a, cfg);
    CollectedIsRefused(w, gcNow, a, f, after, p, cfg);
  }

  lemma MillisWithinSecond(now: int)
    ensures Millis(now) < (Seconds(now) + 1) * 1000
  {
  }

  /**
   The converse bound: with a skew of at least one second, a token the validator still accepts,
   presented at a clock not behind the watermark, is never refused as retired.
   */
  lemma LiveTokenNotRetired(t: Tables, p: Presentation, f: Fields, cfg: Config)
    requires cfg.skew >= 1
    requires Validate(p.token, EnvOf(p, cfg), cfg.sign) == Accepted(f)
    requires t.epoch in t.watermarks ==> t.watermarks[t.epoch] <= Millis(p.now)
    ensures !RetiredByWatermark(t, f, cfg)
    ensures TokenFromOldEpoch(t, p.token) || Judge(t, p, cfg) == Some(Granted(GrantOf(t, f, p)))
  {
    AcceptedSays(p.token, f, EnvOf(p, cfg), cfg.sign);
    MillisWithinSecond(p.now);
    assert (Seconds(p.now) + 1) * 1000 <= WindowEndMillis(f, cfg);
  }
}
