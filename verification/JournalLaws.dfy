/**
 What each journal transaction means for the fields of the tables: when an attempt is admitted,
 when a row leaves, and how long a result stays.
 */
module JournalLaws {
  import opened Basics
  import opened AuthTokens
  import opened JournalTables
  import opened JournalRuns

  // ── the clock ─────────────────────────────────────────────────────────────

  /** Milliseconds and seconds are cut off toward zero. */
  lemma UnitsAreTruncated(now: int)
    ensures now >= 0 ==> 1000 * Millis(now) <= now < 1000 * Millis(now) + 1000
    ensures now >= 0 ==> MICROS * Seconds(now) <= now < MICROS * Seconds(now) + MICROS
    ensures Millis(-now) == -Millis(now) && Seconds(-now) == -Seconds(now)
  {
  }

  /** The clock is not further behind the current epoch's watermark than the skew allows. */
  predicate ClockFine(t: Tables, now: int, cfg: Config) {
    cfg.skew >= 0 && (t.epoch in t.watermarks ==> t.watermarks[t.epoch] <= Millis(now) + cfg.skew * 1000)
  }

  /** What the watermark status reports is what admission goes by: open up to the skew behind the watermark. */
  lemma StatusLaw(t: Tables, now: int, cfg: Config)
    ensures Admitting(t, now, cfg) <==>
            (t.epoch in t.watermarks ==> Millis(now) >= t.watermarks[t.epoch] - cfg.skew * 1000)
    ensures cfg.skew >= 0 ==> (Admitting(t, now, cfg) <==> ClockFine(t, now, cfg))
  {
  }

  /** The token is on record for another attempt, and the presented one has no record yet. */
  predicate ForeignToken(t: Tables, g: Grant) {
    g.attempt !in t.authorizations && exists a | a in t.authorizations :: t.authorizations[a].token == g.token
  }

  predicate SameRun(r: Reservation, g: Grant) {
    r.run == g.run && r.generation == g.generation && r.slot == g.slot
  }

  /** A watermark only rises: the later of the recorded one and the clock. */
  function NewMark(t: Tables, now: int): (ms: int)
    ensures ms >= Millis(now) && (t.epoch in t.watermarks ==> ms >= t.watermarks[t.epoch])
  {
    if t.epoch in t.watermarks && t.watermarks[t.epoch] > Millis(now) then t.watermarks[t.epoch] else Millis(now)
  }

  // ── which outcome an admission has ────────────────────────────────────────

  lemma ClosedIff(t: Tables, g: Grant, now: int, healthy: bool, cfg: Config)
    ensures AdmitOutcome(t, Granted(g), now, healthy, cfg) == Closed <==> !healthy || !ClockFine(t, now, cfg)
  {
  }

  lemma RevokedIff(t: Tables, g: Grant, now: int, healthy: bool, cfg: Config)
    ensures AdmitOutcome(t, Granted(g), now, healthy, cfg).Revoked? <==>
            healthy && ClockFine(t, now, cfg) && !ForeignToken(t, g) && g.attempt in t.tombstones
    ensures AdmitOutcome(t, Granted(g), now, healthy, cfg).Revoked? ==>
              AdmitOutcome(t, Granted(g), now, healthy, cfg)
              == Revoked(g.attempt, t.tombstones[g.attempt].reason, t.tombstones[g.attempt].revokedAt)
  {
  }

  lemma AlreadyAdmittedIff(t: Tables, g: Grant, now: int, healthy: bool, cfg: Config)
    ensures AdmitOutcome(t, Granted(g), now, healthy, cfg).AlreadyAdmitted? <==>
            && healthy && ClockFine(t, now, cfg) && !ForeignToken(t, g) && g.attempt !in t.tombstones
            && g.attempt in t.reservations && SameRun(t.reservations[g.attempt], g)
    ensures AdmitOutcome(t, Granted(g), now, healthy, cfg).AlreadyAdmitted? ==>
              AdmitOutcome(t, Granted(g), now, healthy, cfg) == AlreadyAdmitted(g.attempt, t.reservations[g.attempt])
  {
  }

  lemma ConflictIff(t: Tables, g: Grant, now: int, healthy: bool, cfg: Config)
    ensures AdmitOutcome(t, Granted(g), now, healthy, cfg) == Conflict(g.attempt) <==>
            && healthy && ClockFine(t, now, cfg)
            && (|| ForeignToken(t, g)
                || (g.attempt !in t.tombstones && g.attempt in t.reservations
                    && !SameRun(t.reservations[g.attempt], g)))
  {
  }

  /** Healthy, clock fine, neither tombstone nor reservation, and the token on record for no other attempt. */
  predicate Admissible(t: Tables, g: Grant, now: int, healthy: bool, cfg: Config) {
    && healthy && ClockFine(t, now, cfg)
    && g.attempt !in t.tombstones && g.attempt !in t.reservations
    && (forall a | a in t.authorizations && a != g.attempt :: t.authorizations[a].token != g.token)
  }

  lemma AdmittedOf(t: Tables, g: Grant, now: int, healthy: bool, cfg: Config)
    requires g.attempt in t.authorizations ==> g.attempt in t.reservations
    ensures AdmitOutcome(t, Granted(g), now, healthy, cfg) == Admitted(g.attempt) <==>
            Admissible(t, g, now, healthy, cfg)
  {
    ClosedIff(t, g, now, healthy, cfg);
  }

  /** In every reachable journal a granted decision is admitted exactly when it is admissible. */
  lemma AdmittedIff(es: seq<Event>, g: Grant, now: int, healthy: bool, cfg: Config)
    ensures AdmitOutcome(Run(START, es, cfg).t, Granted(g), now, healthy, cfg) == Admitted(g.attempt) <==>
            Admissible(Run(START, es, cfg).t, g, now, healthy, cfg)
  {
    RunKeepsInv(START, es, cfg);
    AdmittedOf(Run(START, es, cfg).t, g, now, healthy, cfg);
  }

  /** A refused decision is answered as such and changes nothing. */
  lemma RefusalStands(t: Tables, who: Option<string>, reason: string, pipeline: string, now: int, healthy: bool,
                      cfg: Config)
    ensures AdmitOutcome(t, Refused(who, reason), now, healthy, cfg) == RefusedAuth(who, reason)
    ensures Admit(t, Refused(who, reason), pipeline, now, healthy, cfg) == t
  {
  }

  /** What an admission writes, field by field, and that every other outcome writes nothing. */
  lemma AdmissionWrites(t: Tables, g: Grant, pipeline: string, now: int, healthy: bool, cfg: Config)
    ensures var o := AdmitOutcome(t, Granted(g), now, healthy, cfg);
            var t' := Admit(t, Granted(g), pipeline, now, healthy, cfg);
            if o != Admitted(g.attempt) then t' == t else
              && g.attempt in t'.reservations && var r := t'.reservations[g.attempt];
              && SameRun(r, g) && r.pipeline == pipeline && r.session == g.session
              && r.reservedAt == now && r.phase == Reserved && !r.threadStarted
              && (forall a | a != g.attempt :: (a in t'.reservations <==> a in t.reservations)
                                               && (a in t.reservations ==> t'.reservations[a] == t.reservations[a]))
              && g.attempt in t'.authorizations
              && (g.attempt !in t.authorizations ==>
                    t'.authorizations == t.authorizations[g.attempt :=
                      Authorization(g.run, g.epoch, g.token, g.issuedAt, g.expiresAt)])
              && (g.attempt in t.authorizations ==> t'.authorizations == t.authorizations)
              && t' == t.(reservations := t'.reservations, authorizations := t'.authorizations,
                          watermarks := t.watermarks[t.epoch := NewMark(t, now)])
  {
  }

  // ── what is decided before the transaction ────────────────────────────────

  predicate OnRecord(t: Tables, token: string) {
    exists a | a in t.authorizations :: t.authorizations[a].token == token
  }

  predicate OnOldRecord(t: Tables, token: string) {
    exists a | a in t.authorizations :: t.authorizations[a].token == token && t.authorizations[a].epoch != t.epoch
  }

  /** The watermark has reached the end of the token's window plus the skew. */
  predicate WindowPassed(t: Tables, f: Fields, cfg: Config) {
    t.epoch in t.watermarks && t.watermarks[t.epoch] >= 1000 * (f.issuedAt + f.ttl + cfg.skew)
  }

  /**
   A token that validates is refused exactly when it is on record under another epoch, or is on no
   record and its window has passed by the watermark; otherwise its own fields are granted.
   */
  lemma JudgedBy(t: Tables, p: Presentation, f: Fields, cfg: Config)
    requires Validate(p.token, EnvOf(p, cfg), cfg.sign) == Accepted(f)
    ensures Judge(t, p, cfg) == Some(Refused(Some(f.attempt), "old session epoch")) <==> OnOldRecord(t, p.token)
    ensures Judge(t, p, cfg) == Some(Refused(Some(f.attempt), "token retired by watermark")) <==>
            !OnRecord(t, p.token) && WindowPassed(t, f, cfg)
    ensures Judge(t, p, cfg).Some? && (Judge(t, p, cfg).value.Granted? <==>
              !OnOldRecord(t, p.token) && (OnRecord(t, p.token) || !WindowPassed(t, f, cfg)))
    ensures Judge(t, p, cfg).Some? && (Judge(t, p, cfg).value.Granted? ==>
              Judge(t, p, cfg).value.grant
              == Grant(f.attempt, f.run, f.generation, f.slot, p.session, t.epoch, p.token,
                       f.issuedAt * MICROS, (f.issuedAt + f.ttl) * MICROS))
  {
    var (stale, retired) := ("old session epoch", "token retired by watermark");
    assert stale[0] != retired[0];
  }

  /** A token that does not validate is refused with that reason, and nothing is written. */
  lemma InvalidIsRefused(t: Tables, p: Presentation, reason: string, cfg: Config)
    requires Validate(p.token, EnvOf(p, cfg), cfg.sign) == Rejected(reason)
    ensures PresentOutcome(t, p, cfg) == RefusedAuth(None, reason) && Present(t, p, cfg) == t
  {
  }

  // ── a minted token, presented and presented again ─────────────────────────

  /** The worker is healthy, its clock is not behind the watermark, and the token is its session's and in time. */
  predicate Presentable(t: Tables, p: Presentation, f: Fields, cfg: Config) {
    && cfg.skew >= 1 && p.healthy && InBounds(f, EnvOf(p, cfg))
    && (t.epoch in t.watermarks ==> t.watermarks[t.epoch] <= Millis(p.now) <= Millis(p.admitNow))
  }

  predicate MintedFor(p: Presentation, f: Fields, secret: string, cfg: Config) {
    && SeparatorFree(Parts(f)) && Mint(f, secret, cfg.sign) == Some(p.token)
    && secret != "" && (secret == p.current || p.previous == Some(secret))
  }

  lemma MintedIsGranted(t: Tables, p: Presentation, f: Fields, secret: string, cfg: Config)
    requires HexLike(cfg.sign) && MintedFor(p, f, secret, cfg) && Presentable(t, p, f, cfg)
    requires forall a | a in t.authorizations && t.authorizations[a].token == p.token ::
               t.authorizations[a].epoch == t.epoch
    ensures Judge(t, p, cfg) == Some(Granted(GrantOf(t, f, p)))
  {
    MintThenValidate(f, secret, EnvOf(p, cfg), cfg.sign);
    LiveTokenNotRetired(t, p, f, cfg);
  }

  /** The attempt is new to the journal and so is the token. */
  predicate NewTo(t: Tables, attempt: string, token: string) {
    && attempt !in t.tombstones && attempt !in t.reservations && attempt !in t.authorizations
    && forall a | a in t.authorizations :: t.authorizations[a].token != token
  }

  /** What the journal holds of an attempt once its token has been admitted. */
  predicate Holds(t: Tables, p: Presentation, f: Fields) {
    && f.attempt !in t.tombstones
    && f.attempt in t.reservations && t.reservations[f.attempt]
       == Reservation(f.run, p.pipeline, f.generation, f.slot, p.session, p.admitNow, Reserved, false)
    && f.attempt in t.authorizations && t.authorizations[f.attempt]
       == Authorization(f.run, t.epoch, p.token, f.issuedAt * MICROS, (f.issuedAt + f.ttl) * MICROS)
    && forall a | a in t.authorizations && a != f.attempt :: t.authorizations[a].token != p.token
  }

  /** The first presentation of a minted token for a new attempt, with no clock trouble, is admitted. */
  lemma FirstPresentationAdmitted(t: Tables, p: Presentation, f: Fields, secret: string, cfg: Config)
    requires HexLike(cfg.sign) && MintedFor(p, f, secret, cfg) && Presentable(t, p, f, cfg)
    requires NewTo(t, f.attempt, p.token)
    ensures PresentOutcome(t, p, cfg) == Admitted(f.attempt)
    ensures Holds(Present(t, p, cfg), p, f)
  {
    MintedIsGranted(t, p, f, secret, cfg);
    AdmittedOf(t, GrantOf(t, f, p), p.admitNow, p.healthy, cfg);
    AdmissionWrites(t, GrantOf(t, f, p), p.pipeline, p.admitNow, p.healthy, cfg);
  }

  /** And its repetition is answered as already admitted, with the reservation, and changes nothing. */
  lemma RepetitionAlreadyAdmitted(t: Tables, first: Presentation, p: Presentation, f: Fields, secret: string,
                                  cfg: Config)
    requires HexLike(cfg.sign) && MintedFor(p, f, secret, cfg) && Presentable(t, p, f, cfg)
    requires Holds(t, first, f) && first.token == p.token
    ensures PresentOutcome(t, p, cfg) == AlreadyAdmitted(f.attempt, t.reservations[f.attempt])
    ensures Present(t, p, cfg) == t
  {
    MintedIsGranted(t, p, f, secret, cfg);
    AlreadyAdmittedIff(t, GrantOf(t, f, p), p.admitNow, p.healthy, cfg);
  }

  /** Presented twice in a row, the token is admitted once and then recognised. */
  lemma PresentedTwice(t: Tables, p: Presentation, again: Presentation, f: Fields, secret: string, cfg: Config)
    requires HexLike(cfg.sign) && again.token == p.token
    requires MintedFor(p, f, secret, cfg) && Presentable(t, p, f, cfg) && NewTo(t, f.attempt, p.token)
    requires MintedFor(again, f, secret, cfg) && Presentable(Present(t, p, cfg), again, f, cfg)
    ensures PresentOutcome(t, p, cfg) == Admitted(f.attempt)
    ensures PresentOutcome(Present(t, p, cfg), again, cfg).AlreadyAdmitted?
    ensures Present(Present(t, p, cfg), again, cfg) == Present(t, p, cfg)
  {
    FirstPresentationAdmitted(t, p, f, secret, cfg);
    RepetitionAlreadyAdmitted(Present(t, p, cfg), p, again, f, secret, cfg);
  }

  // ── phases, tombstones, boots and epochs ──────────────────────────────────

  /** Only the reserved attempt itself starts running; everything else in the journal stays. */
  lemma RunningLaw(t: Tables, a: string)
    ensures var t' := MarkRunning(t, a);
            && t' == t.(reservations := t'.reservations) && t'.reservations.Keys == t.reservations.Keys
            && forall b | b in t.reservations ::
                 if b == a && t.reservations[b].phase == Reserved
                 then t'.reservations[b] == t.reservations[b].(phase := Running, threadStarted := true)
                 else t'.reservations[b] == t.reservations[b]
  {
  }

  /** After a boot no attempt is reserved or running; completed and interrupted ones are as they were. */
  lemma BootLaw(t: Tables)
    ensures var t' := MarkInterrupted(t);
            && t' == t.(reservations := t'.reservations) && t'.reservations.Keys == t.reservations.Keys
            && forall a | a in t.reservations ::
                 var (r, r') := (t.reservations[a], t'.reservations[a]);
                 && r' == r.(phase := r'.phase)
                 && (r'.phase == Completed <==> r.phase == Completed)
                 && (r'.phase == Interrupted <==> r.phase != Completed)
  {
  }

  lemma TombstoneLaw(t: Tables, a: string, run: string, reason: string, now: int)
    ensures var t' := RecordTombstone(t, a, run, reason, now);
            && t' == t.(tombstones := t'.tombstones)
            && t'.tombstones.Keys == t.tombstones.Keys + {a}
            && t'.tombstones[a].run == run && t'.tombstones[a].reason == reason
            && t'.tombstones[a].revokedAt == now && t'.tombstones[a].epoch == t.epoch
            && forall b | b in t.tombstones && b != a :: t'.tombstones[b] == t.tombstones[b]
  {
  }

  /** A new epoch starts without a watermark in every reachable journal, so its clock gate is open at any time. */
  lemma NewEpochLaw(es: seq<Event>, now: int, cfg: Config)
    ensures var (t, t') := (Run(START, es, cfg).t, AdvanceEpoch(Run(START, es, cfg).t));
            && t' == t.(epoch := t.epoch + 1) && t'.epoch !in t'.watermarks
            && (ClockFine(t', now, cfg) <==> cfg.skew >= 0)
  {
    RunKeepsInv(START, es, cfg);
  }

  /** Recovery does the same and sets the new epoch's watermark to the clock it reads. */
  lemma RecoveryLaw(es: seq<Event>, now: int, later: int, cfg: Config)
    ensures var (t, t') := (Run(START, es, cfg).t, RecoverClock(Run(START, es, cfg).t, now));
            && t' == t.(epoch := t.epoch + 1, watermarks := t.watermarks[t.epoch + 1 := Millis(now)])
            && (ClockFine(t', later, cfg) <==> cfg.skew >= 0 && Millis(now) <= Millis(later) + cfg.skew * 1000)
  {
    RunKeepsInv(START, es, cfg);
  }

  // ── what sweeps delete ────────────────────────────────────────────────────

  predicate TokenExpired(t: Tables, a: string, now: int, cfg: Config) {
    a in t.authorizations && t.authorizations[a].expiresAt + cfg.skew * MICROS <= now
  }

  predicate Resolved(t: Tables, a: string, now: int, cfg: Config) {
    a in t.tombstones && t.tombstones[a].revokedAt + cfg.replay * MICROS <= now && TokenExpired(t, a, now, cfg)
  }

  predicate Aged(t: Tables, a: string, now: int, cfg: Config) {
    && a in t.completions && t.completions[a].ackedAt.Some?
    && t.completions[a].ackedAt.value + cfg.audit * MICROS <= now
  }

  /** GC deletes exactly the expired tokens and the tombstones of their attempts, and never a reservation. */
  lemma GcLaw(t: Tables, now: int, cfg: Config, a: string)
    ensures var t' := GcExpired(t, now, cfg);
            && (a in t'.authorizations <==> a in t.authorizations && !TokenExpired(t, a, now, cfg))
            && (a in t'.authorizations ==> t'.authorizations[a] == t.authorizations[a])
            && (a in t'.tombstones <==> a in t.tombstones && !TokenExpired(t, a, now, cfg))
            && (a in t'.tombstones ==> t'.tombstones[a] == t.tombstones[a])
            && t' == t.(authorizations := t'.authorizations, tombstones := t'.tombstones,
                        watermarks := t.watermarks[t.epoch := NewMark(t, now)])
  {
  }

  /** Retention deletes exactly the aged completions with their rows, and the resolved tombstones. */
  lemma RetentionLaw(t: Tables, now: int, cfg: Config, a: string)
    ensures var t' := CleanupRetention(t, now, cfg);
            && (a in t'.completions <==> a in t.completions && !Aged(t, a, now, cfg))
            && (a in t'.completions ==> t'.completions[a] == t.completions[a])
            && (a in t'.tombstones <==> a in t.tombstones && !Resolved(t, a, now, cfg))
            && (a in t'.tombstones ==> t'.tombstones[a] == t.tombstones[a])
            && (forall r :: r in t'.outbox <==> r in t.outbox && !Aged(t, r.attempt, now, cfg))
            && t' == t.(completions := t'.completions, tombstones := t'.tombstones, outbox := t'.outbox,
                        watermarks := t.watermarks[t.epoch := NewMark(t, now)])
  {
  }

  // ── how long a result stays ───────────────────────────────────────────────

  /** No sweep of the run comes so late that the result has aged. */
  predicate SweptBefore(es: seq<Event>, end: int) {
    forall e | e in es && e.ERetention? :: e.now < end
  }

  lemma StepKeepsAcked(t: Tables, e: Event, cfg: Config, a: string)
    requires a in t.completions && t.completions[a].ackedAt.Some?
    requires e.ERetention? ==> e.now < t.completions[a].ackedAt.value + cfg.audit * MICROS
    ensures var t' := Step(t, e, cfg); a in t'.completions && t'.completions[a] == t.completions[a]
  {
    if e.EAdmit? || e.EPresent? {
      AdmitEffect(t, e, cfg);
    } else if e.ERespool? {
      RespoolFrame(t, e.scan, e.now);
    } else if e.ERetention? {
      RetentionLaw(t, e.now, cfg, a);
    }
  }

  /** First result wins for as long as the audit period: an acked result stays unchanged until a sweep after it. */
  lemma {:induction false} AckedResultLasts(w: World, es: seq<Event>, cfg: Config, a: string)
    requires a in w.t.completions && w.t.completions[a].ackedAt.Some?
    requires SweptBefore(es, w.t.completions[a].ackedAt.value + cfg.audit * MICROS)
    ensures var t := Run(w, es, cfg).t; a in t.completions && t.completions[a] == w.t.completions[a]
  {
    if es != [] {
      var (init, e) := (es[..|es| - 1], es[|es| - 1]);
      assert e in es && forall x | x in init :: x in es;
      AckedResultLasts(w, init, cfg, a);
      StepKeepsAcked(Run(w, init, cfg).t, e, cfg, a);
    }
  }

  lemma StepKeepsUnacked(t: Tables, e: Event, cfg: Config, a: string)
    requires a in t.completions && t.completions[a].ackedAt.None?
    ensures var t' := Step(t, e, cfg);
            && a in t'.completions
            && t'.completions[a] == t.completions[a].(ackedAt := t'.completions[a].ackedAt)
            && (t'.completions[a].ackedAt.Some? ==> e == EAck(a, t'.completions[a].ackedAt.value))
  {
    if e.EAdmit? || e.EPresent? {
      AdmitEffect(t, e, cfg);
    } else if e.ERespool? {
      RespoolFrame(t, e.scan, e.now);
    } else if e.ERetention? {
      RetentionLaw(t, e.now, cfg, a);
    }
  }

  /** A result that was never acked is never deleted and never changes. */
  lemma {:induction false} UnackedResultStays(w: World, es: seq<Event>, cfg: Config, a: string)
    requires a in w.t.completions && w.t.completions[a].ackedAt.None?
    requires forall e | e in es && e.EAck? :: e.attempt != a
    ensures var t := Run(w, es, cfg).t; a in t.completions && t.completions[a] == w.t.completions[a]
  {
    if es != [] {
      var (init, e) := (es[..|es| - 1], es[|es| - 1]);
      assert e in es && forall x | x in init :: x in es;
      UnackedResultStays(w, init, cfg, a);
      StepKeepsUnacked(Run(w, init, cfg).t, e, cfg, a);
    }
  }

  /** A result that a run deleted was acked and had aged when a sweep came. */
  lemma {:induction false} AgedByASweep(es: seq<Event>, cfg: Config, a: string) returns (i: nat)
    requires a in Run(START, es, cfg).aged
    ensures i < |es| && es[i].ERetention? && Aged(Run(START, es[..i], cfg).t, a, es[i].now, cfg)
  {
    var (init, e) := (es[..|es| - 1], es[|es| - 1]);
    if a in Run(START, init, cfg).aged {
      i := AgedByASweep(init, cfg, a);
      assert init[..i] == es[..i];
    } else {
      i := |init|;
    }
  }

  /** In every run a completed attempt has its result, or a sweep deleted it after the audit period of its ack. */
  lemma CompletedKeepsResult(es: seq<Event>, cfg: Config, a: string)
    requires var t := Run(START, es, cfg).t; a in t.reservations && t.reservations[a].phase == Completed
    ensures a in Run(START, es, cfg).t.completions ||
            exists i | 0 <= i < |es| :: es[i].ERetention? && Aged(Run(START, es[..i], cfg).t, a, es[i].now, cfg)
  {
    CompletedHasRow(es, a, cfg);
    if a !in Run(START, es, cfg).t.completions {
      var i := AgedByASweep(es, cfg, a);
    }
  }

  // ── the outbox ────────────────────────────────────────────────────────────

  function AllDue(outbox: seq<OutboxRow>, now: int): seq<OutboxRow> {
    if outbox == [] then [] else
      (if outbox[0].nextAt <= now then [outbox[0]] else []) + AllDue(outbox[1..], now)
  }

  /** A fetch takes the first due rows in sequence order, as many as the limit allows. */
  lemma {:induction false} FetchTakesFirstDue(outbox: seq<OutboxRow>, now: int, limit: nat)
    ensures var all := AllDue(outbox, now);
            DueRows(outbox, now, limit) == if |all| <= limit then all else all[..limit]
  {
    if outbox != [] && limit > 0 {
      FetchTakesFirstDue(outbox[1..], now, if outbox[0].nextAt <= now then limit - 1 else limit);
    }
  }

  /** The delay doubles from one second to 256 and is 300 seconds from the tenth failure on. */
  lemma BackoffDoubles(n: nat)
    requires n >= 1
    ensures BackoffSeconds(1) == 1 && BackoffSeconds(2) == 2 && BackoffSeconds(3) == 4 && BackoffSeconds(4) == 8
    ensures BackoffSeconds(5) == 16 && BackoffSeconds(6) == 32 && BackoffSeconds(7) == 64 && BackoffSeconds(8) == 128
    ensures BackoffSeconds(9) == 256 && (n >= 10 ==> BackoffSeconds(n) == 300)
  {
    assert Pow2(1) == 2 && Pow2(2) == 4 && Pow2(3) == 8 && Pow2(4) == 16 && Pow2(5) == 32;
    assert Pow2(6) == 64 && Pow2(7) == 128 && Pow2(8) == 256 && Pow2(9) == 512;
    if n >= 10 {
      Pow2Grows(9, n - 1);
    }
  }

  lemma {:induction false} Pow2Grows(n: nat, m: nat)
    requires n <= m
    ensures Pow2(n) <= Pow2(m)
  {
    if n < m {
      Pow2Grows(n, m - 1);
    }
  }

  /** Recording a failure touches one row: one more failure, its error, and the delay from now. */
  lemma FailureLaw(t: Tables, i: nat, error: string, now: int)
    requires i < |t.outbox| && (forall j | 0 <= j < i :: t.outbox[j].seqno != t.outbox[i].seqno)
    requires t.outbox[i].attempts < 1024
    ensures var (row, t') := (t.outbox[i], RecordFailure(t, t.outbox[i].seqno, error, now));
            && t' == t.(outbox := t'.outbox) && |t'.outbox| == |t.outbox|
            && t'.outbox[i] == row.(attempts := row.attempts + 1, lastError := Some(error),
                                    nextAt := now + BackoffSeconds(row.attempts + 1) * MICROS)
            && forall j | 0 <= j < |t.outbox| && j != i :: t'.outbox[j] == t.outbox[j]
  {
  }

  /** What recording a completion does: the first result wins, its attempt is completed, nothing else moves. */
  lemma CompletionLaw(t: Tables, a: string, result: string, run: Option<string>, now: int)
    ensures var t' := RecordCompletion(t, a, result, run, now);
            if run.None? && a !in t.reservations then t' == t else
              && a in t'.completions
              && (a in t.completions ==> t'.completions == t.completions)
              && (a !in t.completions ==>
                    t'.completions == t.completions[a :=
                      Completion(if run.Some? then run.value else t.reservations[a].run, result, now, None)])
              && t'.reservations.Keys == t.reservations.Keys
              && (forall b | b in t.reservations ::
                    t'.reservations[b] == if b == a then t.reservations[b].(phase := Completed) else t.reservations[b])
              && t' == t.(completions := t'.completions, reservations := t'.reservations)
  {
  }

  /** An ack stamps an unstamped result once and takes the attempt's rows, and only those, out of the outbox. */
  lemma AckLaw(t: Tables, a: string, now: int)
    ensures var t' := MarkAcked(t, a, now);
            && t' == t.(completions := t'.completions, outbox := t'.outbox)
            && t'.completions.Keys == t.completions.Keys
            && (forall b | b in t.completions ::
                  t'.completions[b] == if b == a && t.completions[b].ackedAt.None?
                                       then t.completions[b].(ackedAt := Some(now)) else t.completions[b])
            && (forall r :: r in t'.outbox <==> r in t.outbox && r.attempt != a)
  {
  }

  /** A respooled result is due at once, at the end, under a new number; rows that are there stay as they are. */
  lemma RespoolLaw(t: Tables, a: string, now: int)
    ensures var t' := RespoolOne(t, a, now);
            && t' == t.(outbox := t'.outbox, nextSeq := t'.nextSeq)
            && (if && a in t.completions && t.completions[a].ackedAt.None?
                   && (forall r | r in t.outbox && r.attempt == a :: r.kind != RUN_COMPLETE)
                then && t'.nextSeq == t.nextSeq + 1
                     && t'.outbox == t.outbox + [OutboxRow(t.nextSeq, a, RUN_COMPLETE, t.completions[a].result,
                                                           now, 0, None)]
                else t' == t)
  {
  }

  /** What an attempt is reported as: a tombstone first, then its result, then its reservation. */
  lemma AttemptReport(t: Tables, a: string)
    ensures GetAttempt(t, a) == KTombstone <==> a in t.tombstones
    ensures GetAttempt(t, a) == KCompletion(true) <==>
            a !in t.tombstones && a in t.completions && t.completions[a].ackedAt.Some?
    ensures GetAttempt(t, a) == KCompletion(false) <==>
            && a !in t.tombstones
            && (|| (a in t.completions && t.completions[a].ackedAt.None?)
                || (a !in t.completions && a in t.reservations && t.reservations[a].phase == Completed))
    ensures GetAttempt(t, a) == KActive <==>
            && a !in t.tombstones && a !in t.completions && a in t.reservations
            && (t.reservations[a].phase == Reserved || t.reservations[a].phase == Running)
    ensures GetAttempt(t, a) == KUnknown <==> a !in t.tombstones && a !in t.completions && a !in t.reservations
  {
  }
}
