/**
 The worker journal's tables and its transactions as functions on them: each function gives
 the whole committed state, and returns the tables unchanged where the source rolls back.
 Instants are microseconds (Timestamps shows that the stored texts compare the same way).
 The `token_hash` column holds the token itself, which stands for a collision-free hash.
 */
module JournalTables {
  import opened Basics
  import opened AuthTokens

  datatype Phase = Reserved | Running | Interrupted | Completed

  datatype Reservation = Reservation(run: string, pipeline: string, generation: int, slot: string,
                                     session: string, reservedAt: int, phase: Phase, threadStarted: bool)

  datatype Tombstone = Tombstone(run: string, reason: string, revokedAt: int, epoch: int)

  datatype Authorization = Authorization(run: string, epoch: int, token: string, issuedAt: int, expiresAt: int)

  /** `ackedAt` carries the source's `acked` flag: the two columns are always set together. */
  datatype Completion = Completion(run: string, result: string, completedAt: int, ackedAt: Option<int>)

  datatype OutboxRow = OutboxRow(seqno: nat, attempt: string, kind: string, payload: string,
                                 nextAt: int, attempts: nat, lastError: Option<string>)

  datatype Tables = Tables(epoch: int,
                           reservations: map<string, Reservation>,
                           tombstones: map<string, Tombstone>,
                           authorizations: map<string, Authorization>,
                           watermarks: map<int, int>,
                           completions: map<string, Completion>,
                           outbox: seq<OutboxRow>,
                           nextSeq: nat)

  const FRESH := Tables(1, map[], map[], map[], map[], map[], [], 1)
  const RUN_COMPLETE := "run-complete"
  const BACKOFF_CAP_S := 300

  /** Settings in seconds, and the MAC. */
  datatype Config = Config(maxTtl: int, skew: int, audit: int, replay: int, sign: Sign)

  datatype Grant = Grant(attempt: string, run: string, generation: int, slot: string, session: string,
                         epoch: int, token: string, issuedAt: int, expiresAt: int)

  datatype Decision = Refused(attempt: Option<string>, reason: string) | Granted(grant: Grant)

  datatype Outcome =
    | Admitted(attempt: string)
    | AlreadyAdmitted(attempt: string, existing: Reservation)
    | Revoked(attempt: string, reason: string, revokedAt: int)
    | RefusedAuth(who: Option<string>, reason: string)
    | Closed
    | Conflict(attempt: string)
    | Failed

  // ── clock ─────────────────────────────────────────────────────────────────

  function Truncate(n: int, unit: int): int
    requires unit > 0
  {
    if n >= 0 then n / unit else -((-n) / unit)
  }

  /** `int(dt.timestamp() * 1000)` and `int(dt.timestamp())`: truncation toward zero. */
  function Millis(now: int): int { Truncate(now, 1000) }

  function Seconds(now: int): int { Truncate(now, MICROS) }

  function Max(a: int, b: int): int { if a < b then b else a }

  function Advance(watermarks: map<int, int>, epoch: int, ms: int): map<int, int> {
    watermarks[epoch := if epoch in watermarks then Max(watermarks[epoch], ms) else ms]
  }

  predicate ClockBehind(watermarks: map<int, int>, epoch: int, now: int, cfg: Config) {
    epoch in watermarks && Millis(now) < watermarks[epoch] - cfg.skew * 1000
  }

  // ── admission ─────────────────────────────────────────────────────────────

  predicate TokenInUse(t: Tables, token: string) {
    exists a | a in t.authorizations :: t.authorizations[a].token == token
  }

  predicate TokenFromOldEpoch(t: Tables, token: string) {
    exists a | a in t.authorizations ::
      t.authorizations[a].token == token && t.authorizations[a].epoch != t.epoch
  }

  predicate SameIdentity(r: Reservation, g: Grant) {
    r.run == g.run && r.generation == g.generation && r.slot == g.slot
  }

  function AdmitOutcome(t: Tables, d: Decision, now: int, healthy: bool, cfg: Config): Outcome {
    match d
    case Refused(attempt, reason) => RefusedAuth(attempt, reason)
    case Granted(g) =>
      if !healthy || ClockBehind(Advance(t.watermarks, t.epoch, Millis(now)), t.epoch, now, cfg) then Closed
      else if g.attempt !in t.authorizations && TokenInUse(t, g.token) then Conflict(g.attempt)
      else if g.attempt in t.tombstones then
        Revoked(g.attempt, t.tombstones[g.attempt].reason, t.tombstones[g.attempt].revokedAt)
      else if g.attempt in t.reservations then
        if SameIdentity(t.reservations[g.attempt], g) then AlreadyAdmitted(g.attempt, t.reservations[g.attempt])
        else Conflict(g.attempt)
      else Admitted(g.attempt)
  }

  /** Only `Admitted` commits; every other path leaves the tables as they were. */
  function Admit(t: Tables, d: Decision, pipeline: string, now: int, healthy: bool, cfg: Config): Tables {
    if !AdmitOutcome(t, d, now, healthy, cfg).Admitted? then t else
      var g := d.grant;
      t.(watermarks := Advance(t.watermarks, t.epoch, Millis(now)),
         authorizations := if g.attempt in t.authorizations then t.authorizations
                           else t.authorizations[g.attempt :=
                             Authorization(g.run, g.epoch, g.token, g.issuedAt, g.expiresAt)],
         reservations := t.reservations[g.attempt :=
           Reservation(g.run, pipeline, g.generation, g.slot, g.session, now, Reserved, false)])
  }

  /** One token presentation; validation and admission each read the clock. */
  datatype Presentation = Presentation(token: string, pipeline: string, session: string, current: string,
                                       previous: Option<string>, now: int, admitNow: int, healthy: bool)

  function EnvOf(p: Presentation, cfg: Config): Env {
    Env(p.session, p.current, p.previous, cfg.maxTtl, cfg.skew, Seconds(p.now))
  }

  function WindowEndMillis(f: Fields, cfg: Config): int {
    (f.issuedAt + f.ttl + cfg.skew) * 1000
  }

  predicate RetiredByWatermark(t: Tables, f: Fields, cfg: Config) {
    t.epoch in t.watermarks && t.watermarks[t.epoch] >= WindowEndMillis(f, cfg)
  }

  function GrantOf(t: Tables, f: Fields, p: Presentation): Grant {
    Grant(f.attempt, f.run, f.generation, f.slot, p.session, t.epoch, p.token,
          f.issuedAt * MICROS, (f.issuedAt + f.ttl) * MICROS)
  }

  /** The decision a presentation reaches before the admission transaction, or `None` for a raised error. */
  function Judge(t: Tables, p: Presentation, cfg: Config): Option<Decision> {
    match Validate(p.token, EnvOf(p, cfg), cfg.sign)
    case Raised => None
    case Rejected(reason) => Some(Refused(None, reason))
    case Accepted(f) =>
      if TokenInUse(t, p.token) then
        if TokenFromOldEpoch(t, p.token) then Some(Refused(Some(f.attempt), "old session epoch"))
        else Some(Granted(GrantOf(t, f, p)))
      else if RetiredByWatermark(t, f, cfg) then Some(Refused(Some(f.attempt), "token retired by watermark"))
      else Some(Granted(GrantOf(t, f, p)))
  }

  function PresentOutcome(t: Tables, p: Presentation, cfg: Config): Outcome {
    match Judge(t, p, cfg)
    case None => Failed
    case Some(d) => AdmitOutcome(t, d, p.admitNow, p.healthy, cfg)
  }

  function Present(t: Tables, p: Presentation, cfg: Config): Tables {
    match Judge(t, p, cfg)
    case None => t
    case Some(d) => Admit(t, d, p.pipeline, p.admitNow, p.healthy, cfg)
  }

  // ── run life cycle ────────────────────────────────────────────────────────

  function MarkRunning(t: Tables, a: string): Tables {
    if a in t.reservations && t.reservations[a].phase == Reserved then
      t.(reservations := t.reservations[a := t.reservations[a].(phase := Running, threadStarted := true)])
    else t
  }

  function RecordTombstone(t: Tables, a: string, run: string, reason: string, now: int): Tables {
    t.(tombstones := t.tombstones[a := Tombstone(run, reason, now, t.epoch)])
  }

  function BootPhase(p: Phase): Phase {
    if p == Reserved || p == Running then Interrupted else p
  }

  function MarkInterrupted(t: Tables): Tables {
    t.(reservations := map a | a in t.reservations ::
         t.reservations[a].(phase := BootPhase(t.reservations[a].phase)))
  }

  // ── completions and the outbox ────────────────────────────────────────────

  predicate HasRow(outbox: seq<OutboxRow>, a: string) {
    exists r | r in outbox :: r.attempt == a && r.kind == RUN_COMPLETE
  }

  function NewRow(t: Tables, a: string, kind: string, payload: string, now: int): OutboxRow {
    OutboxRow(t.nextSeq, a, kind, payload, now, 0, None)
  }

  function Enqueue(t: Tables, a: string, kind: string, payload: string, now: int): Tables {
    t.(outbox := t.outbox + [NewRow(t, a, kind, payload, now)], nextSeq := t.nextSeq + 1)
  }

  /** The `INSERT ... SELECT` of the respool, for one attempt. */
  function RespoolOne(t: Tables, a: string, now: int): Tables {
    if a in t.completions && t.completions[a].ackedAt.None? && !HasRow(t.outbox, a) then
      Enqueue(t, a, RUN_COMPLETE, t.completions[a].result, now)
    else t
  }

  /** The respool over the completion rows in the order the scan meets them. */
  function Respool(t: Tables, scan: seq<string>, now: int): Tables {
    if scan == [] then t else RespoolOne(Respool(t, scan[..|scan| - 1], now), scan[|scan| - 1], now)
  }

  /** A completion without a run id needs a reservation to take it from; otherwise nothing commits. */
  predicate CanComplete(t: Tables, a: string, run: Option<string>) {
    run.Some? || a in t.reservations
  }

  function RecordCompletion(t: Tables, a: string, result: string, run: Option<string>, now: int): Tables {
    if !CanComplete(t, a, run) then t else
      var id := if run.Some? then run.value else t.reservations[a].run;
      t.(reservations := if a in t.reservations then t.reservations[a := t.reservations[a].(phase := Completed)]
                         else t.reservations,
         completions := if a in t.completions then t.completions
                        else t.completions[a := Completion(id, result, now, None)])
  }

  function CompleteAndEnqueue(t: Tables, a: string, result: string, run: Option<string>, now: int): Tables {
    if CanComplete(t, a, run) then RespoolOne(RecordCompletion(t, a, result, run, now), a, now) else t
  }

  function RowsExcept(outbox: seq<OutboxRow>, gone: set<string>): (rest: seq<OutboxRow>)
    ensures forall r :: r in rest <==> r in outbox && r.attempt !in gone
  {
    if outbox == [] then [] else
      var rest := RowsExcept(outbox[1..], gone);
      assert outbox == [outbox[0]] + outbox[1..];
      if outbox[0].attempt in gone then rest else [outbox[0]] + rest
  }

  function MarkAcked(t: Tables, a: string, now: int): Tables {
    t.(completions := if a in t.completions && t.completions[a].ackedAt.None?
                      then t.completions[a := t.completions[a].(ackedAt := Some(now))] else t.completions,
       outbox := RowsExcept(t.outbox, {a}))
  }

  predicate IsDue(r: OutboxRow, now: int) {
    r.nextAt <= now
  }

  /** Due rows in sequence order, at most `limit` of them. */
  function DueRows(outbox: seq<OutboxRow>, now: int, limit: nat): (due: seq<OutboxRow>)
    ensures |due| <= limit
    ensures forall r | r in due :: r in outbox && IsDue(r, now)
  {
    if outbox == [] || limit == 0 then []
    else if IsDue(outbox[0], now) then [outbox[0]] + DueRows(outbox[1..], now, limit - 1)
    else DueRows(outbox[1..], now, limit)
  }

  function Pow2(n: nat): nat {
    if n == 0 then 1 else 2 * Pow2(n - 1)
  }

  /** `1.0 * 2 ** n` overflows a double exactly from `n == 1024` on. */
  predicate BackoffOverflows(attempts: nat) {
    attempts > 1024
  }

  function BackoffSeconds(attempts: nat): nat
    requires attempts >= 1
  {
    if Pow2(attempts - 1) < BACKOFF_CAP_S then Pow2(attempts - 1) else BACKOFF_CAP_S
  }

  function IndexOf(outbox: seq<OutboxRow>, seqno: nat): (i: nat)
    ensures i <= |outbox|
    ensures i < |outbox| ==> outbox[i].seqno == seqno
    ensures forall j | 0 <= j < i :: outbox[j].seqno != seqno
  {
    if outbox == [] || outbox[0].seqno == seqno then 0 else IndexOf(outbox[1..], seqno) + 1
  }

  /** Whether recording a failure of this row commits: the row exists and its delay is representable. */
  predicate CanBackOff(t: Tables, seqno: nat) {
    var i := IndexOf(t.outbox, seqno);
    i < |t.outbox| && !BackoffOverflows(t.outbox[i].attempts + 1)
  }

  function RecordFailure(t: Tables, seqno: nat, error: string, now: int): Tables {
    if !CanBackOff(t, seqno) then t else
      var i := IndexOf(t.outbox, seqno);
      var r := t.outbox[i];
      t.(outbox := t.outbox[i := r.(attempts := r.attempts + 1, lastError := Some(error),
                                    nextAt := now + BackoffSeconds(r.attempts + 1) * MICROS)])
  }

  // ── queries ───────────────────────────────────────────────────────────────

  datatype Kind = KTombstone | KCompletion(acked: bool) | KActive | KInterrupted | KUnknown

  /** `get_attempt`: tombstone before completion before reservation. */
  function GetAttempt(t: Tables, a: string): Kind {
    if a in t.tombstones then KTombstone
    else if a in t.completions then KCompletion(t.completions[a].ackedAt.Some?)
    else if a !in t.reservations then KUnknown
    else match t.reservations[a].phase
      case Reserved => KActive
      case Running => KActive
      case Interrupted => KInterrupted
      case Completed => KCompletion(false)
  }

  // ── epochs, GC and retention ──────────────────────────────────────────────

  function AdvanceEpoch(t: Tables): Tables {
    t.(epoch := t.epoch + 1)
  }

  function RecoverClock(t: Tables, now: int): Tables {
    t.(epoch := t.epoch + 1, watermarks := Advance(t.watermarks, t.epoch + 1, Millis(now)))
  }

  predicate Admitting(t: Tables, now: int, cfg: Config) {
    !ClockBehind(t.watermarks, t.epoch, now, cfg)
  }

  function Expired(t: Tables, now: int, cfg: Config): set<string> {
    set a | a in t.authorizations && t.authorizations[a].expiresAt <= now - cfg.skew * MICROS
  }

  function GcExpired(t: Tables, now: int, cfg: Config): Tables {
    t.(watermarks := Advance(t.watermarks, t.epoch, Millis(now)),
       authorizations := t.authorizations - Expired(t, now, cfg),
       tombstones := t.tombstones - Expired(t, now, cfg))
  }

  function AckedBefore(t: Tables, cutoff: int): set<string> {
    set a | a in t.completions && t.completions[a].ackedAt.Some? && t.completions[a].ackedAt.value <= cutoff
  }

  function ResolvedTombstones(t: Tables, now: int, cfg: Config): set<string> {
    set a | a in t.tombstones && t.tombstones[a].revokedAt <= now - cfg.replay * MICROS && a in Expired(t, now, cfg)
  }

  function CleanupRetention(t: Tables, now: int, cfg: Config): Tables {
    var gone := AckedBefore(t, now - cfg.audit * MICROS);
    t.(watermarks := Advance(t.watermarks, t.epoch, Millis(now)),
       completions := t.completions - gone,
       outbox := RowsExcept(t.outbox, gone),
       tombstones := t.tombstones - ResolvedTombstones(t, now, cfg))
  }
}
