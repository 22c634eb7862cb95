/**
 Delivery of completions: drain passes against a manager that may refuse anything, with the
 process free to crash between any two steps and any number of passes overlapping.
 */
module OutboxDrain {
  import opened Basics
  import opened JournalTables
  import opened JournalRuns

  const BATCH := 10

  /** What the manager (or the transport, or payload parsing) made of one delivery. */
  datatype Reply = Accepts | Rejects(error: string)

  // ── safety: what is stored, delivered and acked ───────────────────────────

  /**
   `accepted` is what the manager has committed.  A pass holds rows in memory: `fetched` from the
   outbox, `cleared` by the check that the attempt is not acked, `posted` and accepted but not yet
   acked.  `first` is the first result recorded for each stored completion, and `stranded` the
   completions written by the compatibility primitive and not yet respooled.
   */
  datatype Sys = Sys(t: Tables, accepted: set<(string, string)>, fetched: set<OutboxRow>, cleared: set<OutboxRow>,
                     posted: set<OutboxRow>, first: map<string, string>, stranded: set<string>)

  const BOOT := Sys(FRESH, {}, {}, {}, {}, map[], {})

  datatype Move =
    | Worker(e: Event)
    | Fetch(now: int)
    | Clear(row: OutboxRow)
    | Post(row: OutboxRow, reply: Reply, now: int)
    | Ack(row: OutboxRow, now: int)
    | Forget(row: OutboxRow)
    | Crash

  /** The outbox is written only by the completion paths and the drain itself. */
  predicate Allowed(s: Sys, m: Move) {
    match m
    case Worker(e) => !e.EEnqueue? && !e.EAck? && !e.EFail?
    case Clear(row) => row in s.fetched && GetAttempt(s.t, row.attempt) != KCompletion(true)
    case Post(row, _, _) => row in s.cleared
    case Ack(row, _) => row in s.posted
    case _ => true
  }

  function FirstAfter(s: Sys, t': Tables): map<string, string> {
    map a | a in t'.completions :: if a in s.t.completions && a in s.first then s.first[a] else t'.completions[a].result
  }

  function StrandedAfter(s: Sys, e: Event): set<string> {
    match e
    case ERecord(a, _, run, _) =>
      if a in s.t.completions || !CanComplete(s.t, a, run) then s.stranded else s.stranded + {a}
    case EComplete(a, _, run, _) => if CanComplete(s.t, a, run) then s.stranded - {a} else s.stranded
    case ERespool(scan, _) => s.stranded - SetOf(scan)
    case _ => s.stranded
  }

  function Do(s: Sys, m: Move, cfg: Config): Sys {
    if !Allowed(s, m) then s else
      match m
      case Worker(e) =>
        var t' := Step(s.t, e, cfg);
        s.(t := t', first := FirstAfter(s, t'), stranded := StrandedAfter(s, e))
      case Fetch(now) =>
        var due := DueRows(s.t.outbox, now, BATCH);
        s.(fetched := s.fetched + set r | r in due)
      case Clear(row) => s.(cleared := s.cleared + {row})
      case Post(row, reply, now) =>
        if reply.Accepts? then
          s.(accepted := s.accepted + {(row.attempt, row.payload)}, posted := s.posted + {row})
        else s.(t := RecordFailure(s.t, row.seqno, reply.error, now))
      case Ack(row, now) => s.(t := MarkAcked(s.t, row.attempt, now))
      case Forget(row) => s.(fetched := s.fetched - {row}, cleared := s.cleared - {row}, posted := s.posted - {row})
      case Crash => s.(fetched := {}, cleared := {}, posted := {})
  }

  function DoAll(s: Sys, ms: seq<Move>, cfg: Config): Sys {
    if ms == [] then s else Do(DoAll(s, ms[..|ms| - 1], cfg), ms[|ms| - 1], cfg)
  }

  // ── the invariant ─────────────────────────────────────────────────────────

  ghost predicate DistinctAttempts(outbox: seq<OutboxRow>) {
    forall i, j | 0 <= i < j < |outbox| :: outbox[i].attempt != outbox[j].attempt
  }

  /** Each row is the only one of its attempt and carries the stored, unacked result. */
  ghost predicate RowsOk(t: Tables) {
    && DistinctAttempts(t.outbox)
    && forall r | r in t.outbox ::
         && r.kind == RUN_COMPLETE && r.attempt in t.completions
         && t.completions[r.attempt].ackedAt.None? && t.completions[r.attempt].result == r.payload
  }

  ghost predicate Unacked(t: Tables, a: string) {
    a in t.completions && t.completions[a].ackedAt.None?
  }

  ghost predicate Spooled(t: Tables, stranded: set<string>) {
    forall a | Unacked(t, a) && a !in stranded :: HasRow(t.outbox, a)
  }

  ghost predicate FirstOk(s: Sys) {
    forall a | a in s.t.completions :: a in s.first && s.first[a] == s.t.completions[a].result
  }

  ghost predicate PostedOk(s: Sys) {
    s.cleared <= s.fetched && forall r | r in s.posted :: r in s.fetched && (r.attempt, r.payload) in s.accepted
  }

  /** What every move keeps, whatever the passes hold. */
  ghost predicate Stored(s: Sys) {
    RowsOk(s.t) && Spooled(s.t, s.stranded) && FirstOk(s) && PostedOk(s)
  }

  /** Completion rows that stay keep their result and are not unacked or acked by this step. */
  ghost predicate KeepsResults(t: Tables, t': Tables) {
    forall a | a in t'.completions && a in t.completions :: t'.completions[a] == t.completions[a]
  }

  lemma {:induction false} RowsExceptDistinct(outbox: seq<OutboxRow>, gone: set<string>)
    requires DistinctAttempts(outbox)
    ensures DistinctAttempts(RowsExcept(outbox, gone))
  {
    if outbox != [] {
      RowsExceptDistinct(outbox[1..], gone);
      var rest := RowsExcept(outbox[1..], gone);
      forall k | 0 <= k < |rest| ensures rest[k].attempt != outbox[0].attempt {
        assert rest[k] in outbox[1..];
      }
    }
  }

  lemma RespoolOneOk(t: Tables, a: string, now: int, stranded: set<string>)
    requires RowsOk(t) && Spooled(t, stranded)
    ensures var t' := RespoolOne(t, a, now);
            RowsOk(t') && Spooled(t', stranded - {a}) && t'.completions == t.completions
  {
    var t' := RespoolOne(t, a, now);
    if t' != t {
      var row := NewRow(t, a, RUN_COMPLETE, t.completions[a].result, now);
      assert t'.outbox == t.outbox + [row];
      assert row in t'.outbox;
      assert forall i | 0 <= i < |t.outbox| :: t.outbox[i] in t.outbox;
      assert forall b | HasRow(t.outbox, b) :: HasRow(t'.outbox, b);
    }
  }

  lemma {:induction false} RespoolOk(t: Tables, scan: seq<string>, now: int, stranded: set<string>)
    requires RowsOk(t) && Spooled(t, stranded)
    ensures var t' := Respool(t, scan, now);
            RowsOk(t') && Spooled(t', stranded - SetOf(scan)) && t'.completions == t.completions
  {
    if scan == [] {
      assert stranded - SetOf(scan) == stranded;
    } else {
      var (init, a) := (scan[..|scan| - 1], scan[|scan| - 1]);
      RespoolOk(t, init, now, stranded);
      RespoolOneOk(Respool(t, init, now), a, now, stranded - SetOf(init));
      assert stranded - SetOf(init) - {a} == stranded - SetOf(scan) by {
        assert scan == init + [a];
      }
    }
  }

  /** Worker steps that leave completions and the outbox alone. */
  ghost predicate Bystander(e: Event) {
    !e.EComplete? && !e.ERecord? && !e.ERespool? && !e.ERetention? && !e.EEnqueue? && !e.EAck? && !e.EFail?
  }

  lemma BystanderFrame(t: Tables, e: Event, cfg: Config)
    requires Bystander(e)
    ensures Step(t, e, cfg).completions == t.completions && Step(t, e, cfg).outbox == t.outbox
  {
    if e.EAdmit? || e.EPresent? {
      AdmitEffect(t, e, cfg);
    }
  }

  lemma RecordOk(t: Tables, a: string, result: string, run: Option<string>, now: int, stranded: set<string>)
    requires RowsOk(t) && Spooled(t, stranded)
    ensures var t' := RecordCompletion(t, a, result, run, now);
            && RowsOk(t') && KeepsResults(t, t') && t'.outbox == t.outbox
            && t'.completions.Keys <= t.completions.Keys + {a} && t.completions.Keys <= t'.completions.Keys
            && (a in t'.completions && a !in t.completions ==> t'.completions[a].ackedAt.None?)
            && Spooled(t', if a in t.completions || !CanComplete(t, a, run) then stranded else stranded + {a})
  {
    var t' := RecordCompletion(t, a, result, run, now);
    assert forall r | r in t.outbox :: r.attempt in t.completions;
  }

  lemma CompleteOk(t: Tables, a: string, result: string, run: Option<string>, now: int, stranded: set<string>)
    requires RowsOk(t) && Spooled(t, stranded)
    ensures var t' := CompleteAndEnqueue(t, a, result, run, now);
            && RowsOk(t') && KeepsResults(t, t')
            && t'.completions.Keys <= t.completions.Keys + {a} && t.completions.Keys <= t'.completions.Keys
            && (a in t'.completions && a !in t.completions ==> t'.completions[a].ackedAt.None?)
            && (CanComplete(t, a, run) ==> Spooled(t', stranded - {a}))
            && (!CanComplete(t, a, run) ==> t' == t)
  {
    if CanComplete(t, a, run) {
      RecordOk(t, a, result, run, now, stranded);
      var t1 := RecordCompletion(t, a, result, run, now);
      var more := if a in t.completions then stranded else stranded + {a};
      RespoolOneOk(t1, a, now, more);
      assert more - {a} == stranded - {a};
    }
  }

  lemma RetentionOk(t: Tables, now: int, cfg: Config, stranded: set<string>)
    requires RowsOk(t) && Spooled(t, stranded)
    ensures var t' := CleanupRetention(t, now, cfg);
            RowsOk(t') && KeepsResults(t, t') && t'.completions.Keys <= t.completions.Keys && Spooled(t', stranded)
  {
    var (t', gone) := (CleanupRetention(t, now, cfg), AckedBefore(t, now - cfg.audit * MICROS));
    RowsExceptDistinct(t.outbox, gone);
    forall a | Unacked(t', a) && a !in stranded ensures HasRow(t'.outbox, a) {
      assert Unacked(t, a);
      var r :| r in t.outbox && r.attempt == a && r.kind == RUN_COMPLETE;
      assert r in t'.outbox;
    }
  }

  /** What a worker step does to completions: those that stay are unchanged, new ones are unacked. */
  ghost predicate Results(t: Tables, t': Tables) {
    && KeepsResults(t, t')
    && (forall a | a in t'.completions && a !in t.completions :: t'.completions[a].ackedAt.None?)
  }

  lemma WorkerTables(s: Sys, e: Event, cfg: Config)
    requires RowsOk(s.t) && Spooled(s.t, s.stranded) && Allowed(s, Worker(e))
    ensures var t' := Step(s.t, e, cfg); RowsOk(t') && Spooled(t', StrandedAfter(s, e)) && Results(s.t, t')
  {
    match e {
      case EComplete(a, result, run, now) => CompleteOk(s.t, a, result, run, now, s.stranded);
      case ERecord(a, result, run, now) => RecordOk(s.t, a, result, run, now, s.stranded);
      case ERespool(scan, now) => RespoolOk(s.t, scan, now, s.stranded);
      case ERetention(now) => RetentionOk(s.t, now, cfg, s.stranded);
      case _ => BystanderFrame(s.t, e, cfg);
    }
  }

  /** A failure changes no row's attempt, kind or payload. */
  lemma FailureFrame(t: Tables, seqno: nat, error: string, now: int)
    ensures var t' := RecordFailure(t, seqno, error, now);
            && t'.completions == t.completions && |t'.outbox| == |t.outbox|
            && (forall j | 0 <= j < |t.outbox| ::
                  && t'.outbox[j].attempt == t.outbox[j].attempt && t'.outbox[j].kind == t.outbox[j].kind
                  && t'.outbox[j].payload == t.outbox[j].payload)
  {
  }

  lemma FailureRowsOk(t: Tables, seqno: nat, error: string, now: int)
    requires RowsOk(t)
    ensures RowsOk(RecordFailure(t, seqno, error, now))
  {
    FailureFrame(t, seqno, error, now);
    assert forall j | 0 <= j < |t.outbox| :: t.outbox[j] in t.outbox;
  }

  lemma FailureOk(t: Tables, seqno: nat, error: string, now: int, stranded: set<string>)
    requires RowsOk(t) && Spooled(t, stranded)
    ensures var t' := RecordFailure(t, seqno, error, now);
            RowsOk(t') && Spooled(t', stranded) && t'.completions == t.completions
  {
    FailureRowsOk(t, seqno, error, now);
    FailureFrame(t, seqno, error, now);
    var t' := RecordFailure(t, seqno, error, now);
    forall a | HasRow(t.outbox, a) ensures HasRow(t'.outbox, a) {
      var r :| r in t.outbox && r.attempt == a && r.kind == RUN_COMPLETE;
      var j :| 0 <= j < |t.outbox| && t.outbox[j] == r;
      assert t'.outbox[j] in t'.outbox;
    }
  }

  lemma AckOk(t: Tables, a: string, now: int, stranded: set<string>)
    requires RowsOk(t) && Spooled(t, stranded)
    ensures var t' := MarkAcked(t, a, now); RowsOk(t') && Spooled(t', stranded)
  {
    var t' := MarkAcked(t, a, now);
    RowsExceptDistinct(t.outbox, {a});
    forall b | Unacked(t', b) && b !in stranded ensures HasRow(t'.outbox, b) {
      assert Unacked(t, b);
      var r :| r in t.outbox && r.attempt == b && r.kind == RUN_COMPLETE;
      assert r in t'.outbox;
    }
  }

  lemma MoveKeepsStored(s: Sys, m: Move, cfg: Config)
    requires Stored(s)
    ensures Stored(Do(s, m, cfg))
  {
    if Allowed(s, m) {
      match m {
        case Worker(e) => WorkerTables(s, e, cfg);
        case Fetch(now) =>
        case Clear(row) =>
        case Post(row, reply, now) =>
          if reply.Rejects? {
            FailureOk(s.t, row.seqno, reply.error, now, s.stranded);
          }
        case Ack(row, now) => AckOk(s.t, row.attempt, now, s.stranded);
        case Forget(row) =>
        case Crash =>
      }
    }
  }

  lemma {:induction false} MovesKeepStored(ms: seq<Move>, cfg: Config)
    ensures Stored(DoAll(BOOT, ms, cfg))
  {
    if ms != [] {
      MovesKeepStored(ms[..|ms| - 1], cfg);
      MoveKeepsStored(DoAll(BOOT, ms[..|ms| - 1], cfg), ms[|ms| - 1], cfg);
    }
  }

  // ── acks tell the truth ───────────────────────────────────────────────────

  predicate Held(s: Sys, a: string) {
    exists r | r in s.fetched :: r.attempt == a
  }

  /** A result is recorded for the attempt while a pass still holds the row of an earlier one, since deleted. */
  predicate Renews(s: Sys, m: Move, a: string) {
    && m.Worker? && (m.e.EComplete? || m.e.ERecord?) && m.e.attempt == a
    && a !in s.t.completions && Held(s, a)
  }

  predicate NeverRenewed(ms: seq<Move>, a: string, cfg: Config) {
    ms == [] || (NeverRenewed(ms[..|ms| - 1], a, cfg)
                 && !Renews(DoAll(BOOT, ms[..|ms| - 1], cfg), ms[|ms| - 1], a))
  }

  /** What passes hold for this attempt is its stored result, and an ack means that result was accepted. */
  ghost predicate Truthful(s: Sys, a: string) {
    a in s.t.completions ==>
      && (forall r | r in s.fetched && r.attempt == a :: s.t.completions[a].result == r.payload)
      && (s.t.completions[a].ackedAt.Some? ==> (a, s.t.completions[a].result) in s.accepted)
  }

  lemma OnlyItsCompletion(t: Tables, e: Event, cfg: Config, a: string)
    requires !e.EAck? && a in Step(t, e, cfg).completions && a !in t.completions
    ensures (e.EComplete? || e.ERecord?) && e.attempt == a
  {
    if Bystander(e) {
      BystanderFrame(t, e, cfg);
    } else if e.ERespool? {
      RespoolFrame(t, e.scan, e.now);
    }
  }

  lemma MoveKeepsTruth(s: Sys, m: Move, a: string, cfg: Config)
    requires Stored(s) && Truthful(s, a) && !Renews(s, m, a)
    ensures Truthful(Do(s, m, cfg), a)
  {
    if Allowed(s, m) && m.Worker? {
      WorkerTables(s, m.e, cfg);
      if a in Step(s.t, m.e, cfg).completions && a !in s.t.completions {
        OnlyItsCompletion(s.t, m.e, cfg, a);
      }
    }
  }

  lemma {:induction false} MovesKeepTruth(ms: seq<Move>, a: string, cfg: Config)
    requires NeverRenewed(ms, a, cfg)
    ensures Truthful(DoAll(BOOT, ms, cfg), a)
  {
    if ms != [] {
      MovesKeepTruth(ms[..|ms| - 1], a, cfg);
      MovesKeepStored(ms[..|ms| - 1], cfg);
      MoveKeepsTruth(DoAll(BOOT, ms[..|ms| - 1], cfg), ms[|ms| - 1], a, cfg);
    }
  }

  // ── what that means for a stored completion ───────────────────────────────

  ghost predicate OnlyRow(outbox: seq<OutboxRow>, a: string, payload: string, i: nat) {
    && i < |outbox| && outbox[i].attempt == a && outbox[i].kind == RUN_COMPLETE && outbox[i].payload == payload
    && forall j | 0 <= j < |outbox| && j != i :: outbox[j].attempt != a
  }

  /**
   After any moves and crashes, a stored completion carries its first-recorded result; unacked,
   it has exactly one run-complete row with that result, and acked, none.
   */
  lemma StoredCompletionHasItsRow(ms: seq<Move>, a: string, cfg: Config)
    ensures var s := DoAll(BOOT, ms, cfg);
            a in s.t.completions && a !in s.stranded ==>
              && a in s.first && s.t.completions[a].result == s.first[a]
              && (s.t.completions[a].ackedAt.None? ==> exists i :: OnlyRow(s.t.outbox, a, s.first[a], i))
              && (s.t.completions[a].ackedAt.Some? ==> forall r | r in s.t.outbox :: r.attempt != a)
  {
    MovesKeepStored(ms, cfg);
    var s := DoAll(BOOT, ms, cfg);
    if Unacked(s.t, a) && a !in s.stranded {
      var r :| r in s.t.outbox && r.attempt == a && r.kind == RUN_COMPLETE;
      var i :| 0 <= i < |s.t.outbox| && s.t.outbox[i] == r;
      assert OnlyRow(s.t.outbox, a, s.first[a], i);
    }
  }

  /** And if it was never renewed under a pass that held its row, acked means the manager accepted that result. */
  lemma StoredCompletionIsPendingOrDelivered(ms: seq<Move>, a: string, cfg: Config)
    requires NeverRenewed(ms, a, cfg)
    ensures var s := DoAll(BOOT, ms, cfg);
            a in s.t.completions && a !in s.stranded ==>
              && a in s.first
              && (s.t.completions[a].ackedAt.None? ==> exists i :: OnlyRow(s.t.outbox, a, s.first[a], i))
              && (s.t.completions[a].ackedAt.Some? ==>
                    (a, s.first[a]) in s.accepted && forall r | r in s.t.outbox :: r.attempt != a)
  {
    StoredCompletionHasItsRow(ms, a, cfg);
    MovesKeepTruth(ms, a, cfg);
  }

  /** The boot respool over all stored completions leaves none of them stranded. */
  lemma BootRespoolRepairs(ms: seq<Move>, scan: seq<string>, now: int, cfg: Config)
    requires DoAll(BOOT, ms, cfg).t.completions.Keys <= SetOf(scan)
    ensures var s := Do(DoAll(BOOT, ms, cfg), Worker(ERespool(scan, now)), cfg);
            forall a | Unacked(s.t, a) :: a !in s.stranded && HasRow(s.t.outbox, a)
  {
    MovesKeepStored(ms, cfg);
    var s := DoAll(BOOT, ms, cfg);
    RespoolOk(s.t, scan, now, s.stranded);
  }

  /** The ack of a held row is true exactly when the row carries the stored result, or that was accepted before. */
  lemma HeldRowAckTrueIff(s: Sys, row: OutboxRow, now: int, cfg: Config)
    requires row in s.cleared && Unacked(s.t, row.attempt)
    ensures var s' := Do(Do(s, Post(row, Accepts, now), cfg), Ack(row, now), cfg);
            var result := s.t.completions[row.attempt].result;
            && row.attempt in s'.t.completions && s'.t.completions[row.attempt].ackedAt.Some?
            && s'.t.completions[row.attempt].result == result
            && (forall r | r in s'.t.outbox :: r.attempt != row.attempt)
            && ((row.attempt, result) in s'.accepted <==>
                row.payload == result || (row.attempt, result) in s.accepted)
  {
  }

  // ── the condition is needed: a renewed result can be swallowed ────────────

  lemma DoAllStep(ms: seq<Move>, m: Move, cfg: Config)
    ensures DoAll(BOOT, ms + [m], cfg) == Do(DoAll(BOOT, ms, cfg), m, cfg)
  {
    assert (ms + [m])[..|ms|] == ms;
  }

  /** The row of an attempt that completed with `x` at time 0, in a fresh journal. */
  function FirstRow(a: string, x: string): OutboxRow {
    OutboxRow(1, a, RUN_COMPLETE, x, 0, 0, None)
  }

  /** Two overlapping passes fetch and clear that row; one of them delivers and acks it. */
  function Delivered(a: string, run: string, x: string): seq<Move> {
    [Worker(EComplete(a, x, Some(run), 0))] + [Fetch(0)] + [Clear(FirstRow(a, x))]
    + [Post(FirstRow(a, x), Accepts, 0)] + [Ack(FirstRow(a, x), 0)]
  }

  lemma ClearedState(a: string, run: string, x: string, cfg: Config)
    ensures var row := FirstRow(a, x);
            var s := DoAll(BOOT, [Worker(EComplete(a, x, Some(run), 0))] + [Fetch(0)] + [Clear(row)], cfg);
            && s.t == FRESH.(completions := map[a := Completion(run, x, 0, None)], outbox := [row], nextSeq := 2)
            && s.accepted == {} && s.fetched == {row} && s.cleared == {row} && s.posted == {}
  {
    var row := FirstRow(a, x);
    var complete := Worker(EComplete(a, x, Some(run), 0));
    assert [complete][..0] == [];
    var s1 := Do(BOOT, complete, cfg);
    assert s1.t.outbox == [row];
    DoAllStep([complete], Fetch(0), cfg);
    DoAllStep([complete] + [Fetch(0)], Clear(row), cfg);
    assert DueRows([row], 0, BATCH) == [row] by { assert [row][1..] == []; }
    assert Do(s1, Fetch(0), cfg).fetched == {row};
  }

  lemma DeliveredState(a: string, run: string, x: string, cfg: Config)
    ensures var (s, row) := (DoAll(BOOT, Delivered(a, run, x), cfg), FirstRow(a, x));
            && s.t == FRESH.(completions := map[a := Completion(run, x, 0, Some(0))], nextSeq := 2)
            && s.accepted == {(a, x)} && s.fetched == {row} && s.cleared == {row}
  {
    var row := FirstRow(a, x);
    var ms := [Worker(EComplete(a, x, Some(run), 0))] + [Fetch(0)] + [Clear(row)];
    ClearedState(a, run, x, cfg);
    DoAllStep(ms, Post(row, Accepts, 0), cfg);
    DoAllStep(ms + [Post(row, Accepts, 0)], Ack(row, 0), cfg);
    assert RowsExcept([row], {a}) == [] by { assert [row][1..] == []; }
  }

  /** Then retention drops the acked completion and the attempt completes again, with `y`. */
  function Renewal(a: string, run: string, y: string, cfg: Config): (Move, Move) {
    (Worker(ERetention(cfg.audit * MICROS)), Worker(EComplete(a, y, Some(run), cfg.audit * MICROS)))
  }

  lemma AgedOut(a: string, run: string, x: string, t: Tables, cfg: Config)
    requires t == FRESH.(completions := map[a := Completion(run, x, 0, Some(0))], nextSeq := 2)
    ensures var t' := CleanupRetention(t, cfg.audit * MICROS, cfg);
            t' == FRESH.(watermarks := t'.watermarks, nextSeq := 2)
  {
    assert AckedBefore(t, 0) == {a};
  }

  lemma Anew(a: string, run: string, y: string, t: Tables, now: int)
    requires t.completions == map[] && t.outbox == [] && t.reservations == map[] && t.nextSeq == 2
    ensures var t' := CompleteAndEnqueue(t, a, y, Some(run), now);
            && t'.outbox == [OutboxRow(2, a, RUN_COMPLETE, y, now, 0, None)]
            && t'.completions == map[a := Completion(run, y, now, None)]
  {
  }

  lemma WorkerMove(s: Sys, e: Event, cfg: Config)
    requires Allowed(s, Worker(e))
    ensures var s' := Do(s, Worker(e), cfg);
            s'.t == Step(s.t, e, cfg) && s'.accepted == s.accepted && s'.cleared == s.cleared
  {
  }

  lemma AgeMove(s: Sys, a: string, run: string, x: string, cfg: Config)
    requires s.t == FRESH.(completions := map[a := Completion(run, x, 0, Some(0))], nextSeq := 2)
    ensures var s' := Do(s, Worker(ERetention(cfg.audit * MICROS)), cfg);
            && s'.t == FRESH.(watermarks := s'.t.watermarks, nextSeq := 2)
            && s'.accepted == s.accepted && s'.cleared == s.cleared
  {
    WorkerMove(s, ERetention(cfg.audit * MICROS), cfg);
    AgedOut(a, run, x, s.t, cfg);
  }

  lemma AgainMove(s: Sys, a: string, run: string, y: string, now: int, cfg: Config)
    requires s.t == FRESH.(watermarks := s.t.watermarks, nextSeq := 2)
    ensures var s' := Do(s, Worker(EComplete(a, y, Some(run), now)), cfg);
            && s'.t.completions == map[a := Completion(run, y, now, None)]
            && s'.t.outbox == [OutboxRow(2, a, RUN_COMPLETE, y, now, 0, None)]
            && s'.accepted == s.accepted && s'.cleared == s.cleared
  {
    WorkerMove(s, EComplete(a, y, Some(run), now), cfg);
    Anew(a, run, y, s.t, now);
  }

  lemma RenewedState(a: string, run: string, x: string, y: string, cfg: Config)
    ensures var (age, again) := Renewal(a, run, y, cfg);
            var s := DoAll(BOOT, Delivered(a, run, x) + [age] + [again], cfg);
            && s.t.completions == map[a := Completion(run, y, cfg.audit * MICROS, None)]
            && s.t.outbox == [OutboxRow(2, a, RUN_COMPLETE, y, cfg.audit * MICROS, 0, None)]
            && s.accepted == {(a, x)} && s.cleared == {FirstRow(a, x)}
  {
    var (age, again) := Renewal(a, run, y, cfg);
    var ms := Delivered(a, run, x);
    DeliveredState(a, run, x, cfg);
    DoAllStep(ms, age, cfg);
    DoAllStep(ms + [age], again, cfg);
    AgeMove(DoAll(BOOT, ms, cfg), a, run, x, cfg);
    AgainMove(DoAll(BOOT, ms + [age], cfg), a, run, y, cfg.audit * MICROS, cfg);
  }

  /**
   So the condition is needed: when the other pass now delivers and acks the row of `x` it still
   holds, the attempt ends acked with result `y`, which nobody was ever sent.
   */
  lemma RenewedResultSwallowed(a: string, run: string, x: string, y: string, cfg: Config)
    requires x != y
    ensures var ((age, again), row) := (Renewal(a, run, y, cfg), FirstRow(a, x));
            var ms := Delivered(a, run, x) + [age] + [again] + [Post(row, Accepts, 0)] + [Ack(row, 0)];
            var s := DoAll(BOOT, ms, cfg);
            && a in s.t.completions && s.t.completions[a].result == y && s.t.completions[a].ackedAt.Some?
            && (a, y) !in s.accepted && forall r | r in s.t.outbox :: r.attempt != a
  {
    var ((age, again), row) := (Renewal(a, run, y, cfg), FirstRow(a, x));
    var ms := Delivered(a, run, x) + [age] + [again];
    RenewedState(a, run, x, y, cfg);
    SwallowsFrom(DoAll(BOOT, ms, cfg), row, y, cfg);
    DoAllStep(ms, Post(row, Accepts, 0), cfg);
    DoAllStep(ms + [Post(row, Accepts, 0)], Ack(row, 0), cfg);
  }

  lemma SwallowsFrom(s: Sys, row: OutboxRow, y: string, cfg: Config)
    requires row in s.cleared && Unacked(s.t, row.attempt) && s.t.completions[row.attempt].result == y
    requires row.payload != y && (row.attempt, y) !in s.accepted
    ensures var s' := Do(Do(s, Post(row, Accepts, 0), cfg), Ack(row, 0), cfg);
            && row.attempt in s'.t.completions && s'.t.completions[row.attempt].result == y
            && s'.t.completions[row.attempt].ackedAt.Some?
            && (row.attempt, y) !in s'.accepted && forall r | r in s'.t.outbox :: r.attempt != row.attempt
  {
    HeldRowAckTrueIff(s, row, 0, cfg);
  }

  // ── what each move of a pass does ─────────────────────────────────────────

  /** A fetch takes up the first ten due rows, and no table changes. */
  lemma FetchLaw(s: Sys, now: int, cfg: Config, r: OutboxRow)
    ensures var s' := Do(s, Fetch(now), cfg);
            && s'.t == s.t && (r in s'.fetched <==> r in s.fetched || r in DueRows(s.t.outbox, now, 10))
  {
  }

  /** A held row is cleared for sending unless its attempt's result is acked and not revoked. */
  lemma ClearLaw(s: Sys, row: OutboxRow, cfg: Config)
    ensures var (s', a) := (Do(s, Clear(row), cfg), row.attempt);
            var acked := a !in s.t.tombstones && a in s.t.completions && s.t.completions[a].ackedAt.Some?;
            s' == s.(cleared := if row in s.fetched && !acked then s.cleared + {row} else s.cleared)
  {
  }

  // ── one pass, and how many passes empty the outbox ────────────────────────

  datatype PassResult = PassResult(t: Tables, processed: nat, raised: bool)

  function Deliver(t: Tables, rows: seq<OutboxRow>, reply: OutboxRow -> Reply, now: int): PassResult
    decreases |rows|
  {
    if rows == [] then PassResult(t, 0, false) else
      var (row, rest) := (rows[0], rows[1..]);
      if GetAttempt(t, row.attempt) == KCompletion(true) then Deliver(t, rest, reply, now)
      else if reply(row).Accepts? then
        var r := Deliver(MarkAcked(t, row.attempt, now), rest, reply, now);
        r.(processed := r.processed + 1)
      else if !CanBackOff(t, row.seqno) then PassResult(t, 1, true)
      else
        var r := Deliver(RecordFailure(t, row.seqno, reply(row).error, now), rest, reply, now);
        r.(processed := r.processed + 1)
  }

  /** `_drain_outbox_once`: deliver the due batch, ack what the manager took, back off the rest. */
  function Pass(t: Tables, reply: OutboxRow -> Reply, now: int): PassResult {
    Deliver(t, DueRows(t.outbox, now, BATCH), reply, now)
  }

  function Passes(t: Tables, reply: OutboxRow -> Reply, nows: seq<int>): Tables
    decreases |nows|
  {
    if nows == [] then t else Passes(Pass(t, reply, nows[0]).t, reply, nows[1..])
  }

  function DueCount(outbox: seq<OutboxRow>, now: int): nat {
    if outbox == [] then 0 else (if IsDue(outbox[0], now) then 1 else 0) + DueCount(outbox[1..], now)
  }

  function Attempts(rows: seq<OutboxRow>): set<string> {
    set r | r in rows :: r.attempt
  }

  lemma {:induction false} RowsExceptTwice(outbox: seq<OutboxRow>, x: set<string>, y: set<string>)
    ensures RowsExcept(RowsExcept(outbox, x), y) == RowsExcept(outbox, x + y)
  {
    if outbox != [] {
      RowsExceptTwice(outbox[1..], x, y);
      if outbox[0].attempt !in x {
        assert RowsExcept(outbox, x)[1..] == RowsExcept(outbox[1..], x);
      }
    }
  }

  lemma {:induction false} RowsExceptNothing(outbox: seq<OutboxRow>)
    ensures RowsExcept(outbox, {}) == outbox
  {
    if outbox != [] {
      RowsExceptNothing(outbox[1..]);
    }
  }

  ghost predicate Accepting(reply: OutboxRow -> Reply) {
    forall r :: reply(r).Accepts?
  }

  /** A pending row is always sent: acked, backed off, or the end of the pass. */
  lemma DeliverHead(t: Tables, row: OutboxRow, rest: seq<OutboxRow>, reply: OutboxRow -> Reply, now: int)
    requires RowsOk(t) && row in t.outbox
    ensures var r := Deliver(t, [row] + rest, reply, now);
            if reply(row).Accepts? then
              var next := Deliver(MarkAcked(t, row.attempt, now), rest, reply, now);
              r.t == next.t && r.raised == next.raised
            else if !CanBackOff(t, row.seqno) then r.t == t && r.raised
            else
              var next := Deliver(RecordFailure(t, row.seqno, reply(row).error, now), rest, reply, now);
              r.t == next.t && r.raised == next.raised
  {
    assert ([row] + rest)[1..] == rest;
  }

  /** Against an accepting manager a pass removes exactly the rows of the attempts it was given. */
  lemma {:induction false} DeliverRemoves(t: Tables, rows: seq<OutboxRow>, reply: OutboxRow -> Reply, now: int)
    requires RowsOk(t) && Accepting(reply) && DistinctAttempts(rows)
    requires forall r | r in rows :: r in t.outbox
    ensures var t' := Deliver(t, rows, reply, now).t;
            RowsOk(t') && t'.outbox == RowsExcept(t.outbox, Attempts(rows))
    ensures !Deliver(t, rows, reply, now).raised
    decreases |rows|
  {
    if rows == [] {
      RowsExceptNothing(t.outbox);
      assert Attempts(rows) == {};
    } else {
      var (row, rest) := (rows[0], rows[1..]);
      assert row in rows && rows == [row] + rest;
      var t1 := MarkAcked(t, row.attempt, now);
      TailDistinct(row, rest);
      AckKeepsOthers(t, row, rest, now);
      DeliverRemoves(t1, rest, reply, now);
      DeliverHead(t, row, rest, reply, now);
      RowsExceptTwice(t.outbox, {row.attempt}, Attempts(rest));
      assert {row.attempt} + Attempts(rest) == Attempts(rows);
    }
  }

  lemma TailDistinct(row: OutboxRow, rest: seq<OutboxRow>)
    requires DistinctAttempts([row] + rest)
    ensures DistinctAttempts(rest) && forall r | r in rest :: r.attempt != row.attempt
  {
    var rows := [row] + rest;
    assert rows[0] == row && forall k | 0 <= k < |rest| :: rest[k] == rows[k + 1];
  }

  lemma AckKeepsOthers(t: Tables, row: OutboxRow, rest: seq<OutboxRow>, now: int)
    requires RowsOk(t) && (forall r | r in rest :: r in t.outbox && r.attempt != row.attempt)
    ensures var t1 := MarkAcked(t, row.attempt, now);
            && RowsOk(t1) && t1.outbox == RowsExcept(t.outbox, {row.attempt})
            && (forall r | r in rest :: r in t1.outbox)
  {
    RowsExceptDistinct(t.outbox, {row.attempt});
  }

  lemma {:induction false} DueRowsDistinct(outbox: seq<OutboxRow>, now: int, limit: nat)
    requires DistinctAttempts(outbox)
    ensures DistinctAttempts(DueRows(outbox, now, limit))
  {
    if outbox != [] && limit > 0 {
      DueRowsDistinct(outbox[1..], now, if IsDue(outbox[0], now) then limit - 1 else limit);
      var rest := DueRows(outbox[1..], now, limit - 1);
      forall k | 0 <= k < |rest| ensures rest[k].attempt != outbox[0].attempt {
        assert rest[k] in outbox[1..];
      }
    }
  }

  /** A due row that the batch left out means the batch was full. */
  lemma {:induction false} BatchFull(outbox: seq<OutboxRow>, now: int, limit: nat, r: OutboxRow)
    requires r in outbox && IsDue(r, now) && r !in DueRows(outbox, now, limit)
    ensures |DueRows(outbox, now, limit)| == limit
  {
    if limit > 0 && r != outbox[0] {
      BatchFull(outbox[1..], now, if IsDue(outbox[0], now) then limit - 1 else limit, r);
    }
  }

  /** Removing a batch's attempts removes at least the batch from the rows due at any later time. */
  lemma {:induction false} DueCountDrops(outbox: seq<OutboxRow>, now: int, limit: nat, gone: set<string>, later: int)
    requires now <= later && Attempts(DueRows(outbox, now, limit)) <= gone
    ensures DueCount(RowsExcept(outbox, gone), later) + |DueRows(outbox, now, limit)| <= DueCount(outbox, later)
  {
    if outbox != [] {
      var due := DueRows(outbox, now, limit);
      var rest := RowsExcept(outbox[1..], gone);
      if limit > 0 && IsDue(outbox[0], now) {
        assert due == [outbox[0]] + DueRows(outbox[1..], now, limit - 1);
        assert outbox[0] in due;
        forall r | r in DueRows(outbox[1..], now, limit - 1) ensures r.attempt in gone { assert r in due; }
        DueCountDrops(outbox[1..], now, limit - 1, gone, later);
      } else {
        assert due == DueRows(outbox[1..], now, limit);
        DueCountDrops(outbox[1..], now, limit, gone, later);
        if outbox[0].attempt !in gone {
          assert RowsExcept(outbox, gone) == [outbox[0]] + rest;
        }
      }
    }
  }

  lemma {:induction false} DueCountPositive(outbox: seq<OutboxRow>, r: OutboxRow, now: int)
    requires r in outbox && IsDue(r, now)
    ensures DueCount(outbox, now) > 0
  {
    if r != outbox[0] {
      DueCountPositive(outbox[1..], r, now);
    }
  }

  lemma PassDrops(t: Tables, reply: OutboxRow -> Reply, now: int, later: int, r: OutboxRow)
    requires RowsOk(t) && Accepting(reply) && now <= later && IsDue(r, now)
    requires r in Pass(t, reply, now).t.outbox
    ensures var t' := Pass(t, reply, now).t;
            RowsOk(t') && r in t.outbox && DueCount(t'.outbox, later) + BATCH <= DueCount(t.outbox, later)
  {
    var due := DueRows(t.outbox, now, BATCH);
    DueRowsDistinct(t.outbox, now, BATCH);
    DeliverRemoves(t, due, reply, now);
    BatchFull(t.outbox, now, BATCH, r);
    DueCountDrops(t.outbox, now, BATCH, Attempts(due), later);
  }

  lemma PassKeepsRowsOk(t: Tables, reply: OutboxRow -> Reply, now: int)
    requires RowsOk(t) && Accepting(reply)
    ensures RowsOk(Pass(t, reply, now).t)
    ensures forall r | r in Pass(t, reply, now).t.outbox :: r in t.outbox
  {
    DueRowsDistinct(t.outbox, now, BATCH);
    DeliverRemoves(t, DueRows(t.outbox, now, BATCH), reply, now);
  }

  lemma {:induction false} PassesKeepRows(t: Tables, reply: OutboxRow -> Reply, nows: seq<int>)
    requires RowsOk(t) && Accepting(reply)
    ensures forall r | r in Passes(t, reply, nows).outbox :: r in t.outbox
    decreases |nows|
  {
    if nows != [] {
      PassKeepsRowsOk(t, reply, nows[0]);
      PassesKeepRows(Pass(t, reply, nows[0]).t, reply, nows[1..]);
    }
  }

  /**
   Against an accepting manager, a row already due at every one of k passes is gone after them
   once ten times k reaches the number of rows due by the last of them.
   */
  lemma {:induction false} PassesDeliver(t: Tables, reply: OutboxRow -> Reply, nows: seq<int>, later: int, r: OutboxRow)
    requires RowsOk(t) && Accepting(reply)
    requires forall i | 0 <= i < |nows| :: IsDue(r, nows[i]) && nows[i] <= later
    requires nows != [] && DueCount(t.outbox, later) <= BATCH * |nows|
    ensures r !in Passes(t, reply, nows).outbox
    decreases |nows|
  {
    var t1 := Pass(t, reply, nows[0]).t;
    PassKeepsRowsOk(t, reply, nows[0]);
    if r in t1.outbox {
      PassDrops(t, reply, nows[0], later, r);
      DueCountPositive(t1.outbox, r, later);
      PassesDeliver(t1, reply, nows[1..], later, r);
    } else {
      PassesKeepRows(t1, reply, nows[1..]);
    }
  }

  /** N rows due at a clock are all gone after ceil(N / 10) passes at that clock. */
  lemma DueRowsGoneAfterCeilPasses(t: Tables, reply: OutboxRow -> Reply, now: int, r: OutboxRow)
    requires RowsOk(t) && Accepting(reply) && r in t.outbox && IsDue(r, now)
    ensures var k := (DueCount(t.outbox, now) + BATCH - 1) / BATCH;
            r !in Passes(t, reply, seq(k, _ => now)).outbox
  {
    DueCountPositive(t.outbox, r, now);
    var k := (DueCount(t.outbox, now) + BATCH - 1) / BATCH;
    PassesDeliver(t, reply, seq(k, _ => now), now, r);
  }
}
