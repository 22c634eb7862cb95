/**
 Backoff of rejected rows.  The delay is a float product that overflows, so a row can fail only
 1024 times before recording a failure raises instead; after that it blocks the rows behind it.
 */
module OutboxOverflow {
  import opened Basics
  import opened JournalTables
  import opened JournalRuns
  import opened OutboxDrain

  lemma {:induction false} Pow2Positive(n: nat)
    ensures Pow2(n) >= 1 && (n >= 9 ==> Pow2(n) >= 512)
  {
    if n > 0 {
      Pow2Positive(n - 1);
      if n == 9 {
        assert Pow2(1) == 2 && Pow2(3) == 8 && Pow2(5) == 32 && Pow2(7) == 128 && Pow2(9) == 512;
      }
    }
  }

  /**
   A recorded failure puts the row 1 to 300 seconds ahead, at the cap from the tenth failure on;
   but it is recorded exactly when the row has failed fewer than 1024 times before.
   */
  lemma BackoffBoundedUntilOverflow(t: Tables, seqno: nat, error: string, now: int)
    requires IndexOf(t.outbox, seqno) < |t.outbox|
    ensures var i := IndexOf(t.outbox, seqno);
            var (r, r') := (t.outbox[i], RecordFailure(t, seqno, error, now).outbox[i]);
            && (r.attempts < 1024 <==> r'.attempts == r.attempts + 1)
            && (r.attempts < 1024 ==> now + 1 * MICROS <= r'.nextAt <= now + BACKOFF_CAP_S * MICROS)
            && (9 <= r.attempts < 1024 ==> r'.nextAt == now + BACKOFF_CAP_S * MICROS)
            && (r.attempts >= 1024 ==> RecordFailure(t, seqno, error, now) == t)
  {
    var i := IndexOf(t.outbox, seqno);
    Pow2Positive(t.outbox[i].attempts);
  }

  lemma PassStops(t: Tables, row: OutboxRow, reply: OutboxRow -> Reply, now: int)
    requires DistinctSeqnos(t.outbox) && row.attempts >= 1024 && reply(row).Rejects?
    requires GetAttempt(t, row.attempt) != KCompletion(true)
    requires var due := DueRows(t.outbox, now, BATCH); due != [] && due[0] == row
    ensures Pass(t, reply, now) == PassResult(t, 1, true)
  {
    BackOffIff(t, row);
  }

  /**
   A row past that count which the manager keeps rejecting stops every pass at itself: as long
   as it heads the due rows, nothing in the journal changes and nothing behind it is delivered.
   */
  lemma {:induction false} OverflowedRowBlocksOutbox(t: Tables, row: OutboxRow, reply: OutboxRow -> Reply,
                                                     nows: seq<int>)
    requires DistinctSeqnos(t.outbox) && row.attempts >= 1024 && reply(row).Rejects?
    requires GetAttempt(t, row.attempt) != KCompletion(true)
    requires forall i | 0 <= i < |nows| ::
               var due := DueRows(t.outbox, nows[i], BATCH); due != [] && due[0] == row
    ensures Passes(t, reply, nows) == t
    ensures forall i | 0 <= i < |nows| :: Pass(t, reply, nows[i]).raised
  {
    forall i | 0 <= i < |nows| ensures Pass(t, reply, nows[i]) == PassResult(t, 1, true) {
      PassStops(t, row, reply, nows[i]);
    }
    if nows != [] {
      OverflowedRowBlocksOutbox(t, row, reply, nows[1..]);
    }
  }

  // ── the blocking state is reached ─────────────────────────────────────────

  ghost predicate Rejecting(reply: OutboxRow -> Reply) {
    forall r :: reply(r).Rejects?
  }

  /** Pass times spaced by the backoff cap. */
  function Spaced(start: int, n: nat): (nows: seq<int>)
    ensures |nows| == n
    decreases n
  {
    if n == 0 then [] else [start] + Spaced(start + BACKOFF_CAP_S * MICROS, n - 1)
  }

  lemma RejectedOnce(t: Tables, reply: OutboxRow -> Reply, now: int)
    requires |t.outbox| == 1 && t.outbox[0].attempts < 1024 && IsDue(t.outbox[0], now) && Rejecting(reply)
    requires GetAttempt(t, t.outbox[0].attempt) != KCompletion(true)
    ensures var (row, t') := (t.outbox[0], Pass(t, reply, now).t);
            && |t'.outbox| == 1 && t' == t.(outbox := t'.outbox) && !Pass(t, reply, now).raised
            && t'.outbox[0].attempt == row.attempt && t'.outbox[0].attempts == row.attempts + 1
            && t'.outbox[0].nextAt <= now + BACKOFF_CAP_S * MICROS
  {
    var row := t.outbox[0];
    assert t.outbox == [row] && [row][1..] == [];
    assert DueRows(t.outbox, now, BATCH) == [row];
    assert IndexOf(t.outbox, row.seqno) == 0;
    BackoffBoundedUntilOverflow(t, row.seqno, reply(row).error, now);
    var t' := RecordFailure(t, row.seqno, reply(row).error, now);
    assert Deliver(t', [], reply, now) == PassResult(t', 0, false);
  }

  lemma {:induction false} RejectionsCount(t: Tables, reply: OutboxRow -> Reply, start: int, n: nat)
    requires |t.outbox| == 1 && t.outbox[0].attempts + n <= 1024 && IsDue(t.outbox[0], start) && Rejecting(reply)
    requires GetAttempt(t, t.outbox[0].attempt) != KCompletion(true)
    ensures var (row, t') := (t.outbox[0], Passes(t, reply, Spaced(start, n)));
            && |t'.outbox| == 1 && t' == t.(outbox := t'.outbox)
            && t'.outbox[0].attempt == row.attempt && t'.outbox[0].attempts == row.attempts + n
            && IsDue(t'.outbox[0], start + n * BACKOFF_CAP_S * MICROS)
    decreases n
  {
    if n > 0 {
      RejectedOnce(t, reply, start);
      RejectionsCount(Pass(t, reply, start).t, reply, start + BACKOFF_CAP_S * MICROS, n - 1);
      assert Spaced(start, n)[1..] == Spaced(start + BACKOFF_CAP_S * MICROS, n - 1);
    }
  }

  /**
   One completion, a manager that rejects it and passes spaced by the cap: after n of them the
   row has failed exactly n times, for every n up to 1024.
   */
  lemma RejectionsReach(a: string, result: string, run: string, start: int, reply: OutboxRow -> Reply, n: nat)
    requires Rejecting(reply) && n <= 1024
    ensures var t := Passes(CompleteAndEnqueue(FRESH, a, result, Some(run), start), reply, Spaced(start, n));
            && |t.outbox| == 1 && t.outbox[0].attempt == a && t.outbox[0].attempts == n
            && IsDue(t.outbox[0], start + n * BACKOFF_CAP_S * MICROS)
            && GetAttempt(t, a) == KCompletion(false)
  {
    RejectionsCount(CompleteAndEnqueue(FRESH, a, result, Some(run), start), reply, start, n);
  }

  lemma SingleRowBlocks(t: Tables, reply: OutboxRow -> Reply, nows: seq<int>)
    requires |t.outbox| == 1 && t.outbox[0].attempts >= 1024 && Rejecting(reply)
    requires GetAttempt(t, t.outbox[0].attempt) != KCompletion(true)
    requires forall i | 0 <= i < |nows| :: IsDue(t.outbox[0], nows[i])
    ensures Passes(t, reply, nows) == t && forall i | 0 <= i < |nows| :: Pass(t, reply, nows[i]).raised
  {
    forall i | 0 <= i < |nows|
      ensures var due := DueRows(t.outbox, nows[i], BATCH); due != [] && due[0] == t.outbox[0]
    {
      assert IsDue(t.outbox[0], nows[i]);
    }
    OverflowedRowBlocksOutbox(t, t.outbox[0], reply, nows);
  }

  /** The 1025th rejection and every later one raises and changes nothing: the outbox is blocked for good. */
  lemma RejectionsBlock(a: string, result: string, run: string, start: int, reply: OutboxRow -> Reply, n: nat,
                        nows: seq<int>)
    requires Rejecting(reply) && n == 1024
    requires forall i | 0 <= i < |nows| :: nows[i] >= start + n * BACKOFF_CAP_S * MICROS
    ensures var t := Passes(CompleteAndEnqueue(FRESH, a, result, Some(run), start), reply, Spaced(start, n));
            Passes(t, reply, nows) == t && forall i | 0 <= i < |nows| :: Pass(t, reply, nows[i]).raised
  {
    RejectionsReach(a, result, run, start, reply, n);
    var t := Passes(CompleteAndEnqueue(FRESH, a, result, Some(run), start), reply, Spaced(start, n));
    SingleRowBlocks(t, reply, nows);
  }

  // ── distinct sequence numbers ─────────────────────────────────────────────

  ghost predicate DistinctSeqnos(outbox: seq<OutboxRow>) {
    forall i, j | 0 <= i < j < |outbox| :: outbox[i].seqno != outbox[j].seqno
  }

  /** Sequence numbers are given out once, below the next one. */
  ghost predicate SeqsOk(t: Tables) {
    DistinctSeqnos(t.outbox) && forall i | 0 <= i < |t.outbox| :: t.outbox[i].seqno < t.nextSeq
  }

  lemma FailureSeqs(t: Tables, seqno: nat, error: string, now: int)
    ensures var t' := RecordFailure(t, seqno, error, now);
            && t'.nextSeq == t.nextSeq && |t'.outbox| == |t.outbox|
            && (forall k | 0 <= k < |t.outbox| :: t'.outbox[k].seqno == t.outbox[k].seqno)
  {
  }

  lemma FailureKeepsDistinct(t: Tables, seqno: nat, error: string, now: int)
    requires DistinctSeqnos(t.outbox)
    ensures DistinctSeqnos(RecordFailure(t, seqno, error, now).outbox)
  {
    FailureSeqs(t, seqno, error, now);
  }

  lemma FailureKeepsSeqs(t: Tables, seqno: nat, error: string, now: int)
    requires SeqsOk(t)
    ensures SeqsOk(RecordFailure(t, seqno, error, now))
  {
    FailureSeqs(t, seqno, error, now);
    FailureKeepsDistinct(t, seqno, error, now);
  }

  lemma {:induction false} RowsExceptSeqs(outbox: seq<OutboxRow>, gone: set<string>)
    requires DistinctSeqnos(outbox)
    ensures DistinctSeqnos(RowsExcept(outbox, gone))
  {
    if outbox != [] {
      RowsExceptSeqs(outbox[1..], gone);
      var rest := RowsExcept(outbox[1..], gone);
      forall k | 0 <= k < |rest| ensures rest[k].seqno != outbox[0].seqno {
        assert rest[k] in outbox[1..];
      }
    }
  }

  lemma EnqueueKeepsSeqs(t: Tables, a: string, kind: string, payload: string, now: int)
    requires SeqsOk(t)
    ensures SeqsOk(Enqueue(t, a, kind, payload, now))
  {
  }

  lemma RespoolOneKeepsSeqs(t: Tables, a: string, now: int)
    requires SeqsOk(t)
    ensures SeqsOk(RespoolOne(t, a, now))
  {
    if a in t.completions {
      EnqueueKeepsSeqs(t, a, RUN_COMPLETE, t.completions[a].result, now);
    }
  }

  lemma {:induction false} RespoolKeepsSeqs(t: Tables, scan: seq<string>, now: int)
    requires SeqsOk(t)
    ensures SeqsOk(Respool(t, scan, now))
  {
    if scan != [] {
      RespoolKeepsSeqs(t, scan[..|scan| - 1], now);
      RespoolOneKeepsSeqs(Respool(t, scan[..|scan| - 1], now), scan[|scan| - 1], now);
    }
  }

  lemma CompleteKeepsSeqs(t: Tables, a: string, result: string, run: Option<string>, now: int)
    requires SeqsOk(t)
    ensures SeqsOk(CompleteAndEnqueue(t, a, result, run, now))
  {
    var t1 := RecordCompletion(t, a, result, run, now);
    assert t1.outbox == t.outbox && t1.nextSeq == t.nextSeq;
    RespoolOneKeepsSeqs(t1, a, now);
  }

  lemma OutboxUntouched(t: Tables, e: Event, cfg: Config)
    requires Bystander(e) || e.ERecord?
    ensures Step(t, e, cfg).outbox == t.outbox && Step(t, e, cfg).nextSeq == t.nextSeq
  {
    if Bystander(e) {
      BystanderFrame(t, e, cfg);
    }
  }

  lemma SweepKeepsSeqs(t: Tables, t': Tables, gone: set<string>)
    requires SeqsOk(t) && t'.outbox == RowsExcept(t.outbox, gone) && t'.nextSeq == t.nextSeq
    ensures SeqsOk(t')
  {
    RowsExceptSeqs(t.outbox, gone);
    forall i | 0 <= i < |t'.outbox| ensures t'.outbox[i].seqno < t'.nextSeq {
      assert t'.outbox[i] in t.outbox;
    }
  }

  /** Every journal transaction keeps the sequence numbers distinct, the raw enqueue included. */
  lemma StepKeepsSeqs(t: Tables, e: Event, cfg: Config)
    requires SeqsOk(t)
    ensures SeqsOk(Step(t, e, cfg))
  {
    if Bystander(e) || e.ERecord? {
      OutboxUntouched(t, e, cfg);
    } else {
      match e {
        case EComplete(a, result, run, now) => CompleteKeepsSeqs(t, a, result, run, now);
        case ERespool(scan, now) => RespoolKeepsSeqs(t, scan, now);
        case EEnqueue(a, kind, payload, now) => EnqueueKeepsSeqs(t, a, kind, payload, now);
        case EFail(seqno, error, now) => FailureKeepsSeqs(t, seqno, error, now);
        case EAck(a, now) => SweepKeepsSeqs(t, Step(t, e, cfg), {a});
        case ERetention(now) =>
          SweepKeepsSeqs(t, Step(t, e, cfg), AckedBefore(t, now - cfg.audit * MICROS));
      }
    }
  }

  /** A move changes the tables by one journal transaction or not at all. */
  lemma MoveIsStep(s: Sys, m: Move, cfg: Config) returns (e: Option<Event>)
    ensures Do(s, m, cfg).t == if e.Some? then Step(s.t, e.value, cfg) else s.t
  {
    e := None;
    if Allowed(s, m) {
      match m {
        case Worker(w) => e := Some(w);
        case Post(row, reply, now) =>
          if reply.Rejects? {
            e := Some(EFail(row.seqno, reply.error, now));
          }
        case Ack(row, now) => e := Some(EAck(row.attempt, now));
        case _ =>
      }
    }
  }

  /** So every outbox that worker moves, drains and crashes can reach has distinct sequence numbers. */
  lemma {:induction false} MovesKeepSeqs(ms: seq<Move>, cfg: Config)
    ensures SeqsOk(DoAll(BOOT, ms, cfg).t)
  {
    if ms != [] {
      MovesKeepSeqs(ms[..|ms| - 1], cfg);
      var s := DoAll(BOOT, ms[..|ms| - 1], cfg);
      var e := MoveIsStep(s, ms[|ms| - 1], cfg);
      if e.Some? {
        StepKeepsSeqs(s.t, e.value, cfg);
      }
    }
  }

  lemma IndexOfRow(outbox: seq<OutboxRow>, row: OutboxRow)
    requires DistinctSeqnos(outbox) && row in outbox
    ensures var i := IndexOf(outbox, row.seqno); i < |outbox| && outbox[i] == row
  {
    var j :| 0 <= j < |outbox| && outbox[j] == row;
    var i := IndexOf(outbox, row.seqno);
    assert i <= j;
  }

  lemma FailureKeepsOthers(t: Tables, row: OutboxRow, error: string, now: int, r: OutboxRow)
    requires DistinctSeqnos(t.outbox) && row in t.outbox && r in t.outbox && r.attempt != row.attempt
    ensures r in RecordFailure(t, row.seqno, error, now).outbox
  {
    IndexOfRow(t.outbox, row);
    var t' := RecordFailure(t, row.seqno, error, now);
    var k :| 0 <= k < |t.outbox| && t.outbox[k] == r;
    assert t'.outbox[k] == r;
  }

  lemma FailureTouchesOneRow(t: Tables, row: OutboxRow, error: string, now: int)
    requires RowsOk(t) && DistinctSeqnos(t.outbox) && row in t.outbox
    ensures CanBackOff(t, row.seqno) <==> row.attempts < 1024
    ensures var t' := RecordFailure(t, row.seqno, error, now);
            RowsOk(t') && DistinctSeqnos(t'.outbox)
  {
    BackOffIff(t, row);
    FailureRowsOk(t, row.seqno, error, now);
    FailureKeepsDistinct(t, row.seqno, error, now);
  }

  lemma BackOffIff(t: Tables, row: OutboxRow)
    requires DistinctSeqnos(t.outbox) && row in t.outbox
    ensures CanBackOff(t, row.seqno) <==> row.attempts < 1024
  {
    IndexOfRow(t.outbox, row);
  }

  lemma AckTouchesOneAttempt(t: Tables, row: OutboxRow, now: int)
    requires RowsOk(t) && DistinctSeqnos(t.outbox) && row in t.outbox
    ensures var t' := MarkAcked(t, row.attempt, now);
            && RowsOk(t') && DistinctSeqnos(t'.outbox)
            && (forall r | r in t.outbox && r.attempt != row.attempt :: r in t'.outbox)
  {
    RowsExceptDistinct(t.outbox, {row.attempt});
    RowsExceptSeqs(t.outbox, {row.attempt});
  }

  /** A pass is cut short exactly when it meets a rejected row that has already failed 1024 times. */
  lemma {:induction false} PassCutShortIff(t: Tables, rows: seq<OutboxRow>, reply: OutboxRow -> Reply, now: int)
    requires RowsOk(t) && DistinctSeqnos(t.outbox) && DistinctAttempts(rows)
    requires forall r | r in rows :: r in t.outbox
    ensures Deliver(t, rows, reply, now).raised <==> exists r | r in rows :: reply(r).Rejects? && r.attempts >= 1024
    decreases |rows|
  {
    if rows != [] {
      var (row, rest) := (rows[0], rows[1..]);
      assert row in rows && rows == [row] + rest;
      forall k | 0 <= k < |rest| ensures rest[k] in t.outbox && rest[k].attempt != row.attempt {
        assert rest[k] in rows && rows[k + 1] == rest[k];
      }
      DeliverHead(t, row, rest, reply, now);
      if reply(row).Accepts? {
        AckTouchesOneAttempt(t, row, now);
        PassCutShortIff(MarkAcked(t, row.attempt, now), rest, reply, now);
      } else {
        FailureTouchesOneRow(t, row, reply(row).error, now);
        if row.attempts < 1024 {
          forall r | r in rest ensures r in RecordFailure(t, row.seqno, reply(row).error, now).outbox {
            FailureKeepsOthers(t, row, reply(row).error, now, r);
          }
          PassCutShortIff(RecordFailure(t, row.seqno, reply(row).error, now), rest, reply, now);
        }
      }
    }
  }

  /** In every reachable journal, a pass that runs alone is cut short exactly by such a row among its due rows. */
  lemma ReachablePassCutShortIff(ms: seq<Move>, reply: OutboxRow -> Reply, now: int, cfg: Config)
    ensures var t := DoAll(BOOT, ms, cfg).t;
            Pass(t, reply, now).raised <==>
              exists r | r in DueRows(t.outbox, now, BATCH) :: reply(r).Rejects? && r.attempts >= 1024
  {
    var t := DoAll(BOOT, ms, cfg).t;
    MovesKeepStored(ms, cfg);
    MovesKeepSeqs(ms, cfg);
    DueRowsDistinct(t.outbox, now, BATCH);
    PassCutShortIff(t, DueRows(t.outbox, now, BATCH), reply, now);
  }

  /**
   With overlapping passes there is a second cause.  In every reachable state, recording that the
   manager rejected a held row raises exactly when the row is gone from the outbox or has failed
   1024 times.
   */
  lemma RejectionRaisesIff(ms: seq<Move>, row: OutboxRow, cfg: Config)
    requires row in DoAll(BOOT, ms, cfg).cleared
    ensures var t := DoAll(BOOT, ms, cfg).t;
            !CanBackOff(t, row.seqno) <==>
              || (forall r | r in t.outbox :: r.seqno != row.seqno)
              || (exists r | r in t.outbox :: r.seqno == row.seqno && r.attempts >= 1024)
  {
    var t := DoAll(BOOT, ms, cfg).t;
    MovesKeepSeqs(ms, cfg);
    if r :| r in t.outbox && r.seqno == row.seqno {
      BackOffIff(t, r);
      IndexOfRow(t.outbox, r);
      forall o | o in t.outbox && o.seqno == row.seqno ensures o == r {
        IndexOfRow(t.outbox, o);
      }
    } else {
      assert forall i | 0 <= i < |t.outbox| :: t.outbox[i] in t.outbox;
    }
  }

  /** One pass acked the row; the other, which had fetched and cleared it before, is rejected and raises. */
  lemma LateRejectionRaises(a: string, run: string, x: string, cfg: Config)
    ensures var s := DoAll(BOOT, Delivered(a, run, x), cfg);
            FirstRow(a, x) in s.cleared && FirstRow(a, x).attempts == 0 && !CanBackOff(s.t, FirstRow(a, x).seqno)
  {
    DeliveredState(a, run, x, cfg);
  }
}
