/** What one pass over the outbox does to every row, whatever the manager answers. */
module OutboxPass {
  import opened Basics
  import opened JournalTables
  import opened JournalRuns
  import opened OutboxDrain
  import opened OutboxOverflow

  /** The row after one more failure. */
  function Backed(r: OutboxRow, error: string, now: int): OutboxRow {
    r.(attempts := r.attempts + 1, lastError := Some(error), nextAt := now + BackoffSeconds(r.attempts + 1) * MICROS)
  }

  /** Rejected rows of the batch reappear backed off; everything else of the batch is gone. */
  ghost predicate Settled(outbox: seq<OutboxRow>, outbox': seq<OutboxRow>, rows: seq<OutboxRow>,
                          reply: OutboxRow -> Reply, now: int) {
    forall q: OutboxRow ::
      q in outbox' <==> (q in outbox && q !in rows)
                        || exists r | r in rows && reply(r).Rejects? :: q == Backed(r, reply(r).error, now)
  }

  /** Results of accepted rows are acked now; every other result is as it was. */
  ghost predicate Stamped(t: Tables, t': Tables, rows: seq<OutboxRow>, reply: OutboxRow -> Reply, now: int) {
    && t'.completions.Keys == t.completions.Keys
    && forall a | a in t.completions ::
         t'.completions[a] == if exists r | r in rows && reply(r).Accepts? :: r.attempt == a
                              then t.completions[a].(ackedAt := Some(now)) else t.completions[a]
  }

  lemma AckedOutbox(t: Tables, row: OutboxRow, now: int)
    requires RowsOk(t) && row in t.outbox
    ensures forall q: OutboxRow :: q in MarkAcked(t, row.attempt, now).outbox <==> q in t.outbox && q != row
  {
    var i :| 0 <= i < |t.outbox| && t.outbox[i] == row;
    forall q: OutboxRow | q in t.outbox && q.attempt == row.attempt ensures q == row {
      var j :| 0 <= j < |t.outbox| && t.outbox[j] == q;
    }
  }

  lemma FailedOutbox(t: Tables, row: OutboxRow, error: string, now: int)
    requires RowsOk(t) && DistinctSeqnos(t.outbox) && row in t.outbox && row.attempts < 1024
    ensures forall q: OutboxRow :: q in RecordFailure(t, row.seqno, error, now).outbox <==>
              (q in t.outbox && q != row) || q == Backed(row, error, now)
    ensures RecordFailure(t, row.seqno, error, now).completions == t.completions
  {
    IndexOfRow(t.outbox, row);
    BackOffIff(t, row);
    var (i, t') := (IndexOf(t.outbox, row.seqno), RecordFailure(t, row.seqno, error, now));
    assert t'.outbox[i] == Backed(row, error, now);
    forall q: OutboxRow | q in t.outbox && q != row ensures q in t'.outbox {
      var j :| 0 <= j < |t.outbox| && t.outbox[j] == q;
      assert t'.outbox[j] == q;
    }
    forall q: OutboxRow | q in t'.outbox && q != t'.outbox[i] ensures q in t.outbox && q != row {
      var j :| 0 <= j < |t'.outbox| && t'.outbox[j] == q;
      assert t.outbox[j] == q && j != i;
    }
  }

  lemma SettledAck(outbox: seq<OutboxRow>, mid: seq<OutboxRow>, last: seq<OutboxRow>, row: OutboxRow,
                   rest: seq<OutboxRow>, reply: OutboxRow -> Reply, now: int)
    requires reply(row).Accepts? && row !in rest
    requires forall q: OutboxRow :: q in mid <==> q in outbox && q != row
    requires Settled(mid, last, rest, reply, now)
    ensures Settled(outbox, last, [row] + rest, reply, now)
  {
  }

  lemma SettledFail(outbox: seq<OutboxRow>, mid: seq<OutboxRow>, last: seq<OutboxRow>, row: OutboxRow,
                    rest: seq<OutboxRow>, reply: OutboxRow -> Reply, now: int)
    requires reply(row).Rejects? && row !in rest && Backed(row, reply(row).error, now) !in rest
    requires forall q: OutboxRow :: q in mid <==> (q in outbox && q != row) || q == Backed(row, reply(row).error, now)
    requires Settled(mid, last, rest, reply, now)
    ensures Settled(outbox, last, [row] + rest, reply, now)
  {
    var rows := [row] + rest;
    assert row in rows;
    forall q: OutboxRow
      ensures q in last <==> (q in outbox && q !in rows)
                             || exists r | r in rows && reply(r).Rejects? :: q == Backed(r, reply(r).error, now)
    {
      if r :| r in rest && reply(r).Rejects? && q == Backed(r, reply(r).error, now) {
        assert r in rows;
      }
    }
  }

  lemma StampedAck(t: Tables, t': Tables, row: OutboxRow, rest: seq<OutboxRow>, reply: OutboxRow -> Reply, now: int)
    requires reply(row).Accepts? && Unacked(t, row.attempt) && (forall r | r in rest :: r.attempt != row.attempt)
    requires Stamped(MarkAcked(t, row.attempt, now), t', rest, reply, now)
    ensures Stamped(t, t', [row] + rest, reply, now)
  {
    var rows := [row] + rest;
    assert row in rows;
    forall a | a in t.completions
      ensures t'.completions[a] == if exists r | r in rows && reply(r).Accepts? :: r.attempt == a
                                   then t.completions[a].(ackedAt := Some(now)) else t.completions[a]
    {
      if r :| r in rest && reply(r).Accepts? && r.attempt == a {
        assert r in rows;
      }
    }
  }

  lemma StampedFail(t: Tables, mid: Tables, t': Tables, row: OutboxRow, rest: seq<OutboxRow>,
                    reply: OutboxRow -> Reply, now: int)
    requires reply(row).Rejects? && mid.completions == t.completions
    requires Stamped(mid, t', rest, reply, now)
    ensures Stamped(t, t', [row] + rest, reply, now)
  {
    var rows := [row] + rest;
    forall a | a in t.completions
      ensures t'.completions[a] == if exists r | r in rows && reply(r).Accepts? :: r.attempt == a
                                   then t.completions[a].(ackedAt := Some(now)) else t.completions[a]
    {
      if r :| r in rest && reply(r).Accepts? && r.attempt == a {
        assert r in rows;
      }
    }
  }

  /** The journal after one row was sent and answered. */
  function Sent(t: Tables, row: OutboxRow, reply: OutboxRow -> Reply, now: int): Tables {
    if reply(row).Accepts? then MarkAcked(t, row.attempt, now)
    else RecordFailure(t, row.seqno, reply(row).error, now)
  }

  lemma DeliverCounts(t: Tables, row: OutboxRow, rest: seq<OutboxRow>, reply: OutboxRow -> Reply, now: int)
    requires RowsOk(t) && row in t.outbox && (reply(row).Rejects? ==> CanBackOff(t, row.seqno))
    ensures var next := Deliver(Sent(t, row, reply, now), rest, reply, now);
            Deliver(t, [row] + rest, reply, now) == PassResult(next.t, next.processed + 1, next.raised)
  {
    assert ([row] + rest)[1..] == rest;
  }

  /** After the first row, the others are still there to be sent. */
  lemma HeadSettled(t: Tables, row: OutboxRow, rest: seq<OutboxRow>, reply: OutboxRow -> Reply, now: int)
    requires RowsOk(t) && DistinctSeqnos(t.outbox) && row in t.outbox && (reply(row).Rejects? ==> row.attempts < 1024)
    requires forall r | r in rest :: r in t.outbox && r.attempt != row.attempt
    ensures var mid := Sent(t, row, reply, now);
            RowsOk(mid) && DistinctSeqnos(mid.outbox) && forall r | r in rest :: r in mid.outbox
    ensures reply(row).Rejects? ==> CanBackOff(t, row.seqno)
  {
    if reply(row).Accepts? {
      AckTouchesOneAttempt(t, row, now);
    } else {
      FailureTouchesOneRow(t, row, reply(row).error, now);
      forall r | r in rest ensures r in RecordFailure(t, row.seqno, reply(row).error, now).outbox {
        FailureKeepsOthers(t, row, reply(row).error, now, r);
      }
    }
  }

  /** What the rest of the batch does after the first row is what the whole batch does. */
  lemma HeadJoins(t: Tables, row: OutboxRow, rest: seq<OutboxRow>, reply: OutboxRow -> Reply, now: int)
    requires RowsOk(t) && DistinctSeqnos(t.outbox) && row in t.outbox && (reply(row).Rejects? ==> row.attempts < 1024)
    requires forall r | r in rest :: r.attempt != row.attempt
    requires var (mid, t') := (Sent(t, row, reply, now), Deliver(Sent(t, row, reply, now), rest, reply, now).t);
             Settled(mid.outbox, t'.outbox, rest, reply, now) && Stamped(mid, t', rest, reply, now)
    ensures var t' := Deliver(Sent(t, row, reply, now), rest, reply, now).t;
            Settled(t.outbox, t'.outbox, [row] + rest, reply, now) && Stamped(t, t', [row] + rest, reply, now)
  {
    var mid := Sent(t, row, reply, now);
    var t' := Deliver(mid, rest, reply, now).t;
    if reply(row).Accepts? {
      AckedOutbox(t, row, now);
      SettledAck(t.outbox, mid.outbox, t'.outbox, row, rest, reply, now);
      StampedAck(t, t', row, rest, reply, now);
    } else {
      FailedOutbox(t, row, reply(row).error, now);
      SettledFail(t.outbox, mid.outbox, t'.outbox, row, rest, reply, now);
      StampedFail(t, mid, t', row, rest, reply, now);
    }
  }

  /**
   A batch without an overflowing row is worked through to the end: each row is sent once, accepted
   rows leave and their results are acked, rejected rows stay backed off, and no other row changes.
   */
  lemma {:induction false} EachRowSettled(t: Tables, rows: seq<OutboxRow>, reply: OutboxRow -> Reply, now: int)
    requires RowsOk(t) && DistinctSeqnos(t.outbox) && DistinctAttempts(rows)
    requires forall r | r in rows :: r in t.outbox && (reply(r).Rejects? ==> r.attempts < 1024)
    ensures var r := Deliver(t, rows, reply, now);
            && !r.raised && r.processed == |rows|
            && Settled(t.outbox, r.t.outbox, rows, reply, now) && Stamped(t, r.t, rows, reply, now)
    decreases |rows|
  {
    if rows != [] {
      var (row, rest) := (rows[0], rows[1..]);
      assert rows == [row] + rest && row in rows;
      TailDistinct(row, rest);
      forall r | r in rest ensures r in rows {}
      HeadSettled(t, row, rest, reply, now);
      EachRowSettled(Sent(t, row, reply, now), rest, reply, now);
      DeliverCounts(t, row, rest, reply, now);
      HeadJoins(t, row, rest, reply, now);
    }
  }

  /** So it is in every reachable journal, for the first ten due rows. */
  lemma ReachablePassSettles(ms: seq<Move>, reply: OutboxRow -> Reply, now: int, cfg: Config)
    requires forall r | r in DoAll(BOOT, ms, cfg).t.outbox && reply(r).Rejects? :: r.attempts < 1024
    ensures var t := DoAll(BOOT, ms, cfg).t;
            var (r, rows) := (Pass(t, reply, now), DueRows(t.outbox, now, BATCH));
            && !r.raised && r.processed == |rows|
            && Settled(t.outbox, r.t.outbox, rows, reply, now) && Stamped(t, r.t, rows, reply, now)
  {
    var t := DoAll(BOOT, ms, cfg).t;
    MovesKeepStored(ms, cfg);
    MovesKeepSeqs(ms, cfg);
    DueRowsDistinct(t.outbox, now, BATCH);
    EachRowSettled(t, DueRows(t.outbox, now, BATCH), reply, now);
  }
}
