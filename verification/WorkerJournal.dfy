/**
 The journal object and the drain pass over it, written as the worker runs them.  Every method
 is one transaction; its contract gives the whole new state as the transaction function of the
 old one, so the run theorems of JournalRuns and OutboxDrain hold of this object.
 */
module WorkerJournal {
  import opened Basics
  import opened AuthTokens
  import opened JournalTables
  import opened OutboxDrain

  class Journal {
    const cfg: Config
    var epoch: int
    var reservations: map<string, Reservation>
    var tombstones: map<string, Tombstone>
    var authorizations: map<string, Authorization>
    var watermarks: map<int, int>
    var completions: map<string, Completion>
    var outbox: seq<OutboxRow>
    var nextSeq: nat

    function View(): Tables
      reads this
    {
      Tables(epoch, reservations, tombstones, authorizations, watermarks, completions, outbox, nextSeq)
    }

    constructor (cfg: Config)
      ensures View() == FRESH && this.cfg == cfg
    {
      this.cfg := cfg;
      epoch, nextSeq, outbox := 1, 1, [];
      reservations, tombstones, authorizations, watermarks, completions := map[], map[], map[], map[], map[];
    }

    method Rollback(begin: Tables)
      modifies this
      ensures View() == begin
    {
      epoch, reservations, tombstones := begin.epoch, begin.reservations, begin.tombstones;
      authorizations, watermarks := begin.authorizations, begin.watermarks;
      completions, outbox, nextSeq := begin.completions, begin.outbox, begin.nextSeq;
    }

    method AdvanceWatermark(session: int, ms: int)
      modifies this`watermarks
      ensures watermarks == Advance(old(watermarks), session, ms)
    {
      if session in watermarks && ms <= watermarks[session] {
        watermarks := watermarks[session := watermarks[session]];
      } else {
        watermarks := watermarks[session := ms];
      }
    }

    method Admit(decision: Decision, pipeline: string, now: int, healthy: bool) returns (outcome: Outcome)
      modifies this
      ensures outcome == AdmitOutcome(old(View()), decision, now, healthy, cfg)
      ensures View() == JournalTables.Admit(old(View()), decision, pipeline, now, healthy, cfg)
    {
      if decision.Refused? {
        return RefusedAuth(decision.attempt, decision.reason);
      }
      if !healthy {
        return Closed;
      }
      var g := decision.grant;
      var begin := View();
      AdvanceWatermark(epoch, Millis(now));
      if Millis(now) < watermarks[epoch] - cfg.skew * 1000 {
        Rollback(begin);
        return Closed;
      }
      if g.attempt !in authorizations {
        if TokenInUse(View(), g.token) {
          Rollback(begin);
          return Conflict(g.attempt);
        }
        authorizations := authorizations[g.attempt :=
          Authorization(g.run, g.epoch, g.token, g.issuedAt, g.expiresAt)];
      }
      if g.attempt in tombstones {
        var tomb := tombstones[g.attempt];
        Rollback(begin);
        return Revoked(g.attempt, tomb.reason, tomb.revokedAt);
      }
      if g.attempt in reservations {
        var existing := reservations[g.attempt];
        Rollback(begin);
        return if SameIdentity(existing, g) then AlreadyAdmitted(g.attempt, existing) else Conflict(g.attempt);
      }
      reservations := reservations[g.attempt :=
        Reservation(g.run, pipeline, g.generation, g.slot, g.session, now, Reserved, false)];
      return Admitted(g.attempt);
    }

    method ValidateAndAdmit(p: Presentation) returns (outcome: Outcome)
      modifies this
      ensures outcome == PresentOutcome(old(View()), p, cfg)
      ensures View() == Present(old(View()), p, cfg)
    {
      var verdict := Validate(p.token, EnvOf(p, cfg), cfg.sign);
      match verdict {
        case Raised => return Failed;
        case Rejected(reason) =>
          outcome := Admit(Refused(None, reason), p.pipeline, p.admitNow, p.healthy);
        case Accepted(f) =>
          if TokenInUse(View(), p.token) {
            if TokenFromOldEpoch(View(), p.token) {
              return RefusedAuth(Some(f.attempt), "old session epoch");
            }
          } else if epoch in watermarks && watermarks[epoch] >= WindowEndMillis(f, cfg) {
            return RefusedAuth(Some(f.attempt), "token retired by watermark");
          }
          outcome := Admit(Granted(GrantOf(View(), f, p)), p.pipeline, p.admitNow, p.healthy);
      }
    }

    method MarkRunning(attempt: string) returns (moved: bool)
      modifies this`reservations
      ensures View() == JournalTables.MarkRunning(old(View()), attempt)
      ensures moved <==> View() != old(View())
    {
      moved := attempt in reservations && reservations[attempt].phase == Reserved;
      if moved {
        reservations := reservations[attempt := reservations[attempt].(phase := Running, threadStarted := true)];
        assert reservations[attempt].phase == Running;
      }
    }

    method RecordTombstone(attempt: string, run: string, reason: string, now: int)
      modifies this`tombstones
      ensures View() == JournalTables.RecordTombstone(old(View()), attempt, run, reason, now)
    {
      tombstones := tombstones[attempt := Tombstone(run, reason, now, epoch)];
    }

    /** Returns false where the source raises for want of a run id. */
    method RecordCompletion(attempt: string, result: string, run: Option<string>, now: int, enqueue: bool)
      returns (ok: bool)
      modifies this
      ensures ok <==> CanComplete(old(View()), attempt, run)
      ensures View() == if enqueue then CompleteAndEnqueue(old(View()), attempt, result, run, now)
                        else JournalTables.RecordCompletion(old(View()), attempt, result, run, now)
    {
      if run.None? && attempt !in reservations {
        return false;
      }
      var id := if run.Some? then run.value else reservations[attempt].run;
      if attempt in reservations {
        reservations := reservations[attempt := reservations[attempt].(phase := Completed)];
      }
      if attempt !in completions {
        completions := completions[attempt := Completion(id, result, now, None)];
      }
      assert View() == JournalTables.RecordCompletion(old(View()), attempt, result, run, now);
      if enqueue {
        RespoolAttempt(attempt, now);
      }
      return true;
    }

    method RespoolAttempt(attempt: string, now: int)
      modifies this`outbox, this`nextSeq
      ensures View() == RespoolOne(old(View()), attempt, now)
    {
      if attempt in completions && completions[attempt].ackedAt.None? && !HasRow(outbox, attempt) {
        outbox := outbox + [OutboxRow(nextSeq, attempt, RUN_COMPLETE, completions[attempt].result, now, 0, None)];
        nextSeq := nextSeq + 1;
      }
    }

    /** Boot repair over the completion rows in the order the scan meets them. */
    method RespoolUnacked(scan: seq<string>, now: int)
      modifies this`outbox, this`nextSeq
      ensures View() == Respool(old(View()), scan, now)
    {
      var i := 0;
      while i < |scan|
        invariant i <= |scan|
        invariant View() == Respool(old(View()), scan[..i], now)
      {
        RespoolAttempt(scan[i], now);
        i := i + 1;
        assert scan[..i][..i - 1] == scan[..i - 1];
      }
      assert scan[..i] == scan;
    }

    method MarkAcked(attempt: string, now: int)
      modifies this`completions, this`outbox
      ensures View() == JournalTables.MarkAcked(old(View()), attempt, now)
    {
      if attempt in completions && completions[attempt].ackedAt.None? {
        completions := completions[attempt := completions[attempt].(ackedAt := Some(now))];
      }
      outbox := RowsExcept(outbox, {attempt});
    }

    /** Returns false where the source raises: no such row, or a delay no double can hold. */
    method RecordOutboxFailure(seqno: nat, error: string, now: int) returns (ok: bool)
      modifies this`outbox
      ensures ok <==> CanBackOff(old(View()), seqno)
      ensures View() == RecordFailure(old(View()), seqno, error, now)
    {
      var i := IndexOf(outbox, seqno);
      if i == |outbox| {
        return false;
      }
      var attempts := outbox[i].attempts + 1;
      if BackoffOverflows(attempts) {
        return false;
      }
      outbox := outbox[i := outbox[i].(attempts := attempts, lastError := Some(error),
                                       nextAt := now + BackoffSeconds(attempts) * MICROS)];
      return true;
    }

    method MarkInterruptedOnBoot()
      modifies this`reservations
      ensures View() == MarkInterrupted(old(View()))
    {
      reservations := map a | a in reservations ::
        if reservations[a].phase == Reserved || reservations[a].phase == Running
        then reservations[a].(phase := Interrupted) else reservations[a];
    }

    method AdvanceSessionEpoch() returns (session: int)
      modifies this`epoch
      ensures View() == AdvanceEpoch(old(View())) && session == epoch
    {
      epoch := epoch + 1;
      session := epoch;
    }

    method RecoverClockLowering(now: int) returns (session: int)
      modifies this`epoch, this`watermarks
      ensures View() == RecoverClock(old(View()), now) && session == epoch
    {
      epoch := epoch + 1;
      AdvanceWatermark(epoch, Millis(now));
      session := epoch;
    }

    method GcExpired(now: int)
      modifies this`watermarks, this`authorizations, this`tombstones
      ensures View() == JournalTables.GcExpired(old(View()), now, cfg)
    {
      AdvanceWatermark(epoch, Millis(now));
      var cutoff := now - cfg.skew * MICROS;
      var expired := set a | a in authorizations && authorizations[a].expiresAt <= cutoff;
      assert expired == Expired(old(View()), now, cfg);
      authorizations := authorizations - expired;
      tombstones := tombstones - expired;
    }

    method CleanupRetention(now: int)
      modifies this`watermarks, this`completions, this`outbox, this`tombstones
      ensures View() == JournalTables.CleanupRetention(old(View()), now, cfg)
    {
      AdvanceWatermark(epoch, Millis(now));
      var gone := AckedBefore(View(), now - cfg.audit * MICROS);
      assert gone == AckedBefore(old(View()), now - cfg.audit * MICROS);
      var resolved := ResolvedTombstones(View(), now, cfg);
      assert resolved == ResolvedTombstones(old(View()), now, cfg) by {
        assert Expired(View(), now, cfg) == Expired(old(View()), now, cfg);
      }
      completions := completions - gone;
      outbox := RowsExcept(outbox, gone);
      tombstones := tombstones - resolved;
    }
  }

  /** One drain pass; `raised` is the error that a failure which cannot be recorded lets escape. */
  method DrainOutboxOnce(journal: Journal, reply: OutboxRow -> Reply, now: int) returns (processed: nat, raised: bool)
    modifies journal
    ensures PassResult(journal.View(), processed, raised) == Pass(old(journal.View()), reply, now)
  {
    var rows := DueRows(journal.outbox, now, BATCH);
    processed := 0;
    var i := 0;
    while i < |rows|
      invariant i <= |rows|
      invariant var r := Deliver(journal.View(), rows[i..], reply, now);
                Pass(old(journal.View()), reply, now) == r.(processed := r.processed + processed)
    {
      var row := rows[i];
      assert rows[i..][0] == row && rows[i..][1..] == rows[i + 1..];
      i := i + 1;
      if GetAttempt(journal.View(), row.attempt) == KCompletion(true) {
        continue;
      }
      processed := processed + 1;
      if reply(row).Accepts? {
        journal.MarkAcked(row.attempt, now);
      } else {
        var ok := journal.RecordOutboxFailure(row.seqno, reply(row).error, now);
        if !ok {
          return processed, true;
        }
      }
    }
    return processed, false;
  }
}
