/** Why the writer starts a new part: in every run exactly where a limit forces it. */
module WriterRolls {
  import opened Basics
  import opened Payloads
  import opened RollingWriter
  import opened PartLimits
  import opened WriterRuns

  /** By the chunks already in the part, `c` comes too late for it or would take it over a limit. */
  predicate Forces(format: Format, limits: Limits, openedAt: int, chunks: seq<Chunk>, c: Chunk) {
    || (limits.maxSeconds.Some? && c.now - openedAt >= limits.maxSeconds.value * MICROS)
    || (limits.maxRecords.Some? && Total(format, chunks) > 0
        && Total(format, chunks) + c.records > limits.maxRecords.value)
    || (limits.maxBytes.Some? && |PartLimits.Bytes(format, chunks)| > 0
        && |PartLimits.Bytes(format, chunks)| + |c.data| > limits.maxBytes.value)
  }

  lemma RollsIffForced(format: Format, limits: Limits, s: Part, p: PartLog, c: Chunk)
    requires Summary(format, s, p.chunks) && s.openedAt == p.openedAt
    ensures ShouldRoll(s, c, limits) <==> Forces(format, limits, p.openedAt, p.chunks, c)
  {
  }

  // ── one key's parts ───────────────────────────────────────────────────────

  /** The first chunk of `next` was forced out of `p`. */
  predicate Follows(cfg: Config, p: PartLog, next: PartLog) {
    next.chunks != [] && Forces(cfg.format, cfg.limits, p.openedAt, p.chunks, next.chunks[0])
  }

  predicate RollsForced(cfg: Config, ps: seq<PartLog>) {
    forall i, j | 0 <= i && j == i + 1 < |ps| :: Follows(cfg, ps[i], ps[j])
  }

  /** No chunk that joined a part was forced out of it. */
  predicate Unforced(cfg: Config, p: PartLog) {
    forall j | 0 < j < |p.chunks| :: !Forces(cfg.format, cfg.limits, p.openedAt, p.chunks[..j], p.chunks[j])
  }

  predicate AllUnforced(cfg: Config, ps: seq<PartLog>) {
    forall i | 0 <= i < |ps| :: Unforced(cfg, ps[i])
  }

  /** The first refused chunk was forced out of the last part, or there may be no part at all. */
  predicate RefusalForced(cfg: Config, ps: seq<PartLog>, refused: seq<Chunk>) {
    refused != [] ==>
      if ps == [] then cfg.limits.maxIndex < 1
      else Forces(cfg.format, cfg.limits, ps[|ps| - 1].openedAt, ps[|ps| - 1].chunks, refused[0])
  }

  /** Until a chunk is refused, the last part stays open. */
  predicate LastOpen(state: Option<Part>, ps: seq<PartLog>, refused: seq<Chunk>) {
    refused == [] && ps != [] ==> state.Some?
  }

  predicate RollInv(cfg: Config, w: World, key: Key) {
    var (ps, refused) := (PartsOf(w.logs.parts, key), Of(w.logs.refused, key));
    && RollsForced(cfg, ps) && AllUnforced(cfg, ps)
    && RefusalForced(cfg, ps, refused) && LastOpen(Get(w.writer.states, key), ps, refused)
  }

  /** A chunk that does not fit the key's open part was forced out of it. */
  lemma ClosingIsForced(cfg: Config, w: Writer, c: Chunk, ps: seq<PartLog>)
    requires KeyOk(cfg, w, c.key, ps) && Rolls(w, c, cfg) && LastOpen(Get(w.states, c.key), ps, [])
    ensures ps != [] ==> Forces(cfg.format, cfg.limits, ps[|ps| - 1].openedAt, ps[|ps| - 1].chunks, c)
  {
    if ps != [] {
      RollsIffForced(cfg.format, cfg.limits, w.states[c.key], ps[|ps| - 1], c);
    }
  }

  lemma OpenedStays(cfg: Config, w: Writer, c: Chunk)
    requires ActionOn(w, c, cfg).Opening?
    ensures Get(Write(w, c, cfg).states, c.key).Some?
  {
    OpenEffect(w, c, cfg);
  }

  lemma OpeningKeepsRolls(cfg: Config, ps: seq<PartLog>, p: PartLog, c: Chunk)
    requires RollsForced(cfg, ps) && AllUnforced(cfg, ps) && p.chunks == [c]
    requires ps != [] ==> Forces(cfg.format, cfg.limits, ps[|ps| - 1].openedAt, ps[|ps| - 1].chunks, c)
    ensures RollsForced(cfg, ps + [p]) && AllUnforced(cfg, ps + [p])
  {
  }

  lemma ExtendedUnforced(cfg: Config, p: PartLog, c: Chunk)
    requires Unforced(cfg, p) && !Forces(cfg.format, cfg.limits, p.openedAt, p.chunks, c)
    ensures Unforced(cfg, p.(chunks := p.chunks + [c]))
  {
    var chunks := p.chunks + [c];
    forall j | 0 < j < |chunks| ensures !Forces(cfg.format, cfg.limits, p.openedAt, chunks[..j], chunks[j]) {
      if j < |p.chunks| {
        assert chunks[..j] == p.chunks[..j];
      } else {
        assert chunks[..j] == p.chunks;
      }
    }
  }

  lemma ExtendingKeepsRolls(cfg: Config, ps: seq<PartLog>, c: Chunk)
    requires ps != [] && RollsForced(cfg, ps) && ps[|ps| - 1].chunks != [] && AllUnforced(cfg, ps)
    requires !Forces(cfg.format, cfg.limits, ps[|ps| - 1].openedAt, ps[|ps| - 1].chunks, c)
    ensures RollsForced(cfg, Extend(ps, c)) && AllUnforced(cfg, Extend(ps, c))
  {
    var ps' := Extend(ps, c);
    ExtendedUnforced(cfg, ps[|ps| - 1], c);
    forall i, j | 0 <= i && j == i + 1 < |ps'| ensures Follows(cfg, ps'[i], ps'[j]) {
      assert Follows(cfg, ps[i], ps[j]);
    }
  }

  /** A chunk that joins the open part was not forced out of it. */
  lemma JoiningIsUnforced(cfg: Config, w: Writer, c: Chunk, ps: seq<PartLog>)
    requires KeyOk(cfg, w, c.key, ps) && !Rolls(w, c, cfg)
    ensures ps != [] && ps[|ps| - 1].chunks != []
    ensures !Forces(cfg.format, cfg.limits, ps[|ps| - 1].openedAt, ps[|ps| - 1].chunks, c)
    ensures Get(Write(w, c, cfg).states, c.key).Some?
  {
    ExtendEffect(w, c, cfg);
    assert PartOk(cfg, c.key, ps[|ps| - 1], |ps| - 1);
    RollsIffForced(cfg.format, cfg.limits, w.states[c.key], ps[|ps| - 1], c);
  }

  // ── every step ────────────────────────────────────────────────────────────

  lemma ElsewhereKeepsRollInv(cfg: Config, w: World, c: Chunk, key: Key)
    requires RollInv(cfg, w, key) && key != c.key
    ensures RollInv(cfg, Step(w, c, cfg), key)
  {
    OtherKeysKept(w.writer, c, cfg, key);
    RecordParts(w.logs, c, ActionOn(w.writer, c, cfg), key);
    OfOther(w.logs.refused, c, key);
  }

  lemma RefusingKeepsRollInv(cfg: Config, w: World, cs: seq<Chunk>, c: Chunk)
    requires RollInv(cfg, w, c.key) && KeyInv(cfg, w, cs, c.key) && Refuses(w.writer, c, cfg)
    ensures RollInv(cfg, Step(w, c, cfg), c.key)
  {
    var (ps, refused) := (PartsOf(w.logs.parts, c.key), Of(w.logs.refused, c.key));
    OfGrown(w.logs.refused, c, c.key);
    if refused == [] {
      ClosingIsForced(cfg, w.writer, c, ps);
    }
  }

  lemma OpeningKeepsRollInv(cfg: Config, w: World, cs: seq<Chunk>, c: Chunk)
    requires RollInv(cfg, w, c.key) && KeyInv(cfg, w, cs, c.key) && ActionOn(w.writer, c, cfg).Opening?
    requires Of(w.logs.refused, c.key) == []
    ensures RollInv(cfg, Step(w, c, cfg), c.key)
  {
    var (ps, action) := (PartsOf(w.logs.parts, c.key), ActionOn(w.writer, c, cfg));
    OpenedStays(cfg, w.writer, c);
    RecordParts(w.logs, c, action, c.key);
    ClosingIsForced(cfg, w.writer, c, ps);
    OpeningKeepsRolls(cfg, ps, PartLog(action.index, c.now, [c]), c);
  }

  lemma ExtendingKeepsRollInv(cfg: Config, w: World, cs: seq<Chunk>, c: Chunk)
    requires RollInv(cfg, w, c.key) && KeyInv(cfg, w, cs, c.key) && ActionOn(w.writer, c, cfg).Extending?
    requires Of(w.logs.refused, c.key) == []
    ensures RollInv(cfg, Step(w, c, cfg), c.key)
  {
    var ps := PartsOf(w.logs.parts, c.key);
    JoiningIsUnforced(cfg, w.writer, c, ps);
    RecordParts(w.logs, c, Extending, c.key);
    ExtendingKeepsRolls(cfg, ps, c);
  }

  lemma StepKeepsRollInv(cfg: Config, w: World, cs: seq<Chunk>, c: Chunk, key: Key)
    requires RollInv(cfg, w, key) && KeyInv(cfg, w, cs, key)
    ensures RollInv(cfg, Step(w, c, cfg), key)
  {
    if key != c.key {
      ElsewhereKeepsRollInv(cfg, w, c, key);
    } else if Refuses(w.writer, c, cfg) {
      RefusingKeepsRollInv(cfg, w, cs, c);
    } else {
      if Of(w.logs.refused, key) != [] {
        CapIsFinal(cfg, w.writer, c, |Of(w.logs.refused, key)|);
      }
      if ActionOn(w.writer, c, cfg).Opening? {
        OpeningKeepsRollInv(cfg, w, cs, c);
      } else {
        ExtendingKeepsRollInv(cfg, w, cs, c);
      }
    }
  }

  lemma {:induction false} RunKeepsRollInv(disk: Disk, cs: seq<Chunk>, cfg: Config, key: Key)
    ensures RollInv(cfg, Run(disk, cs, cfg), key)
  {
    if cs != [] {
      var (init, c) := (cs[..|cs| - 1], cs[|cs| - 1]);
      RunKeepsRollInv(disk, init, cfg, key);
      RunKeepsKey(disk, init, cfg, key);
      StepKeepsRollInv(cfg, Run(disk, init, cfg), init, c, key);
    }
  }

  // ── results ───────────────────────────────────────────────────────────────

  /**
   In every run a key's chunk stays in the open part exactly where no limit forces it out: the first
   chunk of each later part was forced out of the part before, none that joined a part was, and the
   first refused chunk was forced out of the last part, unless no part is allowed at all.
   */
  lemma PartsRollOnlyWhenForced(disk: Disk, cs: seq<Chunk>, cfg: Config, key: Key)
    ensures var w := Run(disk, cs, cfg);
            var (ps, refused) := (PartsOf(w.logs.parts, key), Of(w.logs.refused, key));
            RollsForced(cfg, ps) && AllUnforced(cfg, ps) && RefusalForced(cfg, ps, refused)
  {
    RunKeepsRollInv(disk, cs, cfg, key);
  }

  /** Without limits everything written to a key is in one part. */
  lemma NoLimitsOnePart(disk: Disk, cs: seq<Chunk>, cfg: Config, key: Key)
    requires cfg.limits.maxRecords.None? && cfg.limits.maxSeconds.None? && cfg.limits.maxBytes.None?
    requires cfg.limits.maxIndex >= 1
    ensures var ps := PartsOf(Run(disk, cs, cfg).logs.parts, key);
            |ps| <= 1 && Flat(ps) == Of(cs, key)
  {
    RunKeepsRollInv(disk, cs, cfg, key);
    RunKeepsKey(disk, cs, cfg, key);
    var w := Run(disk, cs, cfg);
    var ps := PartsOf(w.logs.parts, key);
    assert Of(w.logs.refused, key) == [];
    assert |ps| > 1 ==> Follows(cfg, ps[0], ps[1]);
  }
}
