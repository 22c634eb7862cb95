/** What holds of every run of the append-mode writer. */
module WriterResults {
  import opened Basics
  import opened CsvParts
  import opened Payloads
  import opened RollingWriter
  import opened PartLimits
  import opened WriterRuns
  import opened WriterFiles

  /** The parts' files did not exist before the run. */
  predicate FreshFor(cfg: Config, disk: Disk, key: Key, ps: seq<PartLog>) {
    forall i | 0 <= i < |ps| :: PartDest(cfg, key, ps[i]) !in disk
  }

  function FileBytes(files: Disk, path: Path): Payloads.Bytes {
    if path in files then files[path] else []
  }

  /**
   Nothing lost, repeated or reordered: a key's chunks are those in its parts, in order, followed
   by the refused ones; each part's file is the bytes of its chunks behind what the file held
   before; and no other file changed.
   */
  lemma PartsHoldTheChunks(disk: Disk, cs: seq<Chunk>, cfg: Config, scope: Scope, key: Key)
    requires Separate(cfg, scope) && InScope(cs, scope)
    ensures var w := Run(disk, cs, cfg);
            var ps := PartsOf(w.logs.parts, key);
            && Of(cs, key) == Flat(ps) + Of(w.logs.refused, key)
            && (forall i | 0 <= i < |ps| :: FileOk(cfg, disk, w.writer.files, key, ps[i]))
            && (forall path: Path | !IsDest(cfg, w.logs.parts, path) :: Get(w.writer.files, path) == Get(disk, path))
  {
    RunKeepsKey(disk, cs, cfg, key);
    RunKeepsFiles(disk, cs, cfg, scope);
    var w := Run(disk, cs, cfg);
    var ps := PartsOf(w.logs.parts, key);
    forall i | 0 <= i < |ps| ensures FileOk(cfg, disk, w.writer.files, key, ps[i]) {
      assert HasPart(w.logs.parts, key, i) && PartAt(w.logs.parts, key, i) == ps[i];
    }
  }

  /**
   Parts are numbered 1, 2, ... up to the cap.  A part is over the record limit only with a single
   counted write; with two or more non-empty writes it is at most the byte limit plus one newline;
   and it takes no write once its time is up.  Every refused write is counted once, and refusals
   start only when the next part would be past the cap.
   */
  lemma PartsWithinLimits(disk: Disk, cs: seq<Chunk>, cfg: Config, key: Key)
    ensures var w := Run(disk, cs, cfg);
            var (ps, refused) := (PartsOf(w.logs.parts, key), Of(w.logs.refused, key));
            && (forall i | 0 <= i < |ps| ::
                  && ps[i].index == i + 1 <= cfg.limits.maxIndex
                  && RecordsKept(cfg.format, cfg.limits, ps[i].chunks)
                  && BytesKept(cfg.format, cfg.limits, ps[i].chunks)
                  && TimeKept(cfg.limits, ps[i].openedAt, ps[i].chunks))
            && CountOf(w.writer.dropped, key) == |refused|
            && (refused != [] ==> |ps| + 1 > cfg.limits.maxIndex)
  {
    RunKeepsKey(disk, cs, cfg, key);
    var ps := PartsOf(Run(disk, cs, cfg).logs.parts, key);
    assert forall i | 0 <= i < |ps| :: PartOk(cfg, key, ps[i], i);
  }

  /** Once a write of a key was refused in a run, so is every later one. */
  lemma RefusalIsFinal(disk: Disk, cs: seq<Chunk>, c: Chunk, cfg: Config)
    requires Of(Run(disk, cs, cfg).logs.refused, c.key) != []
    ensures Refuses(Run(disk, cs, cfg).writer, c, cfg)
  {
    RunKeepsKey(disk, cs, cfg, c.key);
    CapIsFinal(cfg, Run(disk, cs, cfg).writer, c, |Of(Run(disk, cs, cfg).logs.refused, c.key)|);
  }

  lemma FreshFile(cfg: Config, disk: Disk, files: Disk, key: Key, p: PartLog)
    requires FileOk(cfg, disk, files, key, p) && PartDest(cfg, key, p) !in disk
    ensures FileBytes(files, PartDest(cfg, key, p)) == PartLimits.Bytes(cfg.format, p.chunks)
  {
    assert [] + PartLimits.Bytes(cfg.format, p.chunks) == PartLimits.Bytes(cfg.format, p.chunks);
  }

  /**
   In every run a CSV file has one header and then the rows of its chunks exactly when its opening
   chunk was not empty, every later chunk has a one-line header, and appends fell on record ends.
   */
  lemma CsvFilesHaveOneHeader(disk: Disk, cs: seq<Chunk>, cfg: Config, scope: Scope, key: Key, i: nat, q: Byte)
    requires Separate(cfg, scope) && InScope(cs, scope) && cfg.format == Csv(true)
    requires var ps := PartsOf(Run(disk, cs, cfg).logs.parts, key); i < |ps| && PartDest(cfg, key, ps[i]) !in disk
    ensures var w := Run(disk, cs, cfg);
            var p := PartsOf(w.logs.parts, key)[i];
            && p.chunks != []
            && (HasOneHeader(FileBytes(w.writer.files, PartDest(cfg, key, p)), Datas(p.chunks), q) <==>
                p.chunks[0].data != [] && WellAppended(Datas(p.chunks), q))
  {
    PartsHoldTheChunks(disk, cs, cfg, scope, key);
    RunKeepsKey(disk, cs, cfg, key);
    var w := Run(disk, cs, cfg);
    var p := PartsOf(w.logs.parts, key)[i];
    assert PartOk(cfg, key, p, i);
    FreshFile(cfg, disk, w.writer.files, key, p);
    DatasSize(p.chunks);
    CsvPartHasOneHeader(Datas(p.chunks), q);
  }

  /** The records a reader finds in a key's files, taken in part order. */
  function ReadBack(cfg: Config, files: Disk, key: Key, ps: seq<PartLog>, nl: Payloads.Bytes): seq<Payloads.Bytes> {
    if ps == [] then [] else
      ReadBack(cfg, files, key, ps[..|ps| - 1], nl)
      + Records(FileBytes(files, PartDest(cfg, key, ps[|ps| - 1])), nl)
  }

  lemma DatasStep(chunks: seq<Chunk>, c: Chunk)
    ensures Datas(chunks + [c]) == Datas(chunks) + [c.data]
  {
    assert (chunks + [c])[..|chunks|] == chunks;
  }

  lemma {:induction false} DatasConcat(a: seq<Chunk>, b: seq<Chunk>)
    ensures Datas(a + b) == Datas(a) + Datas(b)
  {
    if b == [] {
      assert a + b == a;
    } else {
      var (init, last) := (b[..|b| - 1], b[|b| - 1]);
      DatasConcat(a, init);
      assert b == init + [last];
      Reassociate(a, init, [last]);
      DatasStep(a + init, last);
      DatasStep(init, last);
      Reassociate(Datas(a), Datas(init), [last.data]);
    }
  }

  lemma AllRecordsStep(a: seq<Payloads.Bytes>, d: Payloads.Bytes, nl: Payloads.Bytes)
    ensures AllRecords(a + [d], nl) == AllRecords(a, nl) + Records(d, nl)
  {
    assert (a + [d])[..|a|] == a;
  }

  lemma {:induction false} AllRecordsConcat(a: seq<Payloads.Bytes>, b: seq<Payloads.Bytes>, nl: Payloads.Bytes)
    ensures AllRecords(a + b, nl) == AllRecords(a, nl) + AllRecords(b, nl)
  {
    if b == [] {
      assert a + b == a;
    } else {
      var (init, last) := (b[..|b| - 1], b[|b| - 1]);
      AllRecordsConcat(a, init, nl);
      assert b == init + [last];
      Reassociate(a, init, [last]);
      AllRecordsStep(a + init, last, nl);
      AllRecordsStep(init, last, nl);
      Reassociate(AllRecords(a, nl), AllRecords(init, nl), Records(last, nl));
    }
  }

  lemma FlatRecords(init: seq<PartLog>, last: PartLog, nl: Payloads.Bytes)
    ensures AllRecords(Datas(Flat(init + [last])), nl) ==
            AllRecords(Datas(Flat(init)), nl) + AllRecords(Datas(last.chunks), nl)
  {
    assert (init + [last])[..|init|] == init;
    DatasConcat(Flat(init), last.chunks);
    AllRecordsConcat(Datas(Flat(init)), Datas(last.chunks), nl);
  }

  lemma PartReadsBack(cfg: Config, disk: Disk, files: Disk, key: Key, p: PartLog, nl: Payloads.Bytes)
    requires nl != [] && !Bordered(nl) && cfg.format == Ndjson(nl)
    requires FileOk(cfg, disk, files, key, p) && PartDest(cfg, key, p) !in disk
    ensures Records(FileBytes(files, PartDest(cfg, key, p)), nl) == AllRecords(Datas(p.chunks), nl)
  {
    FreshFile(cfg, disk, files, key, p);
    NdjsonPartKeepsRecords(Datas(p.chunks), nl);
  }

  lemma ReadBackStep(cfg: Config, files: Disk, key: Key, init: seq<PartLog>, last: PartLog, nl: Payloads.Bytes)
    ensures ReadBack(cfg, files, key, init + [last], nl)
            == ReadBack(cfg, files, key, init, nl) + Records(FileBytes(files, PartDest(cfg, key, last)), nl)
  {
    assert (init + [last])[..|init|] == init;
  }

  lemma {:induction false} PartsReadBack(cfg: Config, disk: Disk, files: Disk, key: Key, ps: seq<PartLog>,
                                         nl: Payloads.Bytes)
    requires nl != [] && !Bordered(nl) && cfg.format == Ndjson(nl)
    requires forall i | 0 <= i < |ps| :: FileOk(cfg, disk, files, key, ps[i]) && PartDest(cfg, key, ps[i]) !in disk
    ensures ReadBack(cfg, files, key, ps, nl) == AllRecords(Datas(Flat(ps)), nl)
  {
    if ps != [] {
      var (init, last) := (ps[..|ps| - 1], ps[|ps| - 1]);
      assert ps == init + [last];
      PartsReadBack(cfg, disk, files, key, init, nl);
      PartReadsBack(cfg, disk, files, key, last, nl);
      ReadBackStep(cfg, files, key, init, last, nl);
      FlatRecords(init, last, nl);
    }
  }

  /**
   However the run was cut into parts, reading a key's ndjson files in part order gives back
   exactly the records of the key's accepted chunks, in order.
   */
  lemma NdjsonKeyReadsBack(disk: Disk, cs: seq<Chunk>, cfg: Config, scope: Scope, key: Key, nl: Payloads.Bytes)
    requires Separate(cfg, scope) && InScope(cs, scope)
    requires nl != [] && !Bordered(nl) && cfg.format == Ndjson(nl)
    requires FreshFor(cfg, disk, key, PartsOf(Run(disk, cs, cfg).logs.parts, key))
    ensures var w := Run(disk, cs, cfg);
            ReadBack(cfg, w.writer.files, key, PartsOf(w.logs.parts, key), nl)
            == AllRecords(Datas(Of(w.logs.accepted, key)), nl)
  {
    PartsHoldTheChunks(disk, cs, cfg, scope, key);
    RunKeepsKey(disk, cs, cfg, key);
    var w := Run(disk, cs, cfg);
    PartsReadBack(cfg, disk, w.writer.files, key, PartsOf(w.logs.parts, key), nl);
  }

  // ── byte for byte ─────────────────────────────────────────────────────────

  /** The files under the given names, one behind the other. */
  function ReadAll(files: Disk, paths: seq<Path>): Payloads.Bytes {
    if paths == [] then [] else ReadAll(files, paths[..|paths| - 1]) + FileBytes(files, paths[|paths| - 1])
  }

  function Dests(cfg: Config, key: Key, ps: seq<PartLog>): (paths: seq<Path>)
    ensures |paths| == |ps|
  {
    seq(|ps|, i requires 0 <= i < |ps| => PartDest(cfg, key, ps[i]))
  }

  lemma WrittenJoins(format: Format, a: seq<Payloads.Bytes>, b: seq<Payloads.Bytes>)
    ensures Concat(AllWritten(format, a + b)) == Concat(AllWritten(format, a)) + Concat(AllWritten(format, b))
  {
    assert AllWritten(format, a + b) == AllWritten(format, a) + AllWritten(format, b);
    ConcatJoins(AllWritten(format, a), AllWritten(format, b));
  }

  lemma FlatWritten(format: Format, init: seq<PartLog>, last: PartLog)
    requires format != Csv(true)
    ensures Concat(AllWritten(format, Datas(Flat(init + [last]))))
            == Concat(AllWritten(format, Datas(Flat(init)))) + PartLimits.Bytes(format, last.chunks)
  {
    assert (init + [last])[..|init|] == init;
    DatasConcat(Flat(init), last.chunks);
    WrittenJoins(format, Datas(Flat(init)), Datas(last.chunks));
    ConcatOfWritten(format, Datas(last.chunks));
  }

  lemma {:induction false} FilesReadAsWritten(format: Format, files: Disk, paths: seq<Path>, ps: seq<PartLog>)
    requires format != Csv(true) && |paths| == |ps|
    requires forall i | 0 <= i < |ps| :: FileBytes(files, paths[i]) == PartLimits.Bytes(format, ps[i].chunks)
    ensures ReadAll(files, paths) == Concat(AllWritten(format, Datas(Flat(ps))))
  {
    if ps != [] {
      var (init, last) := (ps[..|ps| - 1], ps[|ps| - 1]);
      assert ps == init + [last];
      FilesReadAsWritten(format, files, paths[..|ps| - 1], init);
      FlatWritten(format, init, last);
    }
  }

  /**
   However the run was cut into parts, a key's files read in part order are its accepted chunks, one
   behind the other: byte for byte without header and line handling, and in lines for ndjson.
   */
  lemma KeyFilesHoldTheBytes(disk: Disk, cs: seq<Chunk>, cfg: Config, scope: Scope, key: Key)
    requires Separate(cfg, scope) && InScope(cs, scope) && cfg.format != Csv(true)
    requires FreshFor(cfg, disk, key, PartsOf(Run(disk, cs, cfg).logs.parts, key))
    ensures var w := Run(disk, cs, cfg);
            var (read, chunks) := (ReadAll(w.writer.files, Dests(cfg, key, PartsOf(w.logs.parts, key))),
                                   Datas(Of(w.logs.accepted, key)));
            && (cfg.format == Csv(false) || cfg.format == Other ==> read == Concat(chunks))
            && read == Concat(AllWritten(cfg.format, chunks))
  {
    PartsHoldTheChunks(disk, cs, cfg, scope, key);
    RunKeepsKey(disk, cs, cfg, key);
    var w := Run(disk, cs, cfg);
    var ps := PartsOf(w.logs.parts, key);
    forall i | 0 <= i < |ps|
      ensures FileBytes(w.writer.files, Dests(cfg, key, ps)[i]) == PartLimits.Bytes(cfg.format, ps[i].chunks)
    {
      FreshFile(cfg, disk, w.writer.files, key, ps[i]);
    }
    FilesReadAsWritten(cfg.format, w.writer.files, Dests(cfg, key, ps), ps);
    if cfg.format == Csv(false) || cfg.format == Other {
      PlainChunks(cfg.format, Datas(Flat(ps)));
    }
  }

  // ── staged targets ────────────────────────────────────────────────────────

  function TargetOf(cfg: Config, key: Key, p: PartLog): Target {
    var final := cfg.name(key, p.index, p.openedAt);
    Target(key, cfg.temp(final), final)
  }

  function ManifestOf(manifests: map<Unit, seq<Target>>, unit: Unit): seq<Target> {
    if unit in manifests then manifests[unit] else []
  }

  ghost predicate IsTarget(cfg: Config, parts: Parts, t: Target) {
    exists i: nat :: HasPart(parts, t.key, i) && TargetOf(cfg, t.key, PartAt(parts, t.key, i)) == t
  }

  /** A unit's manifest lists exactly the targets of the parts of its keys. */
  ghost predicate ManifestsOk(cfg: Config, manifests: map<Unit, seq<Target>>, parts: Parts) {
    forall unit: Unit, t: Target ::
      t in ManifestOf(manifests, unit) <==> cfg.unitOf(t.key) == unit && IsTarget(cfg, parts, t)
  }

  lemma TargetsOfOpened(cfg: Config, parts: Parts, key: Key, p: PartLog, t: Target)
    ensures IsTarget(cfg, WithPart(parts, key, p), t) <==> IsTarget(cfg, parts, t) || t == TargetOf(cfg, key, p)
  {
    var parts' := WithPart(parts, key, p);
    if IsTarget(cfg, parts', t) {
      var i: nat :| HasPart(parts', t.key, i) && TargetOf(cfg, t.key, PartAt(parts', t.key, i)) == t;
      WithPartAt(parts, key, p, t.key, i);
    }
    if IsTarget(cfg, parts, t) {
      var i: nat :| HasPart(parts, t.key, i) && TargetOf(cfg, t.key, PartAt(parts, t.key, i)) == t;
      assert HasPart(parts', t.key, i) && PartAt(parts', t.key, i) == PartAt(parts, t.key, i);
    }
    if t == TargetOf(cfg, key, p) {
      var i := |PartsOf(parts, key)|;
      assert HasPart(parts', key, i) && PartAt(parts', key, i) == p;
    }
  }

  lemma TargetsOfExtended(cfg: Config, parts: Parts, c: Chunk, t: Target)
    ensures IsTarget(cfg, WithChunk(parts, c), t) <==> IsTarget(cfg, parts, t)
  {
    var parts' := WithChunk(parts, c);
    if IsTarget(cfg, parts, t) {
      var i: nat :| HasPart(parts, t.key, i) && TargetOf(cfg, t.key, PartAt(parts, t.key, i)) == t;
      WithChunkAt(parts, c, t.key, i);
      assert HasPart(parts', t.key, i) && TargetOf(cfg, t.key, PartAt(parts', t.key, i)) == t;
    }
    if IsTarget(cfg, parts', t) {
      var i: nat :| HasPart(parts', t.key, i) && TargetOf(cfg, t.key, PartAt(parts', t.key, i)) == t;
      WithChunkAt(parts, c, t.key, i);
      assert HasPart(parts, t.key, i) && TargetOf(cfg, t.key, PartAt(parts, t.key, i)) == t;
    }
  }

  lemma OpenManifests(w: Writer, c: Chunk, cfg: Config)
    requires cfg.staged && ActionOn(w, c, cfg).Opening?
    ensures Write(w, c, cfg).manifests
            == Staged(w, cfg, TargetOf(cfg, c.key, PartLog(ActionOn(w, c, cfg).index, c.now, [c])))
  {
  }

  /** A new part's target is appended: no registered target has its paths. */
  lemma NewTargetAppended(cfg: Config, parts: Parts, targets: seq<Target>, t: Target)
    requires !IsDest(cfg, parts, t.temp) && cfg.staged && forall u | u in targets :: IsTarget(cfg, parts, u)
    ensures AddTarget(targets, t) == targets + [t]
  {
    forall u | u in targets ensures u.temp != t.temp {
      var i: nat :| HasPart(parts, u.key, i) && TargetOf(cfg, u.key, PartAt(parts, u.key, i)) == u;
      assert PartDest(cfg, u.key, PartAt(parts, u.key, i)) == u.temp;
    }
  }

  lemma OpeningKeepsManifests(cfg: Config, w: Writer, parts: Parts, c: Chunk, scope: Scope)
    requires KeyOk(cfg, w, c.key, PartsOf(parts, c.key)) && ActionOn(w, c, cfg).Opening? && cfg.staged
    requires Numbered(cfg, parts, scope) && Separate(cfg, scope) && c.key in scope.keys && c.now in scope.times
    requires ManifestsOk(cfg, w.manifests, parts)
    ensures ManifestsOk(cfg, Write(w, c, cfg).manifests,
                        WithPart(parts, c.key, PartLog(ActionOn(w, c, cfg).index, c.now, [c])))
  {
    var p := PartLog(ActionOn(w, c, cfg).index, c.now, [c]);
    var t := TargetOf(cfg, c.key, p);
    OpenEffect(w, c, cfg);
    FreshDest(cfg, parts, scope, c.key, c.now);
    OpenManifests(w, c, cfg);
    StagedManifests(cfg, w, parts, c.key, p);
  }

  lemma StagedManifests(cfg: Config, w: Writer, parts: Parts, key: Key, p: PartLog)
    requires ManifestsOk(cfg, w.manifests, parts) && cfg.staged && !IsDest(cfg, parts, PartDest(cfg, key, p))
    ensures ManifestsOk(cfg, Staged(w, cfg, TargetOf(cfg, key, p)), WithPart(parts, key, p))
  {
    var (t, unit) := (TargetOf(cfg, key, p), cfg.unitOf(key));
    var targets := ManifestOf(w.manifests, unit);
    assert forall u | u in targets :: u in ManifestOf(w.manifests, unit);
    NewTargetAppended(cfg, parts, targets, t);
    var manifests' := Staged(w, cfg, t);
    forall v: Unit, u: Target
      ensures u in ManifestOf(manifests', v) <==> cfg.unitOf(u.key) == v && IsTarget(cfg, WithPart(parts, key, p), u)
    {
      TargetsOfOpened(cfg, parts, key, p, u);
      assert u in ManifestOf(w.manifests, v) <==> cfg.unitOf(u.key) == v && IsTarget(cfg, parts, u);
      assert ManifestOf(manifests', v) == if v == unit then targets + [t] else ManifestOf(w.manifests, v);
    }
  }

  lemma ExtendedManifests(cfg: Config, manifests: map<Unit, seq<Target>>, parts: Parts, c: Chunk)
    requires ManifestsOk(cfg, manifests, parts)
    ensures ManifestsOk(cfg, manifests, WithChunk(parts, c))
  {
    forall unit: Unit, t: Target
      ensures t in ManifestOf(manifests, unit) <==> cfg.unitOf(t.key) == unit && IsTarget(cfg, WithChunk(parts, c), t)
    {
      TargetsOfExtended(cfg, parts, c, t);
      assert t in ManifestOf(manifests, unit) <==> cfg.unitOf(t.key) == unit && IsTarget(cfg, parts, t);
    }
  }

  lemma StepKeepsManifests(cfg: Config, w: Writer, l: Logs, c: Chunk, scope: Scope)
    requires KeyOk(cfg, w, c.key, PartsOf(l.parts, c.key)) && c.key in scope.keys && c.now in scope.times && cfg.staged
    requires Numbered(cfg, l.parts, scope) && Separate(cfg, scope)
    requires ManifestsOk(cfg, w.manifests, l.parts)
    ensures ManifestsOk(cfg, Write(w, c, cfg).manifests, Record(l, c, ActionOn(w, c, cfg)).parts)
  {
    match ActionOn(w, c, cfg) {
      case Refusing => RefuseEffect(w, c, cfg);
      case Opening(_) => OpeningKeepsManifests(cfg, w, l.parts, c, scope);
      case Extending =>
        ExtendEffect(w, c, cfg);
        ExtendedManifests(cfg, w.manifests, l.parts, c);
    }
  }

  /** Staged runs register every part of a unit's keys for publication, and nothing else. */
  lemma {:induction false} RunKeepsManifests(disk: Disk, cs: seq<Chunk>, cfg: Config, scope: Scope)
    requires Separate(cfg, scope) && InScope(cs, scope) && cfg.staged
    ensures var w := Run(disk, cs, cfg); ManifestsOk(cfg, w.writer.manifests, w.logs.parts)
  {
    if cs != [] {
      var (init, c) := (cs[..|cs| - 1], cs[|cs| - 1]);
      RunKeepsManifests(disk, init, cfg, scope);
      NumberedParts(disk, init, cfg, scope);
      RunKeepsKey(disk, init, cfg, c.key);
      var w := Run(disk, init, cfg);
      StepKeepsManifests(cfg, w.writer, w.logs, c, scope);
    }
  }
}
