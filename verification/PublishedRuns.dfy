/** From the chunks handed to the writer to the files left by publication. */
module PublishedRuns {
  import opened Basics
  import opened Payloads
  import opened RollingWriter
  import opened PartLimits
  import opened WriterRuns
  import opened WriterFiles
  import opened WriterResults
  import P = Publication

  /** Final names of parts in scope are distinct, and no staging name is one of them. */
  ghost predicate FinalsApart(cfg: Config, scope: Scope) {
    forall k: Key, l: Key, i: nat, j: nat, s: int, t: int
      | k in scope.keys && l in scope.keys && s in scope.times && t in scope.times
        && i <= cfg.limits.maxIndex && j <= cfg.limits.maxIndex ::
      && (cfg.name(k, i, s) == cfg.name(l, j, t) ==> k == l && i == j)
      && cfg.temp(cfg.name(k, i, s)) != cfg.name(l, j, t)
  }

  // ── every part has bytes ──────────────────────────────────────────────────

  lemma {:induction false} OpenedWithBytes(format: Format, chunks: seq<Chunk>)
    requires chunks != [] && chunks[0].data != []
    ensures PartLimits.Bytes(format, chunks) != []
  {
    var (init, last) := (chunks[..|chunks| - 1], chunks[|chunks| - 1]);
    assert chunks == init + [last];
    BytesGrown(format, init, last);
    if init == [] {
      PayloadSize(format, last.data, true);
    } else {
      OpenedWithBytes(format, init);
    }
  }

  /** Every part of the unit's keys received at least one byte. */
  ghost predicate GotBytes(cfg: Config, parts: Parts, unit: Unit) {
    forall key: Key, i: nat | HasPart(parts, key, i) && cfg.unitOf(key) == unit ::
      PartLimits.Bytes(cfg.format, PartAt(parts, key, i).chunks) != []
  }

  /** A run that gives the unit no empty chunk meets it. */
  lemma NonEmptyChunksGetBytes(disk: Disk, cs: seq<Chunk>, cfg: Config, unit: Unit)
    requires forall c | c in cs && cfg.unitOf(c.key) == unit :: c.data != []
    ensures GotBytes(cfg, Run(disk, cs, cfg).logs.parts, unit)
  {
    var parts := Run(disk, cs, cfg).logs.parts;
    forall key: Key, i: nat | HasPart(parts, key, i) && cfg.unitOf(key) == unit
      ensures PartLimits.Bytes(cfg.format, PartAt(parts, key, i).chunks) != []
    {
      var p := PartAt(parts, key, i);
      OpeningChunk(disk, cs, cfg, key, i);
      OpenedWithBytes(cfg.format, p.chunks);
    }
  }

  // ── the writer leaves the unit ready for publication ──────────────────────

  /** None of the staging files in scope is left over from before. */
  ghost predicate NoLeftovers(cfg: Config, disk: Disk, scope: Scope) {
    forall k: Key, i: nat, s: int | k in scope.keys && s in scope.times && i <= cfg.limits.maxIndex ::
      Dest(cfg, k, i, s) !in disk
  }

  /** A part's staging file exists exactly when the part received bytes, and then holds just those. */
  lemma StagedPartIff(disk: Disk, cs: seq<Chunk>, cfg: Config, scope: Scope, key: Key, i: nat)
    requires Separate(cfg, scope) && InScope(cs, scope) && cfg.staged && NoLeftovers(cfg, disk, scope)
    requires HasPart(Run(disk, cs, cfg).logs.parts, key, i)
    ensures var (files, p) := (Run(disk, cs, cfg).writer.files, PartAt(Run(disk, cs, cfg).logs.parts, key, i));
            var (temp, bytes) := (TargetOf(cfg, key, p).temp, PartLimits.Bytes(cfg.format, p.chunks));
            (temp in files <==> bytes != []) && (temp in files ==> files[temp] == bytes)
  {
    var (files, p) := (Run(disk, cs, cfg).writer.files, PartAt(Run(disk, cs, cfg).logs.parts, key, i));
    NumberedParts(disk, cs, cfg, scope);
    RunKeepsFiles(disk, cs, cfg, scope);
    assert FileOk(cfg, disk, files, key, p);
    assert Get(disk, PartDest(cfg, key, p)) == None;
    FreshFile(cfg, disk, files, key, p);
  }

  lemma TargetsApart(cfg: Config, parts: Parts, scope: Scope, targets: seq<Target>)
    requires Separate(cfg, scope) && FinalsApart(cfg, scope) && Numbered(cfg, parts, scope) && cfg.staged
    requires forall t | t in targets :: IsTarget(cfg, parts, t)
    ensures P.Apart(targets)
  {
    forall t, u | t in targets && u in targets
      ensures t.temp != u.final && (t.temp == u.temp ==> t == u) && (t.final == u.final ==> t == u)
    {
      var i: nat :| HasPart(parts, t.key, i) && TargetOf(cfg, t.key, PartAt(parts, t.key, i)) == t;
      var j: nat :| HasPart(parts, u.key, j) && TargetOf(cfg, u.key, PartAt(parts, u.key, j)) == u;
      var (p, q) := (PartAt(parts, t.key, i), PartAt(parts, u.key, j));
      TwoTargets(cfg, scope, t.key, u.key, p, q);
    }
  }

  lemma TwoTargets(cfg: Config, scope: Scope, k: Key, l: Key, p: PartLog, q: PartLog)
    requires FinalsApart(cfg, scope) && Separate(cfg, scope) && cfg.staged
    requires k in scope.keys && l in scope.keys && p.openedAt in scope.times && q.openedAt in scope.times
    requires p.index <= cfg.limits.maxIndex && q.index <= cfg.limits.maxIndex
    ensures var (t, u) := (TargetOf(cfg, k, p), TargetOf(cfg, l, q));
            && t.temp != u.final
            && (t.temp == u.temp ==> k == l && p.index == q.index)
            && (t.final == u.final ==> k == l && p.index == q.index)
  {
    assert TargetOf(cfg, k, p).temp == Dest(cfg, k, p.index, p.openedAt);
    assert TargetOf(cfg, l, q).temp == Dest(cfg, l, q.index, q.openedAt);
  }

  lemma ManifestTargets(disk: Disk, cs: seq<Chunk>, cfg: Config, scope: Scope, unit: Unit, t: Target)
    requires Separate(cfg, scope) && InScope(cs, scope) && cfg.staged
    requires t in ManifestOf(Run(disk, cs, cfg).writer.manifests, unit)
    ensures IsTarget(cfg, Run(disk, cs, cfg).logs.parts, t) && cfg.unitOf(t.key) == unit
  {
    RunKeepsManifests(disk, cs, cfg, scope);
  }

  lemma TargetStagedIff(disk: Disk, cs: seq<Chunk>, cfg: Config, scope: Scope, key: Key, i: nat)
    requires Separate(cfg, scope) && InScope(cs, scope) && cfg.staged && NoLeftovers(cfg, disk, scope)
    requires HasPart(Run(disk, cs, cfg).logs.parts, key, i)
    ensures var (w, p) := (Run(disk, cs, cfg), PartAt(Run(disk, cs, cfg).logs.parts, key, i));
            var t := TargetOf(cfg, key, p);
            && t in ManifestOf(w.writer.manifests, cfg.unitOf(key))
            && (t.temp in w.writer.files <==> PartLimits.Bytes(cfg.format, p.chunks) != [])
  {
    var w := Run(disk, cs, cfg);
    StagedPartIff(disk, cs, cfg, scope, key, i);
    RunKeepsManifests(disk, cs, cfg, scope);
    assert IsTarget(cfg, w.logs.parts, TargetOf(cfg, key, PartAt(w.logs.parts, key, i)));
  }

  ghost predicate AllStaged(w: Writer, unit: Unit) {
    forall t | t in ManifestOf(w.manifests, unit) :: t.temp in w.files
  }

  lemma TargetStaged(disk: Disk, cs: seq<Chunk>, cfg: Config, scope: Scope, unit: Unit, t: Target)
    requires Separate(cfg, scope) && InScope(cs, scope) && cfg.staged && NoLeftovers(cfg, disk, scope)
    requires GotBytes(cfg, Run(disk, cs, cfg).logs.parts, unit)
    requires cfg.unitOf(t.key) == unit && IsTarget(cfg, Run(disk, cs, cfg).logs.parts, t)
    ensures t.temp in Run(disk, cs, cfg).writer.files
  {
    var parts := Run(disk, cs, cfg).logs.parts;
    var i: nat :| HasPart(parts, t.key, i) && TargetOf(cfg, t.key, PartAt(parts, t.key, i)) == t;
    StagedPartIff(disk, cs, cfg, scope, t.key, i);
  }

  lemma BytesMeanStaged(disk: Disk, cs: seq<Chunk>, cfg: Config, scope: Scope, unit: Unit)
    requires Separate(cfg, scope) && InScope(cs, scope) && cfg.staged && NoLeftovers(cfg, disk, scope)
    requires GotBytes(cfg, Run(disk, cs, cfg).logs.parts, unit)
    ensures AllStaged(Run(disk, cs, cfg).writer, unit)
  {
    forall t | t in ManifestOf(Run(disk, cs, cfg).writer.manifests, unit)
      ensures t.temp in Run(disk, cs, cfg).writer.files
    {
      ManifestTargets(disk, cs, cfg, scope, unit, t);
      TargetStaged(disk, cs, cfg, scope, unit, t);
    }
  }

  lemma StagedMeansBytes(disk: Disk, cs: seq<Chunk>, cfg: Config, scope: Scope, unit: Unit)
    requires Separate(cfg, scope) && InScope(cs, scope) && cfg.staged && NoLeftovers(cfg, disk, scope)
    requires AllStaged(Run(disk, cs, cfg).writer, unit)
    ensures GotBytes(cfg, Run(disk, cs, cfg).logs.parts, unit)
  {
    var parts := Run(disk, cs, cfg).logs.parts;
    forall key: Key, i: nat | HasPart(parts, key, i) && cfg.unitOf(key) == unit
      ensures PartLimits.Bytes(cfg.format, PartAt(parts, key, i).chunks) != []
    {
      TargetStagedIff(disk, cs, cfg, scope, key, i);
    }
  }

  /** After any staged run the unit is ready for publication exactly when each of its parts received bytes. */
  lemma UnitReadyIff(disk: Disk, cs: seq<Chunk>, cfg: Config, scope: Scope, unit: Unit)
    requires Separate(cfg, scope) && FinalsApart(cfg, scope) && InScope(cs, scope)
    requires cfg.staged && NoLeftovers(cfg, disk, scope)
    ensures var w := Run(disk, cs, cfg);
            P.Ready(w.writer.files, ManifestOf(w.writer.manifests, unit)) <==> GotBytes(cfg, w.logs.parts, unit)
  {
    var w := Run(disk, cs, cfg);
    var targets := ManifestOf(w.writer.manifests, unit);
    forall t | t in targets ensures IsTarget(cfg, w.logs.parts, t) {
      ManifestTargets(disk, cs, cfg, scope, unit, t);
    }
    NumberedParts(disk, cs, cfg, scope);
    TargetsApart(cfg, w.logs.parts, scope, targets);
    if GotBytes(cfg, w.logs.parts, unit) {
      BytesMeanStaged(disk, cs, cfg, scope, unit);
    }
    if AllStaged(w.writer, unit) {
      StagedMeansBytes(disk, cs, cfg, scope, unit);
    }
  }

  /**
   End to end, for a staged unit whose parts all received bytes: whatever the rollovers and
   whatever failed before, once a publication attempt returns, the final file of every part of
   every key of the unit holds exactly the bytes of that part's chunks, and those chunks are the
   key's accepted chunks in order.
   */
  lemma PublishedFilesHoldTheChunks(disk: Disk, cs: seq<Chunk>, cfg: Config, scope: Scope, unit: Unit,
                                    overwrite: bool, es: seq<P.Event>, faults: P.Faults, key: Key, i: nat)
    requires Separate(cfg, scope) && FinalsApart(cfg, scope) && InScope(cs, scope)
    requires cfg.staged && NoLeftovers(cfg, disk, scope) && GotBytes(cfg, Run(disk, cs, cfg).logs.parts, unit)
    requires cfg.unitOf(key) == unit && HasPart(Run(disk, cs, cfg).logs.parts, key, i)
    ensures var w := Run(disk, cs, cfg);
            var targets := ManifestOf(w.writer.manifests, unit);
            var s := P.Run(P.State(w.writer.files, {}), targets, overwrite, es);
            var a := P.Publish(s.disk, s.confirmed, targets, overwrite, faults);
            var p := PartAt(w.logs.parts, key, i);
            var final := cfg.name(key, p.index, p.openedAt);
            && (a.ok ==> final in a.disk && a.disk[final] == PartLimits.Bytes(cfg.format, p.chunks))
            && Flat(PartsOf(w.logs.parts, key)) == Of(w.logs.accepted, key)
  {
    var w := Run(disk, cs, cfg);
    var targets := ManifestOf(w.writer.manifests, unit);
    RunKeepsKey(disk, cs, cfg, key);
    UnitReadyIff(disk, cs, cfg, scope, unit);
    P.ReturnedMeansPublished(w.writer.files, targets, overwrite, es, faults);
    StagedPartIff(disk, cs, cfg, scope, key, i);
    TargetStagedIff(disk, cs, cfg, scope, key, i);
  }

  function Finals(cfg: Config, key: Key, ps: seq<PartLog>): (paths: seq<Path>)
    ensures |paths| == |ps|
  {
    seq(|ps|, i requires 0 <= i < |ps| => cfg.name(key, ps[i].index, ps[i].openedAt))
  }

  /** And then the final files read in part order are the key's accepted chunks, as `KeyFilesHoldTheBytes` says. */
  lemma PublishedFilesHoldTheBytes(disk: Disk, cs: seq<Chunk>, cfg: Config, scope: Scope, unit: Unit,
                                   overwrite: bool, es: seq<P.Event>, faults: P.Faults, key: Key)
    requires Separate(cfg, scope) && FinalsApart(cfg, scope) && InScope(cs, scope) && cfg.format != Csv(true)
    requires cfg.staged && NoLeftovers(cfg, disk, scope) && GotBytes(cfg, Run(disk, cs, cfg).logs.parts, unit)
    requires cfg.unitOf(key) == unit
    ensures var w := Run(disk, cs, cfg);
            var targets := ManifestOf(w.writer.manifests, unit);
            var s := P.Run(P.State(w.writer.files, {}), targets, overwrite, es);
            var a := P.Publish(s.disk, s.confirmed, targets, overwrite, faults);
            var (read, chunks) := (ReadAll(a.disk, Finals(cfg, key, PartsOf(w.logs.parts, key))),
                                   Datas(Of(w.logs.accepted, key)));
            a.ok ==>
              && (cfg.format == Csv(false) || cfg.format == Other ==> read == Concat(chunks))
              && read == Concat(AllWritten(cfg.format, chunks))
  {
    var w := Run(disk, cs, cfg);
    var targets := ManifestOf(w.writer.manifests, unit);
    var s := P.Run(P.State(w.writer.files, {}), targets, overwrite, es);
    var a := P.Publish(s.disk, s.confirmed, targets, overwrite, faults);
    var ps := PartsOf(w.logs.parts, key);
    RunKeepsKey(disk, cs, cfg, key);
    if a.ok {
      forall i | 0 <= i < |ps|
        ensures FileBytes(a.disk, Finals(cfg, key, ps)[i]) == PartLimits.Bytes(cfg.format, ps[i].chunks)
      {
        assert HasPart(w.logs.parts, key, i) && PartAt(w.logs.parts, key, i) == ps[i];
        PublishedFilesHoldTheChunks(disk, cs, cfg, scope, unit, overwrite, es, faults, key, i);
      }
      FilesReadAsWritten(cfg.format, a.disk, Finals(cfg, key, ps), ps);
      if cfg.format == Csv(false) || cfg.format == Other {
        PlainChunks(cfg.format, Datas(Flat(ps)));
      }
    }
  }

  // ── a part without bytes ──────────────────────────────────────────────────

  lemma EmptyOpening(disk: Disk, key: Key, records: nat, now: int, cfg: Config)
    requires cfg.staged && cfg.limits.maxIndex >= 1
    ensures var final := cfg.name(key, 1, now);
            var w := Run(disk, [Chunk(key, [], records, now)], cfg).writer;
            w.files == disk && ManifestOf(w.manifests, cfg.unitOf(key)) == [Target(key, cfg.temp(final), final)]
  {
    var c := Chunk(key, [], records, now);
    assert [c][..0] == [];
    assert Run(disk, [], cfg).writer == EMPTY.(files := disk);
  }

  /**
   A unit opened by an empty chunk registers a target that was never staged.  If an older file
   stands under its final name, publication returns and confirms that file, unchanged.
   */
  lemma EmptyChunkConfirmsStaleFinal(disk: Disk, key: Key, records: nat, now: int, cfg: Config, overwrite: bool)
    requires cfg.staged && cfg.limits.maxIndex >= 1
    requires cfg.name(key, 1, now) in disk && cfg.temp(cfg.name(key, 1, now)) !in disk
    ensures var final := cfg.name(key, 1, now);
            var w := Run(disk, [Chunk(key, [], records, now)], cfg).writer;
            P.Publish(w.files, {}, ManifestOf(w.manifests, cfg.unitOf(key)), overwrite, P.CLEAN)
            == P.Attempt(disk, {final}, true)
  {
    var final := cfg.name(key, 1, now);
    EmptyOpening(disk, key, records, now, cfg);
    P.MissingTempConfirmsStaleFinal(disk, Target(key, cfg.temp(final), final), overwrite);
  }
}
