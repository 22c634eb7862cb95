/** The files and staged targets that a run of the writer leaves behind. */
module WriterFiles {
  import opened Basics
  import opened Payloads
  import opened RollingWriter
  import opened PartLimits
  import opened WriterRuns

  predicate HasPart(parts: Parts, key: Key, i: nat) {
    i < |PartsOf(parts, key)|
  }

  function PartAt(parts: Parts, key: Key, i: nat): PartLog
    requires HasPart(parts, key, i)
  {
    PartsOf(parts, key)[i]
  }

  /** The state keys and opening times a run uses. */
  datatype Scope = Scope(keys: set<Key>, times: set<int>)

  /** No two parts in scope, up to the cap, are written to the same file. */
  ghost predicate Separate(cfg: Config, scope: Scope) {
    forall k: Key, l: Key, i: nat, j: nat, s: int, t: int
      | k in scope.keys && l in scope.keys && s in scope.times && t in scope.times
        && i <= cfg.limits.maxIndex && j <= cfg.limits.maxIndex ::
      Dest(cfg, k, i, s) == Dest(cfg, l, j, t) ==> k == l && i == j
  }

  predicate FileOk(cfg: Config, disk: Disk, files: Disk, key: Key, p: PartLog) {
    var dest := PartDest(cfg, key, p);
    Get(files, dest) == Appended(Get(disk, dest), PartLimits.Bytes(cfg.format, p.chunks))
  }

  ghost predicate IsDest(cfg: Config, parts: Parts, path: Path) {
    exists key: Key, i: nat :: HasPart(parts, key, i) && PartDest(cfg, key, PartAt(parts, key, i)) == path
  }

  /** Every part's file is what was on disk there plus the part's bytes; no other file changed. */
  ghost predicate FilesOk(cfg: Config, disk: Disk, files: Disk, parts: Parts) {
    && (forall key: Key, i: nat | HasPart(parts, key, i) :: FileOk(cfg, disk, files, key, PartAt(parts, key, i)))
    && (forall path: Path | !IsDest(cfg, parts, path) :: Get(files, path) == Get(disk, path))
  }

  /** Parts are numbered by position, stay under the cap and are in scope. */
  ghost predicate Numbered(cfg: Config, parts: Parts, scope: Scope) {
    forall key: Key, i: nat | HasPart(parts, key, i) ::
      && key in scope.keys && PartAt(parts, key, i).openedAt in scope.times
      && PartAt(parts, key, i).index == i + 1 <= cfg.limits.maxIndex
  }

  lemma OtherPartElsewhere(cfg: Config, parts: Parts, scope: Scope, key: Key, i: nat, k: Key, j: nat)
    requires Separate(cfg, scope) && Numbered(cfg, parts, scope)
    requires HasPart(parts, key, i) && HasPart(parts, k, j) && (key != k || i != j)
    ensures PartDest(cfg, key, PartAt(parts, key, i)) != PartDest(cfg, k, PartAt(parts, k, j))
  {
  }

  lemma FreshDest(cfg: Config, parts: Parts, scope: Scope, key: Key, now: int)
    requires Separate(cfg, scope) && Numbered(cfg, parts, scope)
    requires key in scope.keys && now in scope.times && |PartsOf(parts, key)| + 1 <= cfg.limits.maxIndex
    ensures !IsDest(cfg, parts, Dest(cfg, key, |PartsOf(parts, key)| + 1, now))
  {
    forall k: Key, i: nat | HasPart(parts, k, i)
      ensures PartDest(cfg, k, PartAt(parts, k, i)) != Dest(cfg, key, |PartsOf(parts, key)| + 1, now)
    {
    }
  }

  // ── opening a part ────────────────────────────────────────────────────────

  function WithPart(parts: Parts, key: Key, p: PartLog): Parts {
    parts[key := PartsOf(parts, key) + [p]]
  }

  lemma WithPartAt(parts: Parts, key: Key, p: PartLog, k: Key, i: nat)
    requires HasPart(WithPart(parts, key, p), k, i)
    ensures if k == key && i == |PartsOf(parts, key)| then PartAt(WithPart(parts, key, p), k, i) == p
            else HasPart(parts, k, i) && PartAt(WithPart(parts, key, p), k, i) == PartAt(parts, k, i)
  {
  }

  lemma IsDestKept(cfg: Config, parts: Parts, key: Key, p: PartLog, path: Path)
    requires IsDest(cfg, parts, path)
    ensures IsDest(cfg, WithPart(parts, key, p), path)
  {
    var k: Key, i: nat :| HasPart(parts, k, i) && PartDest(cfg, k, PartAt(parts, k, i)) == path;
    assert HasPart(WithPart(parts, key, p), k, i) && PartAt(WithPart(parts, key, p), k, i) == PartAt(parts, k, i);
  }

  lemma IsDestOfNew(cfg: Config, parts: Parts, key: Key, p: PartLog)
    ensures IsDest(cfg, WithPart(parts, key, p), PartDest(cfg, key, p))
  {
    var i := |PartsOf(parts, key)|;
    assert HasPart(WithPart(parts, key, p), key, i) && PartAt(WithPart(parts, key, p), key, i) == p;
  }

  lemma OpenKeepsFiles(cfg: Config, disk: Disk, files: Disk, files': Disk, parts: Parts, key: Key, p: PartLog)
    requires FilesOk(cfg, disk, files, parts) && !IsDest(cfg, parts, PartDest(cfg, key, p))
    requires var dest := PartDest(cfg, key, p);
             && Get(files', dest) == Appended(Get(files, dest), PartLimits.Bytes(cfg.format, p.chunks))
             && (forall path: Path | path != dest :: Get(files', path) == Get(files, path))
    ensures FilesOk(cfg, disk, files', WithPart(parts, key, p))
  {
    var parts' := WithPart(parts, key, p);
    forall k: Key, i: nat | HasPart(parts', k, i) ensures FileOk(cfg, disk, files', k, PartAt(parts', k, i)) {
      WithPartAt(parts, key, p, k, i);
      if HasPart(parts, k, i) {
        assert FileOk(cfg, disk, files, k, PartAt(parts, k, i));
        assert IsDest(cfg, parts, PartDest(cfg, k, PartAt(parts, k, i)));
      }
    }
    forall path: Path | !IsDest(cfg, parts', path) ensures Get(files', path) == Get(disk, path) {
      IsDestOfNew(cfg, parts, key, p);
      if IsDest(cfg, parts, path) {
        IsDestKept(cfg, parts, key, p, path);
      }
    }
  }

  // ── extending the last part ───────────────────────────────────────────────

  function WithChunk(parts: Parts, c: Chunk): Parts {
    parts[c.key := Extend(PartsOf(parts, c.key), c)]
  }

  lemma WithChunkAt(parts: Parts, c: Chunk, k: Key, i: nat)
    ensures HasPart(WithChunk(parts, c), k, i) <==> HasPart(parts, k, i)
    ensures HasPart(parts, k, i) ==>
              var (p, p') := (PartAt(parts, k, i), PartAt(WithChunk(parts, c), k, i));
              if k == c.key && i == |PartsOf(parts, k)| - 1 then p' == p.(chunks := p.chunks + [c]) else p' == p
  {
  }

  lemma IsDestSame(cfg: Config, parts: Parts, c: Chunk, path: Path)
    ensures IsDest(cfg, WithChunk(parts, c), path) <==> IsDest(cfg, parts, path)
  {
    var parts' := WithChunk(parts, c);
    if IsDest(cfg, parts, path) {
      var k: Key, i: nat :| HasPart(parts, k, i) && PartDest(cfg, k, PartAt(parts, k, i)) == path;
      WithChunkAt(parts, c, k, i);
      assert HasPart(parts', k, i) && PartDest(cfg, k, PartAt(parts', k, i)) == path;
    }
    if IsDest(cfg, parts', path) {
      var k: Key, i: nat :| HasPart(parts', k, i) && PartDest(cfg, k, PartAt(parts', k, i)) == path;
      WithChunkAt(parts, c, k, i);
      assert HasPart(parts, k, i) && PartDest(cfg, k, PartAt(parts, k, i)) == path;
    }
  }

  lemma AppendedTwice(file: Option<Payloads.Bytes>, a: Payloads.Bytes, b: Payloads.Bytes)
    ensures Appended(Appended(file, a), b) == Appended(file, a + b)
  {
    if a == [] {
      assert a + b == b;
    } else if b == [] {
      assert a + b == a;
    } else {
      var base := if file.Some? then file.value else [];
      assert (base + a) + b == base + (a + b);
    }
  }

  lemma ExtendedFileOk(cfg: Config, disk: Disk, files: Disk, files': Disk, key: Key, p: PartLog, c: Chunk)
    requires FileOk(cfg, disk, files, key, p) && p.chunks != []
    requires var dest := PartDest(cfg, key, p);
             Get(files', dest) == Appended(Get(files, dest), Prepare(cfg.format, c.data, false))
    ensures FileOk(cfg, disk, files', key, p.(chunks := p.chunks + [c]))
  {
    BytesGrown(cfg.format, p.chunks, c);
    AppendedTwice(Get(disk, PartDest(cfg, key, p)), PartLimits.Bytes(cfg.format, p.chunks),
                  Prepare(cfg.format, c.data, false));
  }

  lemma ExtendKeepsFiles(cfg: Config, disk: Disk, files: Disk, files': Disk, parts: Parts, scope: Scope, c: Chunk)
    requires FilesOk(cfg, disk, files, parts) && Separate(cfg, scope) && Numbered(cfg, parts, scope)
    requires PartsOf(parts, c.key) != []
    requires var i := |PartsOf(parts, c.key)| - 1;
             var p := PartAt(parts, c.key, i);
             var dest := PartDest(cfg, c.key, p);
             && p.chunks != []
             && Get(files', dest) == Appended(Get(files, dest), Prepare(cfg.format, c.data, false))
             && (forall path: Path | path != dest :: Get(files', path) == Get(files, path))
    ensures FilesOk(cfg, disk, files', WithChunk(parts, c))
  {
    var (parts', last) := (WithChunk(parts, c), |PartsOf(parts, c.key)| - 1);
    assert HasPart(parts, c.key, last);
    forall k: Key, i: nat | HasPart(parts', k, i) ensures FileOk(cfg, disk, files', k, PartAt(parts', k, i)) {
      WithChunkAt(parts, c, k, i);
      assert FileOk(cfg, disk, files, k, PartAt(parts, k, i));
      if k == c.key && i == last {
        ExtendedFileOk(cfg, disk, files, files', k, PartAt(parts, k, i), c);
      } else {
        OtherPartElsewhere(cfg, parts, scope, k, i, c.key, last);
      }
    }
    forall path: Path | !IsDest(cfg, parts', path) ensures Get(files', path) == Get(disk, path) {
      IsDestSame(cfg, parts, c, path);
      assert HasPart(parts, c.key, last) && !IsDest(cfg, parts, path);
      assert path != PartDest(cfg, c.key, PartAt(parts, c.key, last));
    }
  }

  // ── runs ──────────────────────────────────────────────────────────────────

  predicate InScope(cs: seq<Chunk>, scope: Scope) {
    forall c | c in cs :: c.key in scope.keys && c.now in scope.times
  }

  lemma {:induction false} OfMembers(cs: seq<Chunk>, key: Key)
    ensures forall c | c in Of(cs, key) :: c in cs
  {
    if cs != [] {
      OfMembers(cs[..|cs| - 1], key);
    }
  }

  lemma {:induction false} FlatMembers(ps: seq<PartLog>, i: nat, c: Chunk)
    requires i < |ps| && c in ps[i].chunks
    ensures c in Flat(ps)
  {
    if i < |ps| - 1 {
      FlatMembers(ps[..|ps| - 1], i, c);
    }
  }

  /** Every part was opened by a chunk of the run, at that chunk's time. */
  lemma OpeningChunk(disk: Disk, cs: seq<Chunk>, cfg: Config, key: Key, i: nat)
    requires HasPart(Run(disk, cs, cfg).logs.parts, key, i)
    ensures var p := PartAt(Run(disk, cs, cfg).logs.parts, key, i);
            PartOk(cfg, key, p, i) && i < cfg.limits.maxIndex && p.chunks[0] in cs
  {
    var w := Run(disk, cs, cfg);
    RunKeepsKey(disk, cs, cfg, key);
    var (ps, p) := (PartsOf(w.logs.parts, key), PartAt(w.logs.parts, key, i));
    assert PartOk(cfg, key, p, i);
    FlatMembers(ps, i, p.chunks[0]);
    OfMembers(cs, key);
    assert p.chunks[0] in Of(cs, key);
  }

  lemma NumberedParts(disk: Disk, cs: seq<Chunk>, cfg: Config, scope: Scope)
    requires InScope(cs, scope)
    ensures Numbered(cfg, Run(disk, cs, cfg).logs.parts, scope)
  {
    var parts := Run(disk, cs, cfg).logs.parts;
    forall key: Key, i: nat | HasPart(parts, key, i)
      ensures key in scope.keys && PartAt(parts, key, i).openedAt in scope.times
      ensures PartAt(parts, key, i).index == i + 1 <= cfg.limits.maxIndex
    {
      OpeningChunk(disk, cs, cfg, key, i);
    }
  }

  lemma OpeningKeepsFiles(cfg: Config, disk: Disk, w: Writer, parts: Parts, c: Chunk, scope: Scope)
    requires KeyOk(cfg, w, c.key, PartsOf(parts, c.key)) && ActionOn(w, c, cfg).Opening?
    requires Numbered(cfg, parts, scope) && Separate(cfg, scope) && c.key in scope.keys && c.now in scope.times
    requires FilesOk(cfg, disk, w.files, parts)
    ensures FilesOk(cfg, disk, Write(w, c, cfg).files,
                    WithPart(parts, c.key, PartLog(ActionOn(w, c, cfg).index, c.now, [c])))
  {
    var (index, w') := (ActionOn(w, c, cfg).index, Write(w, c, cfg));
    OpenEffect(w, c, cfg);
    FreshDest(cfg, parts, scope, c.key, c.now);
    OneChunkKept(cfg.format, cfg.limits, c);
    forall p: Path | p != Dest(cfg, c.key, index, c.now) ensures Get(w'.files, p) == Get(w.files, p) {
      assert SameFile(w, w', p);
    }
    OpenKeepsFiles(cfg, disk, w.files, w'.files, parts, c.key, PartLog(index, c.now, [c]));
  }

  lemma ExtendingKeepsFiles(cfg: Config, disk: Disk, w: Writer, parts: Parts, c: Chunk, scope: Scope)
    requires KeyOk(cfg, w, c.key, PartsOf(parts, c.key)) && ActionOn(w, c, cfg).Extending?
    requires Numbered(cfg, parts, scope) && Separate(cfg, scope)
    requires FilesOk(cfg, disk, w.files, parts)
    ensures FilesOk(cfg, disk, Write(w, c, cfg).files, WithChunk(parts, c))
  {
    var w' := Write(w, c, cfg);
    ExtendEffect(w, c, cfg);
    var last := |PartsOf(parts, c.key)| - 1;
    assert PartOk(cfg, c.key, PartAt(parts, c.key, last), last);
    forall p: Path | p != w.paths[c.key] ensures Get(w'.files, p) == Get(w.files, p) {
      assert SameFile(w, w', p);
    }
    ExtendKeepsFiles(cfg, disk, w.files, w'.files, parts, scope, c);
  }

  lemma StepKeepsFiles(cfg: Config, disk: Disk, w: Writer, l: Logs, c: Chunk, scope: Scope)
    requires KeyOk(cfg, w, c.key, PartsOf(l.parts, c.key)) && c.key in scope.keys && c.now in scope.times
    requires Numbered(cfg, l.parts, scope) && Separate(cfg, scope)
    requires FilesOk(cfg, disk, w.files, l.parts)
    ensures FilesOk(cfg, disk, Write(w, c, cfg).files, Record(l, c, ActionOn(w, c, cfg)).parts)
  {
    match ActionOn(w, c, cfg) {
      case Refusing => RefuseEffect(w, c, cfg);
      case Opening(_) => OpeningKeepsFiles(cfg, disk, w, l.parts, c, scope);
      case Extending => ExtendingKeepsFiles(cfg, disk, w, l.parts, c, scope);
    }
  }

  lemma {:induction false} RunKeepsFiles(disk: Disk, cs: seq<Chunk>, cfg: Config, scope: Scope)
    requires Separate(cfg, scope) && InScope(cs, scope)
    ensures var w := Run(disk, cs, cfg); FilesOk(cfg, disk, w.writer.files, w.logs.parts)
  {
    if cs != [] {
      var (init, c) := (cs[..|cs| - 1], cs[|cs| - 1]);
      RunKeepsFiles(disk, init, cfg, scope);
      NumberedParts(disk, init, cfg, scope);
      RunKeepsKey(disk, init, cfg, c.key);
      var w := Run(disk, init, cfg);
      StepKeepsFiles(cfg, disk, w.writer, w.logs, c, scope);
    }
  }
}
