/** What a part holds, measured from the chunks written to it. */
module PartLimits {
  import opened Basics
  import opened Payloads
  import opened RollingWriter

  function Datas(chunks: seq<Chunk>): seq<Bytes> {
    if chunks == [] then [] else Datas(chunks[..|chunks| - 1]) + [chunks[|chunks| - 1].data]
  }

  function Bytes(format: Format, chunks: seq<Chunk>): Payloads.Bytes {
    Content(format, Datas(chunks))
  }

  function Payload(format: Format, chunks: seq<Chunk>, c: Chunk): Payloads.Bytes {
    Prepare(format, c.data, chunks == [])
  }

  /** Records of the writes that put bytes into the part. */
  function Total(format: Format, chunks: seq<Chunk>): nat {
    if chunks == [] then 0 else
      var (init, last) := (chunks[..|chunks| - 1], chunks[|chunks| - 1]);
      Total(format, init) + (if Payload(format, init, last) != [] then last.records else 0)
  }

  /** How many writes put bytes and a positive record count into the part. */
  function Counted(format: Format, chunks: seq<Chunk>): nat {
    if chunks == [] then 0 else
      var (init, last) := (chunks[..|chunks| - 1], chunks[|chunks| - 1]);
      Counted(format, init) + (if Payload(format, init, last) != [] && last.records > 0 then 1 else 0)
  }

  /** How many writes put bytes into the part. */
  function Writes(format: Format, chunks: seq<Chunk>): nat {
    if chunks == [] then 0 else
      var (init, last) := (chunks[..|chunks| - 1], chunks[|chunks| - 1]);
      Writes(format, init) + (if Payload(format, init, last) != [] then 1 else 0)
  }

  lemma Grown(format: Format, chunks: seq<Chunk>, c: Chunk)
    ensures var (more, p) := (chunks + [c], Payload(format, chunks, c));
            && Datas(more) == Datas(chunks) + [c.data]
            && Total(format, more) == Total(format, chunks) + (if p != [] then c.records else 0)
            && Counted(format, more) == Counted(format, chunks) + (if p != [] && c.records > 0 then 1 else 0)
            && Writes(format, more) == Writes(format, chunks) + (if p != [] then 1 else 0)
  {
    assert (chunks + [c])[..|chunks|] == chunks;
  }

  lemma {:induction false} DatasSize(chunks: seq<Chunk>)
    ensures |Datas(chunks)| == |chunks|
    ensures forall i | 0 <= i < |chunks| :: Datas(chunks)[i] == chunks[i].data
  {
    if chunks != [] {
      DatasSize(chunks[..|chunks| - 1]);
    }
  }

  lemma BytesGrown(format: Format, chunks: seq<Chunk>, c: Chunk)
    ensures Bytes(format, chunks + [c]) == Bytes(format, chunks) + Payload(format, chunks, c)
  {
    Grown(format, chunks, c);
    DatasSize(chunks);
    assert (Datas(chunks) + [c.data])[..|chunks|] == Datas(chunks);
  }

  lemma {:induction false} NothingWritten(format: Format, chunks: seq<Chunk>)
    ensures Bytes(format, chunks) == [] <==> Writes(format, chunks) == 0
    ensures Total(format, chunks) == 0 <==> Counted(format, chunks) == 0
  {
    if chunks != [] {
      var (init, last) := (chunks[..|chunks| - 1], chunks[|chunks| - 1]);
      NothingWritten(format, init);
      BytesGrown(format, init, last);
      assert chunks == init + [last];
    }
  }

  // ── the three limits ──────────────────────────────────────────────────────

  predicate RecordsKept(format: Format, limits: Limits, chunks: seq<Chunk>) {
    limits.maxRecords.Some? && Total(format, chunks) > limits.maxRecords.value ==> Counted(format, chunks) <= 1
  }

  predicate BytesKept(format: Format, limits: Limits, chunks: seq<Chunk>) {
    limits.maxBytes.Some? && Writes(format, chunks) >= 2 ==>
      |Bytes(format, chunks)| <= limits.maxBytes.value + NewlineSize(format)
  }

  predicate TimeKept(limits: Limits, openedAt: int, chunks: seq<Chunk>) {
    limits.maxSeconds.Some? ==>
      forall i | 0 < i < |chunks| :: chunks[i].now - openedAt < limits.maxSeconds.value * MICROS
  }

  /** The writer's running totals are the true ones. */
  predicate Summary(format: Format, s: Part, chunks: seq<Chunk>) {
    s.records == Total(format, chunks) && s.bytes == |Bytes(format, chunks)|
  }

  lemma RecordsStayKept(format: Format, limits: Limits, s: Part, chunks: seq<Chunk>, c: Chunk)
    requires RecordsKept(format, limits, chunks) && Summary(format, s, chunks) && !ShouldRoll(s, c, limits)
    ensures RecordsKept(format, limits, chunks + [c])
  {
    Grown(format, chunks, c);
    NothingWritten(format, chunks);
  }

  lemma BytesStayKept(format: Format, limits: Limits, s: Part, chunks: seq<Chunk>, c: Chunk)
    requires BytesKept(format, limits, chunks) && Summary(format, s, chunks) && !ShouldRoll(s, c, limits)
    ensures BytesKept(format, limits, chunks + [c])
  {
    Grown(format, chunks, c);
    BytesGrown(format, chunks, c);
    NothingWritten(format, chunks);
    PayloadSize(format, c.data, chunks == []);
  }

  lemma OneChunkKept(format: Format, limits: Limits, c: Chunk)
    ensures RecordsKept(format, limits, [c]) && BytesKept(format, limits, [c]) && TimeKept(limits, c.now, [c])
    ensures Total(format, [c]) == (if Payload(format, [], c) != [] then c.records else 0)
    ensures Bytes(format, [c]) == Payload(format, [], c)
  {
    Grown(format, [], c);
    BytesGrown(format, [], c);
    assert [] + [c] == [c];
  }
}

/** Whole runs of the writer, against the chunks it was given. */
module WriterRuns {
  import opened Basics
  import opened Payloads
  import opened RollingWriter
  import opened PartLimits

  // ── runs ──────────────────────────────────────────────────────────────────

  /** A part with the chunks it was given, in order; the first one opened it. */
  datatype PartLog = PartLog(index: nat, openedAt: int, chunks: seq<Chunk>)

  type Parts = map<Key, seq<PartLog>>

  datatype Logs = Logs(parts: Parts, accepted: seq<Chunk>, refused: seq<Chunk>)

  datatype World = World(writer: Writer, logs: Logs)

  function PartsOf(parts: Parts, key: Key): seq<PartLog> {
    if key in parts then parts[key] else []
  }

  function Extend(ps: seq<PartLog>, c: Chunk): seq<PartLog> {
    if ps == [] then [] else ps[|ps| - 1 := ps[|ps| - 1].(chunks := ps[|ps| - 1].chunks + [c])]
  }

  /** What the writer does with a chunk. */
  datatype Action = Refusing | Opening(index: nat) | Extending

  function ActionOn(w: Writer, c: Chunk, cfg: Config): Action {
    if Refuses(w, c, cfg) then Refusing
    else if Rolls(w, c, cfg) then Opening(CountOf(w.counters, c.key) + 1) else Extending
  }

  function Record(l: Logs, c: Chunk, action: Action): Logs {
    var ps := PartsOf(l.parts, c.key);
    match action
    case Refusing => l.(refused := l.refused + [c])
    case Opening(index) => Logs(l.parts[c.key := ps + [PartLog(index, c.now, [c])]], l.accepted + [c], l.refused)
    case Extending => Logs(l.parts[c.key := Extend(ps, c)], l.accepted + [c], l.refused)
  }

  function Step(w: World, c: Chunk, cfg: Config): World {
    World(Write(w.writer, c, cfg), Record(w.logs, c, ActionOn(w.writer, c, cfg)))
  }

  function Run(disk: Disk, cs: seq<Chunk>, cfg: Config): World {
    if cs == [] then World(EMPTY.(files := disk), Logs(map[], [], []))
    else Step(Run(disk, cs[..|cs| - 1], cfg), cs[|cs| - 1], cfg)
  }

  function Of(cs: seq<Chunk>, key: Key): seq<Chunk> {
    if cs == [] then [] else
      Of(cs[..|cs| - 1], key) + (if cs[|cs| - 1].key == key then [cs[|cs| - 1]] else [])
  }

  function Flat(ps: seq<PartLog>): seq<Chunk> {
    if ps == [] then [] else Flat(ps[..|ps| - 1]) + ps[|ps| - 1].chunks
  }

  // ── effects of one write, key by key ──────────────────────────────────────

  function GrownPart(p: Part, c: Chunk, payload: Payloads.Bytes): Part {
    if payload == [] then p else p.(records := p.records + c.records, bytes := p.bytes + |payload|)
  }

  predicate SameKey(w: Writer, w': Writer, k: Key) {
    && Get(w'.states, k) == Get(w.states, k) && Get(w'.paths, k) == Get(w.paths, k)
    && CountOf(w'.counters, k) == CountOf(w.counters, k) && CountOf(w'.dropped, k) == CountOf(w.dropped, k)
  }

  predicate SameFile(w: Writer, w': Writer, p: Path) {
    Get(w'.files, p) == Get(w.files, p)
  }

  lemma ClosedKeepsOthers(w: Writer, c: Chunk, cfg: Config, k: Key)
    requires k != c.key
    ensures SameKey(w, Closed(w, c, cfg), k)
  {
  }

  lemma OpenKeepsOthers(w: Writer, key: Key, now: int, cfg: Config, k: Key)
    requires k != key
    ensures SameKey(w, Open(w, key, now, cfg), k)
  {
  }

  lemma AppendKeepsOthers(w: Writer, c: Chunk, isNew: bool, cfg: Config, k: Key)
    requires k != c.key && !Opens(w, c.key)
    ensures SameKey(w, Append(w, c, isNew, cfg), k)
  {
  }

  lemma OtherKeysKept(w: Writer, c: Chunk, cfg: Config, k: Key)
    requires k != c.key
    ensures SameKey(w, Write(w, c, cfg), k)
  {
    var w1 := Closed(w, c, cfg);
    ClosedKeepsOthers(w, c, cfg, k);
    if !Opens(w1, c.key) {
      AppendKeepsOthers(w1, c, false, cfg, k);
    } else if !AtCap(w1, c.key, cfg) {
      var w2 := Open(w1, c.key, c.now, cfg);
      OpenKeepsOthers(w1, c.key, c.now, cfg, k);
      AppendKeepsOthers(w2, c, true, cfg, k);
    }
  }

  lemma RefuseEffect(w: Writer, c: Chunk, cfg: Config)
    requires Refuses(w, c, cfg) && (c.key in w.states <==> c.key in w.paths)
    ensures var (w', k) := (Write(w, c, cfg), c.key);
            && Get(w'.states, k) == None && Get(w'.paths, k) == None
            && CountOf(w'.counters, k) == CountOf(w.counters, k)
            && CountOf(w'.dropped, k) == CountOf(w.dropped, k) + 1
            && w'.files == w.files && w'.manifests == w.manifests
  {
  }

  lemma AppendEffect(w: Writer, c: Chunk, isNew: bool, cfg: Config)
    requires !Opens(w, c.key)
    ensures var (w', k) := (Append(w, c, isNew, cfg), c.key);
            var (dest, payload) := (w.paths[k], Prepare(cfg.format, c.data, isNew));
            && Get(w'.states, k) == Some(GrownPart(w.states[k], c, payload)) && w'.paths == w.paths
            && w'.counters == w.counters && w'.dropped == w.dropped && w'.manifests == w.manifests
            && Get(w'.files, dest) == Appended(Get(w.files, dest), payload)
            && (forall p | p != dest :: SameFile(w, w', p))
  {
  }

  predicate Opened(w: Writer, w': Writer, c: Chunk, cfg: Config) {
    var (k, index) := (c.key, CountOf(w.counters, c.key) + 1);
    var (dest, payload) := (Dest(cfg, k, index, c.now), Prepare(cfg.format, c.data, true));
    && Get(w'.states, k) == Some(GrownPart(Part(index, c.now, 0, 0), c, payload))
    && Get(w'.paths, k) == Some(dest) && index <= cfg.limits.maxIndex
    && CountOf(w'.counters, k) == index && CountOf(w'.dropped, k) == CountOf(w.dropped, k)
    && Get(w'.files, dest) == Appended(Get(w.files, dest), payload)
  }

  lemma OpenEffect(w: Writer, c: Chunk, cfg: Config)
    requires !Refuses(w, c, cfg) && Rolls(w, c, cfg)
    ensures Opened(w, Write(w, c, cfg), c, cfg)
    ensures var dest := Dest(cfg, c.key, CountOf(w.counters, c.key) + 1, c.now);
            forall p | p != dest :: SameFile(w, Write(w, c, cfg), p)
  {
    var w2 := Open(Closed(w, c, cfg), c.key, c.now, cfg);
    AppendEffect(w2, c, true, cfg);
    assert w2.files == w.files && Write(w, c, cfg) == Append(w2, c, true, cfg);
    forall p | p != w2.paths[c.key] ensures SameFile(w, Write(w, c, cfg), p) {
      assert SameFile(w2, Append(w2, c, true, cfg), p);
    }
  }

  lemma ExtendEffect(w: Writer, c: Chunk, cfg: Config)
    requires !Rolls(w, c, cfg)
    ensures var (w', k) := (Write(w, c, cfg), c.key);
            && k in w.states && k in w.paths && !ShouldRoll(w.states[k], c, cfg.limits)
            && var (dest, payload) := (w.paths[k], Prepare(cfg.format, c.data, false));
            && Get(w'.states, k) == Some(GrownPart(w.states[k], c, payload))
            && Get(w'.paths, k) == Some(dest)
            && CountOf(w'.counters, k) == CountOf(w.counters, k) && CountOf(w'.dropped, k) == CountOf(w.dropped, k)
            && Get(w'.files, dest) == Appended(Get(w.files, dest), payload)
            && (forall p | p != dest :: SameFile(w, w', p))
            && w'.manifests == w.manifests
  {
  }

  // ── one key's bookkeeping ─────────────────────────────────────────────────

  predicate PartOk(cfg: Config, key: Key, p: PartLog, i: nat) {
    && p.index == i + 1 && p.chunks != [] && p.chunks[0].now == p.openedAt
    && (forall j | 0 <= j < |p.chunks| :: p.chunks[j].key == key)
    && RecordsKept(cfg.format, cfg.limits, p.chunks)
    && BytesKept(cfg.format, cfg.limits, p.chunks)
    && TimeKept(cfg.limits, p.openedAt, p.chunks)
  }

  function PartDest(cfg: Config, key: Key, p: PartLog): Path {
    Dest(cfg, key, p.index, p.openedAt)
  }

  /** The open state is the last part's: its path, identity and running totals. */
  predicate OpenOk(cfg: Config, key: Key, state: Option<Part>, path: Option<Path>, ps: seq<PartLog>) {
    && (state.Some? <==> path.Some?)
    && (state.Some? ==>
          && ps != [] && var p := ps[|ps| - 1];
          && state.value.index == p.index && state.value.openedAt == p.openedAt
          && path.value == PartDest(cfg, key, p) && Summary(cfg.format, state.value, p.chunks))
  }

  predicate PartsOk(cfg: Config, key: Key, counter: nat, ps: seq<PartLog>) {
    && counter == |ps| && (ps == [] || |ps| <= cfg.limits.maxIndex)
    && (forall i | 0 <= i < |ps| :: PartOk(cfg, key, ps[i], i))
  }

  lemma OpenKeepsKey(cfg: Config, c: Chunk, counter: nat, ps: seq<PartLog>)
    requires PartsOk(cfg, c.key, counter, ps) && counter + 1 <= cfg.limits.maxIndex
    ensures var payload := Prepare(cfg.format, c.data, true);
            var ps' := ps + [PartLog(counter + 1, c.now, [c])];
            && PartsOk(cfg, c.key, counter + 1, ps')
            && OpenOk(cfg, c.key, Some(GrownPart(Part(counter + 1, c.now, 0, 0), c, payload)),
                      Some(Dest(cfg, c.key, counter + 1, c.now)), ps')
  {
    OneChunkKept(cfg.format, cfg.limits, c);
  }

  lemma ExtendedPartOk(cfg: Config, c: Chunk, s: Part, p: PartLog, i: nat)
    requires PartOk(cfg, c.key, p, i) && Summary(cfg.format, s, p.chunks) && s.openedAt == p.openedAt
    requires !ShouldRoll(s, c, cfg.limits)
    ensures PartOk(cfg, c.key, p.(chunks := p.chunks + [c]), i)
    ensures Summary(cfg.format, GrownPart(s, c, Prepare(cfg.format, c.data, false)), p.chunks + [c])
  {
    RecordsStayKept(cfg.format, cfg.limits, s, p.chunks, c);
    BytesStayKept(cfg.format, cfg.limits, s, p.chunks, c);
    Grown(cfg.format, p.chunks, c);
    BytesGrown(cfg.format, p.chunks, c);
  }

  lemma ExtendKeepsKey(cfg: Config, c: Chunk, counter: nat, s: Part, path: Path, ps: seq<PartLog>)
    requires PartsOk(cfg, c.key, counter, ps) && OpenOk(cfg, c.key, Some(s), Some(path), ps)
    requires !ShouldRoll(s, c, cfg.limits)
    ensures PartsOk(cfg, c.key, counter, Extend(ps, c))
    ensures OpenOk(cfg, c.key, Some(GrownPart(s, c, Prepare(cfg.format, c.data, false))), Some(path), Extend(ps, c))
  {
    ExtendedPartOk(cfg, c, s, ps[|ps| - 1], |ps| - 1);
  }

  predicate KeyOk(cfg: Config, w: Writer, key: Key, ps: seq<PartLog>) {
    && PartsOk(cfg, key, CountOf(w.counters, key), ps)
    && OpenOk(cfg, key, Get(w.states, key), Get(w.paths, key), ps)
  }

  lemma SameKeyOk(cfg: Config, w: Writer, w': Writer, key: Key, ps: seq<PartLog>)
    requires KeyOk(cfg, w, key, ps) && SameKey(w, w', key)
    ensures KeyOk(cfg, w', key, ps)
  {
  }

  lemma RefusalKeepsKey(cfg: Config, w: Writer, c: Chunk, ps: seq<PartLog>)
    requires KeyOk(cfg, w, c.key, ps) && Refuses(w, c, cfg)
    ensures KeyOk(cfg, Write(w, c, cfg), c.key, ps)
  {
    RefuseEffect(w, c, cfg);
  }

  lemma OpeningKeepsKey(cfg: Config, w: Writer, c: Chunk, ps: seq<PartLog>)
    requires KeyOk(cfg, w, c.key, ps) && ActionOn(w, c, cfg).Opening?
    ensures KeyOk(cfg, Write(w, c, cfg), c.key, ps + [PartLog(ActionOn(w, c, cfg).index, c.now, [c])])
  {
    OpenEffect(w, c, cfg);
    OpenedKeepsKey(cfg, w, Write(w, c, cfg), c, ps);
  }

  lemma OpenedKeepsKey(cfg: Config, w: Writer, w': Writer, c: Chunk, ps: seq<PartLog>)
    requires KeyOk(cfg, w, c.key, ps) && Opened(w, w', c, cfg)
    ensures KeyOk(cfg, w', c.key, ps + [PartLog(CountOf(w.counters, c.key) + 1, c.now, [c])])
  {
    OpenKeepsKey(cfg, c, CountOf(w.counters, c.key), ps);
  }

  lemma ExtendingKeepsKey(cfg: Config, w: Writer, c: Chunk, ps: seq<PartLog>)
    requires KeyOk(cfg, w, c.key, ps) && ActionOn(w, c, cfg).Extending?
    ensures KeyOk(cfg, Write(w, c, cfg), c.key, Extend(ps, c))
  {
    ExtendEffect(w, c, cfg);
    ExtendKeepsKey(cfg, c, CountOf(w.counters, c.key), w.states[c.key], w.paths[c.key], ps);
  }

  lemma RecordParts(l: Logs, c: Chunk, action: Action, key: Key)
    ensures var ps := PartsOf(l.parts, key);
            PartsOf(Record(l, c, action).parts, key) ==
              if key != c.key || action.Refusing? then ps
              else if action.Opening? then ps + [PartLog(action.index, c.now, [c])] else Extend(ps, c)
  {
  }

  lemma StepKeepsKey(cfg: Config, w: Writer, l: Logs, c: Chunk, key: Key)
    requires KeyOk(cfg, w, key, PartsOf(l.parts, key))
    ensures KeyOk(cfg, Write(w, c, cfg), key, PartsOf(Record(l, c, ActionOn(w, c, cfg)).parts, key))
  {
    var (ps, action) := (PartsOf(l.parts, key), ActionOn(w, c, cfg));
    RecordParts(l, c, action, key);
    if key != c.key {
      OtherKeysKept(w, c, cfg, key);
      SameKeyOk(cfg, w, Write(w, c, cfg), key, ps);
    } else {
      match action {
        case Refusing => RefusalKeepsKey(cfg, w, c, ps);
        case Opening(_) => OpeningKeepsKey(cfg, w, c, ps);
        case Extending => ExtendingKeepsKey(cfg, w, c, ps);
      }
    }
  }

  // ── the logs ──────────────────────────────────────────────────────────────

  function OfGrownBy(c: Chunk, key: Key): seq<Chunk> {
    if c.key == key then [c] else []
  }

  lemma OfGrown(cs: seq<Chunk>, c: Chunk, key: Key)
    ensures Of(cs + [c], key) == Of(cs, key) + OfGrownBy(c, key)
  {
    assert (cs + [c])[..|cs|] == cs;
  }

  lemma FlatGrown(ps: seq<PartLog>, c: Chunk, index: nat)
    ensures Flat(ps + [PartLog(index, c.now, [c])]) == Flat(ps) + [c]
    ensures ps != [] ==> Flat(Extend(ps, c)) == Flat(ps) + [c]
  {
    assert (ps + [PartLog(index, c.now, [c])])[..|ps|] == ps;
    if ps != [] {
      assert Extend(ps, c)[..|ps| - 1] == ps[..|ps| - 1];
    }
  }

  /** A key's chunks are first accepted, into its parts in order, and from some point on refused. */
  predicate LogsOk(l: Logs, cs: seq<Chunk>, key: Key) {
    && Of(cs, key) == Of(l.accepted, key) + Of(l.refused, key)
    && Flat(PartsOf(l.parts, key)) == Of(l.accepted, key)
  }

  /** Refusals are counted, and they mean that the counter is at the cap with no part open. */
  predicate CapOk(cfg: Config, w: Writer, key: Key, refused: nat) {
    && CountOf(w.dropped, key) == refused
    && (refused > 0 ==> Get(w.states, key).None? && CountOf(w.counters, key) + 1 > cfg.limits.maxIndex)
  }

  lemma OfOther(cs: seq<Chunk>, c: Chunk, key: Key)
    requires key != c.key
    ensures Of(cs + [c], key) == Of(cs, key)
  {
    OfGrown(cs, c, key);
  }

  lemma RecordedElsewhere(l: Logs, cs: seq<Chunk>, c: Chunk, action: Action, key: Key)
    requires LogsOk(l, cs, key) && key != c.key
    ensures LogsOk(Record(l, c, action), cs + [c], key)
  {
    OfOther(cs, c, key);
    RecordParts(l, c, action, key);
    assert Of(Record(l, c, action).accepted, key) == Of(l.accepted, key) by { OfOther(l.accepted, c, key); }
    assert Of(Record(l, c, action).refused, key) == Of(l.refused, key) by { OfOther(l.refused, c, key); }
  }

  lemma RecordedRefusal(l: Logs, cs: seq<Chunk>, c: Chunk)
    requires LogsOk(l, cs, c.key)
    ensures LogsOk(Record(l, c, Refusing), cs + [c], c.key)
  {
    OfGrown(cs, c, c.key);
    OfGrown(l.refused, c, c.key);
  }

  lemma OfAccepted(l: Logs, cs: seq<Chunk>, c: Chunk)
    requires LogsOk(l, cs, c.key) && Of(l.refused, c.key) == []
    ensures Of(cs + [c], c.key) == Of(l.accepted + [c], c.key) + Of(l.refused, c.key)
    ensures Of(l.accepted + [c], c.key) == Flat(PartsOf(l.parts, c.key)) + [c]
  {
    OfGrown(cs, c, c.key);
    OfGrown(l.accepted, c, c.key);
  }

  lemma RecordedAcceptance(l: Logs, cs: seq<Chunk>, c: Chunk, action: Action)
    requires LogsOk(l, cs, c.key) && !action.Refusing? && Of(l.refused, c.key) == []
    requires action.Extending? ==> PartsOf(l.parts, c.key) != []
    ensures LogsOk(Record(l, c, action), cs + [c], c.key)
  {
    OfAccepted(l, cs, c);
    RecordParts(l, c, action, c.key);
    FlatGrown(PartsOf(l.parts, c.key), c, if action.Opening? then action.index else 0);
  }

  /** Once a write of a key was refused, every later one is. */
  lemma CapIsFinal(cfg: Config, w: Writer, c: Chunk, refused: nat)
    requires CapOk(cfg, w, c.key, refused) && refused > 0
    ensures Refuses(w, c, cfg)
  {
  }

  lemma RefusalKeepsCap(cfg: Config, w: Writer, c: Chunk, refused: nat, ps: seq<PartLog>)
    requires CapOk(cfg, w, c.key, refused) && KeyOk(cfg, w, c.key, ps) && Refuses(w, c, cfg)
    ensures CapOk(cfg, Write(w, c, cfg), c.key, refused + 1)
  {
    RefuseEffect(w, c, cfg);
  }

  lemma AcceptanceKeepsCap(cfg: Config, w: Writer, c: Chunk, ps: seq<PartLog>)
    requires CapOk(cfg, w, c.key, 0) && KeyOk(cfg, w, c.key, ps) && !Refuses(w, c, cfg)
    ensures CapOk(cfg, Write(w, c, cfg), c.key, 0)
  {
    if Rolls(w, c, cfg) {
      OpenEffect(w, c, cfg);
    } else {
      ExtendEffect(w, c, cfg);
    }
  }

  predicate KeyInv(cfg: Config, w: World, cs: seq<Chunk>, key: Key) {
    && KeyOk(cfg, w.writer, key, PartsOf(w.logs.parts, key)) && LogsOk(w.logs, cs, key)
    && CapOk(cfg, w.writer, key, |Of(w.logs.refused, key)|)
  }

  lemma StepKeepsLogs(cfg: Config, w: World, cs: seq<Chunk>, c: Chunk, key: Key)
    requires KeyInv(cfg, w, cs, key)
    ensures LogsOk(Record(w.logs, c, ActionOn(w.writer, c, cfg)), cs + [c], key)
  {
    var action := ActionOn(w.writer, c, cfg);
    if key != c.key {
      RecordedElsewhere(w.logs, cs, c, action, key);
    } else if action.Refusing? {
      RecordedRefusal(w.logs, cs, c);
    } else {
      if Of(w.logs.refused, key) != [] {
        CapIsFinal(cfg, w.writer, c, |Of(w.logs.refused, key)|);
      }
      if action.Extending? {
        ExtendEffect(w.writer, c, cfg);
      }
      RecordedAcceptance(w.logs, cs, c, action);
    }
  }

  lemma RefusedCount(l: Logs, c: Chunk, action: Action, key: Key)
    ensures |Of(Record(l, c, action).refused, key)|
            == |Of(l.refused, key)| + (if key == c.key && action.Refusing? then 1 else 0)
  {
    OfGrown(l.refused, c, key);
  }

  lemma SameCap(cfg: Config, w: Writer, w': Writer, key: Key, refused: nat)
    requires CapOk(cfg, w, key, refused) && SameKey(w, w', key)
    ensures CapOk(cfg, w', key, refused)
  {
  }

  lemma StepKeepsCap(cfg: Config, w: World, cs: seq<Chunk>, c: Chunk, key: Key)
    requires KeyInv(cfg, w, cs, key)
    ensures CapOk(cfg, Write(w.writer, c, cfg), key, |Of(Record(w.logs, c, ActionOn(w.writer, c, cfg)).refused, key)|)
  {
    RefusedCount(w.logs, c, ActionOn(w.writer, c, cfg), key);
    var (ps, refused) := (PartsOf(w.logs.parts, key), |Of(w.logs.refused, key)|);
    if key != c.key {
      OtherKeysKept(w.writer, c, cfg, key);
      SameCap(cfg, w.writer, Write(w.writer, c, cfg), key, refused);
    } else if Refuses(w.writer, c, cfg) {
      RefusalKeepsCap(cfg, w.writer, c, refused, ps);
    } else {
      if refused > 0 {
        CapIsFinal(cfg, w.writer, c, refused);
      }
      AcceptanceKeepsCap(cfg, w.writer, c, ps);
    }
  }

  lemma StepKeepsKeyInv(cfg: Config, w: World, cs: seq<Chunk>, c: Chunk, key: Key)
    requires KeyInv(cfg, w, cs, key)
    ensures KeyInv(cfg, Step(w, c, cfg), cs + [c], key)
  {
    StepKeepsKey(cfg, w.writer, w.logs, c, key);
    StepKeepsLogs(cfg, w, cs, c, key);
    StepKeepsCap(cfg, w, cs, c, key);
  }

  lemma StartKeyInv(disk: Disk, cfg: Config, key: Key)
    ensures KeyInv(cfg, Run(disk, [], cfg), [], key)
  {
  }

  lemma RunStepKeepsKey(disk: Disk, cs: seq<Chunk>, c: Chunk, cfg: Config, key: Key)
    requires KeyInv(cfg, Run(disk, cs, cfg), cs, key)
    ensures KeyInv(cfg, Run(disk, cs + [c], cfg), cs + [c], key)
  {
    StepKeepsKeyInv(cfg, Run(disk, cs, cfg), cs, c, key);
    assert (cs + [c])[..|cs|] == cs;
  }

  lemma {:induction false} RunKeepsKey(disk: Disk, cs: seq<Chunk>, cfg: Config, key: Key)
    ensures KeyInv(cfg, Run(disk, cs, cfg), cs, key)
  {
    if cs == [] {
      StartKeyInv(disk, cfg, key);
    } else {
      var (init, c) := (cs[..|cs| - 1], cs[|cs| - 1]);
      RunKeepsKey(disk, init, cfg, key);
      assert cs == init + [c];
      RunStepKeepsKey(disk, init, c, cfg, key);
    }
  }
}
