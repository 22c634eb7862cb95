/** The append-mode writer: one open part per state key, rolled by records, time or bytes. */
module RollingWriter {
  import opened Basics
  import opened Payloads

  type Key = string
  type Path = string
  type Unit = string
  type Disk = map<Path, Bytes>

  datatype Limits = Limits(maxRecords: Option<int>, maxSeconds: Option<int>, maxBytes: Option<int>, maxIndex: int)

  /** `name` renders a part's file name; `temp` is where a staged part is kept until it is published. */
  datatype Config = Config(limits: Limits, format: Format, staged: bool, name: (Key, nat, int) -> Path,
                           temp: Path -> Path, unitOf: Key -> Unit)

  /** One write: its state key, bytes, record count and the clock it read, in microseconds. */
  datatype Chunk = Chunk(key: Key, data: Bytes, records: nat, now: int)

  datatype Part = Part(index: nat, openedAt: int, records: nat, bytes: nat)

  datatype Target = Target(key: Key, temp: Path, final: Path)

  datatype Writer = Writer(states: map<Key, Part>, paths: map<Key, Path>, counters: map<Key, nat>,
                           dropped: map<Key, nat>, manifests: map<Unit, seq<Target>>, files: Disk)

  datatype Outcome = Refused | Nothing | Written(dest: Path)

  function CountOf(m: map<Key, nat>, k: Key): nat {
    if k in m then m[k] else 0
  }

  function ShouldRoll(p: Part, c: Chunk, limits: Limits): bool {
    || (limits.maxSeconds.Some? && c.now - p.openedAt >= limits.maxSeconds.value * MICROS)
    || (limits.maxRecords.Some? && p.records > 0 && p.records + c.records > limits.maxRecords.value)
    || (limits.maxBytes.Some? && p.bytes > 0 && p.bytes + |c.data| > limits.maxBytes.value)
  }

  /** Where the bytes of a part go: straight to its name, or to the staging file beside it. */
  function Dest(cfg: Config, key: Key, index: nat, openedAt: int): Path {
    var final := cfg.name(key, index, openedAt);
    if cfg.staged then cfg.temp(final) else final
  }

  function Appended(file: Option<Bytes>, payload: Bytes): Option<Bytes> {
    if payload == [] then file else Some((if file.Some? then file.value else []) + payload)
  }

  /** A target already registered with the same two paths is not registered again. */
  function AddTarget(targets: seq<Target>, t: Target): seq<Target> {
    if exists u | u in targets :: u.temp == t.temp && u.final == t.final then targets else targets + [t]
  }

  /** Only a target with both paths known is dropped; then the list stays, else the target is last. */
  lemma AddTargetLaw(targets: seq<Target>, t: Target)
    ensures var known := exists i | 0 <= i < |targets| :: targets[i].temp == t.temp && targets[i].final == t.final;
            AddTarget(targets, t) == if known then targets else targets + [t]
  {
  }

  // ── one write ─────────────────────────────────────────────────────────────

  function Closed(w: Writer, c: Chunk, cfg: Config): Writer {
    if c.key in w.states && ShouldRoll(w.states[c.key], c, cfg.limits)
    then w.(states := w.states - {c.key}, paths := w.paths - {c.key}) else w
  }

  predicate Opens(w: Writer, key: Key) {
    key !in w.states || key !in w.paths
  }

  predicate AtCap(w: Writer, key: Key, cfg: Config) {
    CountOf(w.counters, key) + 1 > cfg.limits.maxIndex
  }

  function Drop(w: Writer, key: Key): Writer {
    w.(dropped := w.dropped[key := CountOf(w.dropped, key) + 1])
  }

  function Staged(w: Writer, cfg: Config, t: Target): map<Unit, seq<Target>> {
    var unit := cfg.unitOf(t.key);
    w.manifests[unit := AddTarget(if unit in w.manifests then w.manifests[unit] else [], t)]
  }

  function Open(w: Writer, key: Key, now: int, cfg: Config): Writer {
    var index := CountOf(w.counters, key) + 1;
    var final := cfg.name(key, index, now);
    w.(counters := w.counters[key := index],
       states := w.states[key := Part(index, now, 0, 0)],
       paths := w.paths[key := Dest(cfg, key, index, now)],
       manifests := if cfg.staged then Staged(w, cfg, Target(key, cfg.temp(final), final)) else w.manifests)
  }

  function Append(w: Writer, c: Chunk, isNew: bool, cfg: Config): Writer
    requires !Opens(w, c.key)
  {
    var payload := Prepare(cfg.format, c.data, isNew);
    var (p, dest) := (w.states[c.key], w.paths[c.key]);
    if payload == [] then w else
      w.(files := w.files[dest := Appended(Get(w.files, dest), payload).value],
         states := w.states[c.key := p.(records := p.records + c.records, bytes := p.bytes + |payload|)])
  }

  function Write(w: Writer, c: Chunk, cfg: Config): Writer {
    var w1 := Closed(w, c, cfg);
    if !Opens(w1, c.key) then Append(w1, c, false, cfg)
    else if AtCap(w1, c.key, cfg) then Drop(w1, c.key)
    else Append(Open(w1, c.key, c.now, cfg), c, true, cfg)
  }

  predicate Refuses(w: Writer, c: Chunk, cfg: Config) {
    var w1 := Closed(w, c, cfg);
    Opens(w1, c.key) && AtCap(w1, c.key, cfg)
  }

  predicate Rolls(w: Writer, c: Chunk, cfg: Config) {
    Opens(Closed(w, c, cfg), c.key)
  }

  const EMPTY := Writer(map[], map[], map[], map[], map[], map[])

  // ── the class ─────────────────────────────────────────────────────────────

  class Sink {
    const cfg: Config
    var states: map<Key, Part>
    var paths: map<Key, Path>
    var counters: map<Key, nat>
    var dropped: map<Key, nat>
    var manifests: map<Unit, seq<Target>>
    var files: Disk

    function View(): Writer
      reads this
    {
      Writer(states, paths, counters, dropped, manifests, files)
    }

    constructor (cfg: Config, disk: Disk)
      ensures View() == EMPTY.(files := disk) && this.cfg == cfg
    {
      this.cfg := cfg;
      states, paths, counters, dropped, manifests, files := map[], map[], map[], map[], map[], disk;
    }

    /** Scans the unit's targets for the same two paths before appending. */
    method AddStagedTarget(t: Target)
      modifies this`manifests
      ensures manifests == Staged(old(View()), cfg, t)
    {
      var unit := cfg.unitOf(t.key);
      var targets := if unit in manifests then manifests[unit] else [];
      var known := false;
      for i := 0 to |targets|
        invariant known <==> exists u | u in targets[..i] :: u.temp == t.temp && u.final == t.final
      {
        assert targets[..i + 1] == targets[..i] + [targets[i]];
        if targets[i].temp == t.temp && targets[i].final == t.final {
          known := true;
        }
      }
      assert targets[..|targets|] == targets;
      manifests := manifests[unit := if known then targets else targets + [t]];
    }

    method OpenPart(key: Key, now: int) returns (ok: bool)
      modifies this
      ensures ok == !AtCap(old(View()), key, cfg)
      ensures View() == if ok then Open(old(View()), key, now, cfg) else Drop(old(View()), key)
    {
      var index := CountOf(counters, key) + 1;
      if index > cfg.limits.maxIndex {
        dropped := dropped[key := CountOf(dropped, key) + 1];
        return false;
      }
      counters := counters[key := index];
      var final := cfg.name(key, index, now);
      var dest := final;
      if cfg.staged {
        dest := cfg.temp(final);
        AddStagedTarget(Target(key, dest, final));
      }
      paths := paths[key := dest];
      states := states[key := Part(index, now, 0, 0)];
      ok := true;
    }

    method AppendPayload(c: Chunk, isNew: bool) returns (outcome: Outcome)
      requires !Opens(View(), c.key)
      modifies this`files, this`states
      ensures View() == Append(old(View()), c, isNew, cfg)
      ensures outcome == if Prepare(cfg.format, c.data, isNew) == [] then Nothing else Written(paths[c.key])
    {
      var (part, dest) := (states[c.key], paths[c.key]);
      var payload := Prepare(cfg.format, c.data, isNew);
      if payload == [] {
        return Nothing;
      }
      files := files[dest := Appended(Get(files, dest), payload).value];
      states := states[c.key := part.(records := part.records + c.records, bytes := part.bytes + |payload|)];
      outcome := Written(dest);
    }

    method CloseIfDue(c: Chunk)
      modifies this`states, this`paths
      ensures View() == Closed(old(View()), c, cfg)
    {
      if c.key in states && ShouldRoll(states[c.key], c, cfg.limits) {
        states := states - {c.key};
        paths := paths - {c.key};
      }
    }

    method WriteChunk(c: Chunk) returns (outcome: Outcome)
      modifies this
      ensures View() == Write(old(View()), c, cfg)
      ensures outcome.Refused? <==> Refuses(old(View()), c, cfg)
      ensures outcome.Nothing? ==> files == old(files)
      ensures outcome.Written? ==> c.key in paths && outcome.dest == paths[c.key]
    {
      CloseIfDue(c);
      var isNew := c.key !in states || c.key !in paths;
      if isNew {
        var ok := OpenPart(c.key, c.now);
        if !ok {
          return Refused;
        }
      }
      outcome := AppendPayload(c, isNew);
    }
  }
}
