/**
 The worker's attempt-aware index of active runs: a dictionary of entries in insertion order,
 keyed by attempt id (or by run id for legacy dispatches), and a run id index into it.
 */
module WorkerState {
  import opened Basics

  datatype ActiveRun = ActiveRun(run: string, attempt: string)

  datatype Entry = Entry(key: string, run: ActiveRun)

  datatype Index = Index(entries: seq<Entry>, byRun: map<string, string>)

  const EMPTY := Index([], map[])

  // ── dictionary operations ─────────────────────────────────────────────────

  function Position(entries: seq<Entry>, key: string): (i: nat)
    ensures i <= |entries|
    ensures i < |entries| ==> entries[i].key == key
    ensures forall j | 0 <= j < i :: entries[j].key != key
  {
    if entries == [] || entries[0].key == key then 0 else Position(entries[1..], key) + 1
  }

  /** Assignment keeps the position of a key that is already present. */
  function Put(entries: seq<Entry>, key: string, run: ActiveRun): seq<Entry> {
    var i := Position(entries, key);
    if i < |entries| then entries[i := Entry(key, run)] else entries + [Entry(key, run)]
  }

  function Drop(entries: seq<Entry>, key: string): seq<Entry> {
    var i := Position(entries, key);
    if i < |entries| then entries[..i] + entries[i + 1..] else entries
  }

  /** The entries of one run id, in dictionary order. */
  function EntriesFor(entries: seq<Entry>, run: string): (r: seq<Entry>)
    ensures forall e :: e in r <==> e in entries && e.run.run == run
  {
    if entries == [] then [] else
      assert entries == [entries[0]] + entries[1..];
      (if entries[0].run.run == run then [entries[0]] else []) + EntriesFor(entries[1..], run)
  }

  // ── the store ─────────────────────────────────────────────────────────────

  function Key(r: ActiveRun): string {
    if r.attempt != "" then r.attempt else r.run
  }

  function Add(ix: Index, r: ActiveRun): Index {
    Index(Put(ix.entries, Key(r), r), ix.byRun[r.run := Key(r)])
  }

  function FirstKey(entries: seq<Entry>, run: string): Option<string> {
    var rest := EntriesFor(entries, run);
    if rest != [] then Some(rest[0].key) else None
  }

  function Pointed(byRun: map<string, string>, run: string, found: Option<string>): map<string, string> {
    if found.Some? then byRun[run := found.value] else byRun - {run}
  }

  /** Re-pointed only if the index still pointed at the removed key. */
  function Repointed(byRun: map<string, string>, run: string, key: string, found: Option<string>): map<string, string> {
    if run !in byRun || byRun[run] != key then byRun else Pointed(byRun, run, found)
  }

  function Remove(ix: Index, r: ActiveRun): Index {
    var left := Drop(ix.entries, Key(r));
    Index(left, Repointed(ix.byRun, r.run, Key(r), FirstKey(left, r.run)))
  }

  function Answer(ix: Index, run: string): Option<ActiveRun> {
    var key := if run in ix.byRun && ix.byRun[run] != "" then ix.byRun[run] else run;
    var i := Position(ix.entries, key);
    if i < |ix.entries| then Some(ix.entries[i].run) else None
  }

  // ── the class ─────────────────────────────────────────────────────────────

  class State {
    var entries: seq<Entry>
    var byRun: map<string, string>

    function View(): Index
      reads this
    {
      Index(entries, byRun)
    }

    constructor ()
      ensures View() == EMPTY
    {
      entries, byRun := [], map[];
    }

    method AddRun(r: ActiveRun)
      modifies this
      ensures View() == Add(old(View()), r)
    {
      var key := Key(r);
      var i := Position(entries, key);
      if i < |entries| {
        entries := entries[i := Entry(key, r)];
      } else {
        entries := entries + [Entry(key, r)];
      }
      byRun := byRun[r.run := key];
    }

    method RemoveRun(run: string, attempt: string)
      modifies this
      ensures View() == Remove(old(View()), ActiveRun(run, attempt))
    {
      if attempt != "" {
        entries := Drop(entries, attempt);
        if run in byRun && byRun[run] == attempt {
          ReindexRun(run);
        }
      } else {
        entries := Drop(entries, run);
        if run in byRun && byRun[run] == run {
          ReindexRun(run);
        }
      }
    }

    method ReindexRun(run: string)
      modifies this`byRun
      ensures byRun == Pointed(old(byRun), run, FirstKey(entries, run))
    {
      var i := 0;
      while i < |entries|
        invariant i <= |entries| && byRun == old(byRun)
        invariant EntriesFor(entries, run) == EntriesFor(entries[i..], run)
      {
        if entries[i].run.run == run {
          byRun := byRun[run := entries[i].key];
          return;
        }
        i := i + 1;
      }
      byRun := byRun - {run};
    }

    method GetRun(run: string) returns (r: Option<ActiveRun>)
      ensures r == Answer(View(), run)
    {
      var key := if run in byRun && byRun[run] != "" then byRun[run] else run;
      var i := Position(entries, key);
      return if i < |entries| then Some(entries[i].run) else None;
    }
  }

  // ── runs of adds and removes ──────────────────────────────────────────────

  datatype Event = Added(r: ActiveRun) | Removed(r: ActiveRun)

  /** An attempt id belongs to one run id, and no attempt id is also a run id. */
  predicate WellNamed(r: ActiveRun, runOf: string -> Option<string>) {
    runOf(r.run) == None && (r.attempt != "" ==> runOf(r.attempt) == Some(r.run))
  }

  function RunOfKey(key: string, runOf: string -> Option<string>): string {
    if runOf(key).Some? then runOf(key).value else key
  }

  /** The index, and for each run id the key added last, until that key is removed. */
  datatype World = World(ix: Index, latest: map<string, string>)

  function Forgotten(latest: map<string, string>, run: string, key: string): map<string, string> {
    if run in latest && latest[run] == key then latest - {run} else latest
  }

  function Next(w: World, e: Event): World {
    match e
    case Added(r) => World(Add(w.ix, r), w.latest[r.run := Key(r)])
    case Removed(r) =>
      World(Remove(w.ix, r), Forgotten(w.latest, r.run, Key(r)))
  }

  function Play(w: World, es: seq<Event>): World {
    if es == [] then w else Next(Play(w, es[..|es| - 1]), es[|es| - 1])
  }

  predicate AllWellNamed(es: seq<Event>, runOf: string -> Option<string>) {
    forall e | e in es :: WellNamed(e.r, runOf)
  }

  predicate DistinctKeys(entries: seq<Entry>) {
    forall i, j | 0 <= i < j < |entries| :: entries[i].key != entries[j].key
  }

  function Keys(entries: seq<Entry>): set<string> {
    set e | e in entries :: e.key
  }

  /** Every entry is filed under its own key, and keys follow the naming rule. */
  predicate Filed(entries: seq<Entry>, runOf: string -> Option<string>) {
    DistinctKeys(entries) && forall e | e in entries :: e.key == Key(e.run) && WellNamed(e.run, runOf)
  }

  /** The index names live keys of the right run, covers every live key, and agrees with the last add. */
  predicate Indexed(keys: set<string>, byRun: map<string, string>, latest: map<string, string>,
                    runOf: string -> Option<string>) {
    && (forall run | run in byRun :: byRun[run] in keys && RunOfKey(byRun[run], runOf) == run)
    && (forall k | k in keys :: RunOfKey(k, runOf) in byRun)
    && (forall run | run in latest :: run in byRun && byRun[run] == latest[run])
  }

  predicate Inv(w: World, runOf: string -> Option<string>) {
    Filed(w.ix.entries, runOf) && Indexed(Keys(w.ix.entries), w.ix.byRun, w.latest, runOf)
  }

  lemma KeyNamesRun(r: ActiveRun, runOf: string -> Option<string>)
    requires WellNamed(r, runOf)
    ensures RunOfKey(Key(r), runOf) == r.run
  {
  }

  lemma PutMembers(entries: seq<Entry>, key: string, run: ActiveRun)
    requires DistinctKeys(entries)
    ensures DistinctKeys(Put(entries, key, run))
    ensures forall e :: e in Put(entries, key, run) <==> e == Entry(key, run) || (e in entries && e.key != key)
  {
    var (i, r) := (Position(entries, key), Put(entries, key, run));
    if i < |entries| {
      assert r[i] == Entry(key, run);
      forall e | e in entries && e.key != key ensures e in r {
        var j :| 0 <= j < |entries| && entries[j] == e;
        assert r[j] == e;
      }
    }
  }

  lemma DropMembers(entries: seq<Entry>, key: string)
    requires DistinctKeys(entries)
    ensures DistinctKeys(Drop(entries, key))
    ensures forall e :: e in Drop(entries, key) <==> e in entries && e.key != key
  {
    var (i, r) := (Position(entries, key), Drop(entries, key));
    if i < |entries| {
      assert forall j | 0 <= j < |r| :: r[j] == entries[if j < i then j else j + 1];
      forall e | e in entries && e.key != key ensures e in r {
        var j :| 0 <= j < |entries| && entries[j] == e;
        assert r[if j < i then j else j - 1] == e;
      }
    }
  }

  lemma AddKeepsFiled(entries: seq<Entry>, r: ActiveRun, runOf: string -> Option<string>)
    requires Filed(entries, runOf) && WellNamed(r, runOf)
    ensures Filed(Put(entries, Key(r), r), runOf) && Keys(Put(entries, Key(r), r)) == Keys(entries) + {Key(r)}
  {
    PutMembers(entries, Key(r), r);
    var entries' := Put(entries, Key(r), r);
    assert Entry(Key(r), r) in entries';
    forall k | k in Keys(entries) ensures k in Keys(entries') {
      var e :| e in entries && e.key == k;
      assert k != Key(r) ==> e in entries';
    }
  }

  lemma RemoveKeepsFiled(entries: seq<Entry>, key: string, runOf: string -> Option<string>)
    requires Filed(entries, runOf)
    ensures Filed(Drop(entries, key), runOf) && Keys(Drop(entries, key)) == Keys(entries) - {key}
  {
    DropMembers(entries, key);
    forall k | k in Keys(entries) && k != key ensures k in Keys(Drop(entries, key)) {
      var e :| e in entries && e.key == k;
      assert e in Drop(entries, key);
    }
  }

  /** What the reindex scan finds: a live key of the run, or none because there is none. */
  lemma ScanFinds(entries: seq<Entry>, run: string, runOf: string -> Option<string>)
    requires Filed(entries, runOf)
    ensures match FirstKey(entries, run)
            case Some(key) => key in Keys(entries) && RunOfKey(key, runOf) == run
            case None => forall k | k in Keys(entries) :: RunOfKey(k, runOf) != run
  {
    var rest := EntriesFor(entries, run);
    if rest != [] {
      assert rest[0] in rest;
      KeyNamesRun(rest[0].run, runOf);
    } else {
      forall k | k in Keys(entries) ensures RunOfKey(k, runOf) != run {
        var e :| e in entries && e.key == k;
        KeyNamesRun(e.run, runOf);
        assert e !in rest;
      }
    }
  }

  lemma AddKeepsIndexed(keys: set<string>, byRun: map<string, string>, latest: map<string, string>,
                        r: ActiveRun, runOf: string -> Option<string>)
    requires Indexed(keys, byRun, latest, runOf) && WellNamed(r, runOf)
    ensures Indexed(keys + {Key(r)}, byRun[r.run := Key(r)], latest[r.run := Key(r)], runOf)
  {
    KeyNamesRun(r, runOf);
  }

  lemma AddKeepsInv(w: World, r: ActiveRun, runOf: string -> Option<string>)
    requires Inv(w, runOf) && WellNamed(r, runOf)
    ensures Inv(Next(w, Added(r)), runOf)
  {
    AddKeepsFiled(w.ix.entries, r, runOf);
    AddKeepsIndexed(Keys(w.ix.entries), w.ix.byRun, w.latest, r, runOf);
  }

  lemma RemoveKeepsIndexed(keys: set<string>, byRun: map<string, string>, latest: map<string, string>,
                           run: string, key: string, found: Option<string>, runOf: string -> Option<string>)
    requires Indexed(keys, byRun, latest, runOf) && RunOfKey(key, runOf) == run
    requires found.Some? ==> found.value in keys - {key} && RunOfKey(found.value, runOf) == run
    requires found.None? ==> forall k | k in keys - {key} :: RunOfKey(k, runOf) != run
    ensures Indexed(keys - {key}, Repointed(byRun, run, key, found), Forgotten(latest, run, key), runOf)
  {
  }

  lemma RemoveKeepsInv(w: World, r: ActiveRun, runOf: string -> Option<string>)
    requires Inv(w, runOf) && WellNamed(r, runOf)
    ensures Inv(Next(w, Removed(r)), runOf)
  {
    var left := Drop(w.ix.entries, Key(r));
    RemoveKeepsFiled(w.ix.entries, Key(r), runOf);
    KeyNamesRun(r, runOf);
    ScanFinds(left, r.run, runOf);
    RemoveKeepsIndexed(Keys(w.ix.entries), w.ix.byRun, w.latest, r.run, Key(r), FirstKey(left, r.run), runOf);
  }

  lemma {:induction false} PlayKeepsInv(es: seq<Event>, runOf: string -> Option<string>)
    requires AllWellNamed(es, runOf)
    ensures Inv(Play(World(EMPTY, map[]), es), runOf)
  {
    if es != [] {
      var e := es[|es| - 1];
      assert e in es;
      PlayKeepsInv(es[..|es| - 1], runOf);
      var w := Play(World(EMPTY, map[]), es[..|es| - 1]);
      match e {
        case Added(r) => AddKeepsInv(w, r, runOf);
        case Removed(r) => RemoveKeepsInv(w, r, runOf);
      }
    }
  }

  /** Looking a live key up yields the entry filed under it. */
  lemma Lookup(entries: seq<Entry>, key: string, runOf: string -> Option<string>)
    requires Filed(entries, runOf) && key in Keys(entries)
    ensures var i := Position(entries, key);
            && i < |entries| && entries[i].key == key && entries[i] in entries
            && Key(entries[i].run) == key && entries[i].run.run == RunOfKey(key, runOf)
  {
    var e :| e in entries && e.key == key;
    var j :| 0 <= j < |entries| && entries[j] == e;
    var i := Position(entries, key);
    assert i <= j;
    assert entries[i] in entries;
    KeyNamesRun(entries[i].run, runOf);
  }

  lemma GetIndexed(w: World, runOf: string -> Option<string>, run: string)
    requires Inv(w, runOf) && run in w.ix.byRun
    ensures var i := Position(w.ix.entries, w.ix.byRun[run]);
            && i < |w.ix.entries| && Answer(w.ix, run) == Some(w.ix.entries[i].run)
            && w.ix.entries[i].run.run == run && Key(w.ix.entries[i].run) == w.ix.byRun[run]
  {
    Lookup(w.ix.entries, w.ix.byRun[run], runOf);
  }

  /**
   After any adds and removes: the index never dangles, every live run is found, and the answer
   for a run id is the attempt added last as long as that attempt has not been removed.
   */
  lemma IndexAnswers(es: seq<Event>, runOf: string -> Option<string>, run: string)
    requires AllWellNamed(es, runOf)
    ensures var w := Play(World(EMPTY, map[]), es);
            && (run in w.ix.byRun ==> Answer(w.ix, run).Some? && Answer(w.ix, run).value.run == run)
            && (forall e | e in w.ix.entries :: e.run.run in w.ix.byRun)
            && (run in w.latest ==> Answer(w.ix, run).Some? && Key(Answer(w.ix, run).value) == w.latest[run])
  {
    PlayKeepsInv(es, runOf);
    var w := Play(World(EMPTY, map[]), es);
    if run in w.ix.byRun {
      GetIndexed(w, runOf, run);
    }
    forall e | e in w.ix.entries ensures e.run.run in w.ix.byRun {
      KeyNamesRun(e.run, runOf);
      assert e.key in Keys(w.ix.entries);
    }
  }

  // ── what is filed ─────────────────────────────────────────────────────────

  /** Event `i` added the run, and nothing since has added or removed its key. */
  predicate LastAdd(es: seq<Event>, i: nat, r: ActiveRun) {
    && i < |es| && es[i] == Added(r)
    && forall j | i < j < |es| :: Key(es[j].r) != Key(r)
  }

  lemma LastAddStep(es: seq<Event>, e: Event, i: nat, r: ActiveRun)
    ensures i < |es| ==> (LastAdd(es + [e], i, r) <==> LastAdd(es, i, r) && Key(e.r) != Key(r))
    ensures i >= |es| ==> (LastAdd(es + [e], i, r) <==> i == |es| && e == Added(r))
  {
    var es' := es + [e];
    if i < |es| && LastAdd(es', i, r) {
      assert es'[|es|] == e;
      assert forall j | i < j < |es| :: es'[j] == es[j];
    }
  }

  lemma StepFiles(ix: Index, e: Event, r: ActiveRun)
    requires DistinctKeys(ix.entries)
    ensures var entries := (if e.Added? then Add(ix, e.r) else Remove(ix, e.r)).entries;
            Entry(Key(r), r) in entries <==>
              e == Added(r) || (Entry(Key(r), r) in ix.entries && Key(e.r) != Key(r))
  {
    if e.Added? {
      PutMembers(ix.entries, Key(e.r), e.r);
    } else {
      DropMembers(ix.entries, Key(e.r));
    }
  }

  lemma PlayStep(es: seq<Event>, e: Event, runOf: string -> Option<string>, r: ActiveRun)
    requires AllWellNamed(es, runOf)
    ensures Entry(Key(r), r) in Play(World(EMPTY, map[]), es + [e]).ix.entries <==>
            e == Added(r) || (Entry(Key(r), r) in Play(World(EMPTY, map[]), es).ix.entries && Key(e.r) != Key(r))
  {
    PlayKeepsInv(es, runOf);
    StepFiles(Play(World(EMPTY, map[]), es).ix, e, r);
    assert (es + [e])[..|es|] == es;
  }

  lemma {:induction false} FiledLastAdd(es: seq<Event>, runOf: string -> Option<string>, r: ActiveRun) returns (i: nat)
    requires AllWellNamed(es, runOf) && Entry(Key(r), r) in Play(World(EMPTY, map[]), es).ix.entries
    ensures LastAdd(es, i, r)
    decreases |es|
  {
    assert es != [];
    var (init, e) := (es[..|es| - 1], es[|es| - 1]);
    assert es == init + [e];
    PlayStep(init, e, runOf, r);
    i := if e == Added(r) then |init| else 0;
    if e != Added(r) {
      i := FiledLastAdd(init, runOf, r);
    }
    LastAddStep(init, e, i, r);
  }

  lemma {:induction false} LastAddFiled(es: seq<Event>, runOf: string -> Option<string>, r: ActiveRun, i: nat)
    requires AllWellNamed(es, runOf) && LastAdd(es, i, r)
    ensures Entry(Key(r), r) in Play(World(EMPTY, map[]), es).ix.entries
    decreases |es|
  {
    var (init, e) := (es[..|es| - 1], es[|es| - 1]);
    assert es == init + [e];
    LastAddStep(init, e, i, r);
    if i < |init| {
      LastAddFiled(init, runOf, r, i);
    }
    PlayStep(init, e, runOf, r);
  }

  /** An index entry is a run id, never an attempt id. */
  lemma IndexedAreRuns(w: World, runOf: string -> Option<string>, run: string)
    requires Inv(w, runOf) && run in w.ix.byRun
    ensures runOf(run) == None
  {
    var e :| e in w.ix.entries && e.key == w.ix.byRun[run];
    KeyNamesRun(e.run, runOf);
  }

  /** Asked by attempt id, a filed attempt answers itself. */
  lemma AttemptAnswersItself(es: seq<Event>, runOf: string -> Option<string>, r: ActiveRun)
    requires AllWellNamed(es, runOf) && r.attempt != ""
    requires Entry(Key(r), r) in Play(World(EMPTY, map[]), es).ix.entries
    ensures Answer(Play(World(EMPTY, map[]), es).ix, r.attempt) == Some(r)
  {
    PlayKeepsInv(es, runOf);
    var w := Play(World(EMPTY, map[]), es);
    if r.attempt in w.ix.byRun {
      IndexedAreRuns(w, runOf, r.attempt);
    }
    PositionOf(w.ix.entries, Entry(Key(r), r));
  }

  /** A run is filed exactly when it was added and nothing since has added or removed its key. */
  lemma FiledIff(es: seq<Event>, runOf: string -> Option<string>, r: ActiveRun)
    requires AllWellNamed(es, runOf)
    ensures Entry(Key(r), r) in Play(World(EMPTY, map[]), es).ix.entries <==> exists i: nat :: LastAdd(es, i, r)
  {
    if Entry(Key(r), r) in Play(World(EMPTY, map[]), es).ix.entries {
      var i := FiledLastAdd(es, runOf, r);
    }
    if i: nat :| LastAdd(es, i, r) {
      LastAddFiled(es, runOf, r, i);
    }
  }

  lemma DropKeepsLookup(entries: seq<Entry>, gone: string, key: string)
    requires DistinctKeys(entries) && key != gone && Position(entries, key) < |entries|
    ensures var (i, j) := (Position(entries, key), Position(Drop(entries, gone), key));
            j < |Drop(entries, gone)| && Drop(entries, gone)[j] == entries[i]
  {
    DropMembers(entries, gone);
    PositionOf(Drop(entries, gone), entries[Position(entries, key)]);
  }

  lemma PositionOf(entries: seq<Entry>, e: Entry)
    requires DistinctKeys(entries) && e in entries
    ensures var i := Position(entries, e.key); i < |entries| && entries[i] == e
  {
    var k :| 0 <= k < |entries| && entries[k] == e;
    PositionAt(entries, k);
  }

  lemma PositionAt(entries: seq<Entry>, k: nat)
    requires DistinctKeys(entries) && k < |entries|
    ensures Position(entries, entries[k].key) == k
  {
    var i := Position(entries, entries[k].key);
    assert i <= k;
  }

  /** A run id without an index entry has no live entry, so it is not found. */
  lemma UnindexedUnknown(w: World, runOf: string -> Option<string>, run: string, gone: string)
    requires Inv(w, runOf) && run !in w.ix.byRun && runOf(run) == None
    ensures Position(w.ix.entries, run) == |w.ix.entries|
    ensures Position(Drop(w.ix.entries, gone), run) == |Drop(w.ix.entries, gone)|
  {
    DropMembers(w.ix.entries, gone);
    forall e | e in w.ix.entries ensures e.key != run {
      assert e.key in Keys(w.ix.entries);
    }
    NotFiled(w.ix.entries, run);
    NotFiled(Drop(w.ix.entries, gone), run);
  }

  lemma NotFiled(entries: seq<Entry>, key: string)
    requires forall e | e in entries :: e.key != key
    ensures Position(entries, key) == |entries|
  {
    assert forall i | 0 <= i < |entries| :: entries[i] in entries;
  }

  /** Removing an attempt that the index no longer answers with changes the answer for no run id. */
  lemma SupersededRemovalIsInvisible(es: seq<Event>, runOf: string -> Option<string>, r: ActiveRun, run: string)
    requires AllWellNamed(es, runOf) && WellNamed(r, runOf) && runOf(run) == None
    requires var ix := Play(World(EMPTY, map[]), es).ix; !(r.run in ix.byRun && ix.byRun[r.run] == Key(r))
    ensures var ix := Play(World(EMPTY, map[]), es).ix;
            Answer(Remove(ix, r), run) == Answer(ix, run)
  {
    PlayKeepsInv(es, runOf);
    var w := Play(World(EMPTY, map[]), es);
    if run in w.ix.byRun {
      KeyNamesRun(r, runOf);
      GetIndexed(w, runOf, run);
      DropKeepsLookup(w.ix.entries, Key(r), w.ix.byRun[run]);
    } else {
      UnindexedUnknown(w, runOf, run, Key(r));
    }
  }

  // ── which remaining attempt is the newest ─────────────────────────────────

  /** For each key the number of events at its last add. */
  function Ages(es: seq<Event>): map<string, nat> {
    if es == [] then map[] else
      var (ages, e) := (Ages(es[..|es| - 1]), es[|es| - 1]);
      if e.Added? then ages[Key(e.r) := |es|] else ages
  }

  function AgeOf(ages: map<string, nat>, key: string): nat {
    if key in ages then ages[key] else 0
  }

  /** No attempt is added again while it is live. */
  predicate AddedOnce(es: seq<Event>) {
    es == [] || (AddedOnce(es[..|es| - 1])
                 && (es[|es| - 1].Added? ==>
                       var entries := Play(World(EMPTY, map[]), es[..|es| - 1]).ix.entries;
                       Position(entries, Key(es[|es| - 1].r)) == |entries|))
  }

  predicate InAgeOrder(entries: seq<Entry>, ages: map<string, nat>) {
    forall i, j | 0 <= i < j < |entries| :: AgeOf(ages, entries[i].key) < AgeOf(ages, entries[j].key)
  }

  lemma DropInAgeOrder(entries: seq<Entry>, key: string, ages: map<string, nat>)
    requires InAgeOrder(entries, ages)
    ensures InAgeOrder(Drop(entries, key), ages)
  {
    var (i, r) := (Position(entries, key), Drop(entries, key));
    if i < |entries| {
      assert forall j | 0 <= j < |r| :: r[j] == entries[if j < i then j else j + 1];
    }
  }

  lemma {:induction false} EntriesForInAgeOrder(entries: seq<Entry>, run: string, ages: map<string, nat>)
    requires InAgeOrder(entries, ages)
    ensures InAgeOrder(EntriesFor(entries, run), ages)
  {
    if entries != [] {
      EntriesForInAgeOrder(entries[1..], run, ages);
      var rest := EntriesFor(entries[1..], run);
      forall k | 0 <= k < |rest| ensures AgeOf(ages, entries[0].key) < AgeOf(ages, rest[k].key) {
        assert rest[k] in entries[1..];
      }
    }
  }

  lemma {:induction false} AgesSoFar(es: seq<Event>, key: string)
    ensures AgeOf(Ages(es), key) <= |es|
  {
    if es != [] {
      AgesSoFar(es[..|es| - 1], key);
    }
  }

  lemma AddInAgeOrder(es: seq<Event>, r: ActiveRun, entries: seq<Entry>)
    requires InAgeOrder(entries, Ages(es)) && Position(entries, Key(r)) == |entries|
    ensures InAgeOrder(Put(entries, Key(r), r), Ages(es + [Added(r)]))
  {
    assert (es + [Added(r)])[..|es|] == es;
    forall i | 0 <= i < |entries| ensures AgeOf(Ages(es), entries[i].key) <= |es| {
      AgesSoFar(es, entries[i].key);
    }
  }

  /** Then the dictionary lists live attempts in the order in which they were added. */
  lemma {:induction false} PlayInAgeOrder(es: seq<Event>)
    requires AddedOnce(es)
    ensures InAgeOrder(Play(World(EMPTY, map[]), es).ix.entries, Ages(es))
  {
    if es != [] {
      var (init, e) := (es[..|es| - 1], es[|es| - 1]);
      PlayInAgeOrder(init);
      var entries := Play(World(EMPTY, map[]), init).ix.entries;
      assert es == init + [e];
      match e {
        case Added(r) => AddInAgeOrder(init, r, entries);
        case Removed(r) => DropInAgeOrder(entries, Key(r), Ages(init));
      }
    }
  }

  /** Nobody in `rest` was added after this key. */
  predicate Newest(key: string, rest: seq<Entry>, ages: map<string, nat>) {
    forall e | e in rest :: AgeOf(ages, e.key) <= AgeOf(ages, key)
  }

  /** When the indexed attempt goes, the index moves to the first remaining entry of the run, if there is one. */
  lemma ReindexIsFirst(ix: Index, r: ActiveRun)
    requires r.run in ix.byRun && ix.byRun[r.run] == Key(r)
    ensures var (rest, ix') := (EntriesFor(Drop(ix.entries, Key(r)), r.run), Remove(ix, r));
            if rest == [] then r.run !in ix'.byRun else r.run in ix'.byRun && ix'.byRun[r.run] == rest[0].key
  {
  }

  /**
   In a run that adds no live attempt again, that is the attempt added FIRST among those left.
   It is also the newest one, which the class documents, exactly when only one is left.
   */
  lemma ReindexIsNewestIff(es: seq<Event>, r: ActiveRun)
    requires AddedOnce(es)
    requires var ix := Play(World(EMPTY, map[]), es).ix; r.run in ix.byRun && ix.byRun[r.run] == Key(r)
    ensures var ix := Play(World(EMPTY, map[]), es).ix;
            var (rest, ix') := (EntriesFor(Drop(ix.entries, Key(r)), r.run), Remove(ix, r));
            rest != [] ==>
              && r.run in ix'.byRun
              && (forall e | e in rest :: AgeOf(Ages(es), ix'.byRun[r.run]) <= AgeOf(Ages(es), e.key))
              && (Newest(ix'.byRun[r.run], rest, Ages(es)) <==> |rest| == 1)
  {
    var ix := Play(World(EMPTY, map[]), es).ix;
    var rest := EntriesFor(Drop(ix.entries, Key(r)), r.run);
    RestInAgeOrder(es, r);
    ReindexIsFirst(ix, r);
    if rest != [] {
      FirstIsNewestIff(rest, Ages(es));
    }
  }

  lemma RestInAgeOrder(es: seq<Event>, r: ActiveRun)
    requires AddedOnce(es)
    ensures InAgeOrder(EntriesFor(Drop(Play(World(EMPTY, map[]), es).ix.entries, Key(r)), r.run), Ages(es))
  {
    var entries := Play(World(EMPTY, map[]), es).ix.entries;
    PlayInAgeOrder(es);
    DropInAgeOrder(entries, Key(r), Ages(es));
    EntriesForInAgeOrder(Drop(entries, Key(r)), r.run, Ages(es));
  }

  lemma FirstIsNewestIff(rest: seq<Entry>, ages: map<string, nat>)
    requires InAgeOrder(rest, ages) && rest != []
    ensures forall e | e in rest :: AgeOf(ages, rest[0].key) <= AgeOf(ages, e.key)
    ensures Newest(rest[0].key, rest, ages) <==> |rest| == 1
  {
    if |rest| > 1 {
      assert rest[1] in rest && AgeOf(ages, rest[0].key) < AgeOf(ages, rest[1].key);
    }
  }

  lemma TwoEntries(r1: ActiveRun, r2: ActiveRun)
    requires Key(r1) != Key(r2)
    ensures Put(Put([], Key(r1), r1), Key(r2), r2) == [Entry(Key(r1), r1), Entry(Key(r2), r2)]
    ensures var two := [Entry(Key(r1), r1), Entry(Key(r2), r2)]; Put(two, Key(r1), r1) == two
  {
    assert Put([], Key(r1), r1) == [Entry(Key(r1), r1)];
  }

  lemma ThirdComesAndGoes(r1: ActiveRun, r2: ActiveRun, r3: ActiveRun)
    requires Key(r1) != Key(r2) && Key(r1) != Key(r3) && Key(r2) != Key(r3)
    ensures var two := [Entry(Key(r1), r1), Entry(Key(r2), r2)];
            && Put(two, Key(r3), r3) == two + [Entry(Key(r3), r3)]
            && Position(two + [Entry(Key(r3), r3)], Key(r3)) == 2
            && Drop(two + [Entry(Key(r3), r3)], Key(r3)) == two
  {
    var (e1, e2, e3) := (Entry(Key(r1), r1), Entry(Key(r2), r2), Entry(Key(r3), r3));
    assert [e1, e2][1..] == [e2] && [e2][1..] == [];
    assert Position([e1, e2], Key(r3)) == 2;
    assert [e1, e2] + [e3] == [e1, e2, e3] && [e1, e2, e3][1..] == [e2, e3] && [e2, e3][1..] == [e3];
    assert Position([e2, e3], Key(r3)) == 1;
  }

  /** Three attempts of one run start in order and the third ends: the first answers, not the second. */
  lemma FirstAnswersAfterThird(run: string, k1: string, k2: string, k3: string, byRun: map<string, string>)
    requires k1 != "" && k2 != "" && k3 != "" && k1 != k2 && k1 != k3 && k2 != k3
    ensures var (r1, r2, r3) := (ActiveRun(run, k1), ActiveRun(run, k2), ActiveRun(run, k3));
            var ix := Add(Index([Entry(k1, r1), Entry(k2, r2)], byRun), r3);
            Answer(ix, run) == Some(r3) && Answer(Remove(ix, r3), run) == Some(r1)
  {
    var (r1, r2, r3) := (ActiveRun(run, k1), ActiveRun(run, k2), ActiveRun(run, k3));
    ThirdComesAndGoes(r1, r2, r3);
    var two := [Entry(k1, r1), Entry(k2, r2)];
    assert EntriesFor(two, run)[0] == two[0];
    assert Position(two, k1) == 0;
  }

  /** Attempts a1, a2, a3 of one run start in order and a3 ends: the answer is a1, not a2. */
  lemma OldestAnswersAfterNewestEnds()
    ensures var ix := Add(Add(Add(EMPTY, ActiveRun("r", "a1")), ActiveRun("r", "a2")), ActiveRun("r", "a3"));
            Answer(ix, "r") == Some(ActiveRun("r", "a3"))
            && Answer(Remove(ix, ActiveRun("r", "a3")), "r") == Some(ActiveRun("r", "a1"))
  {
    assert "a1"[1] != "a2"[1] && "a2"[1] != "a3"[1] && "a1"[1] != "a3"[1];
    TwoEntries(ActiveRun("r", "a1"), ActiveRun("r", "a2"));
    FirstAnswersAfterThird("r", "a1", "a2", "a3", map["r" := "a2"]);
  }

  /** An attempt added again while live keeps its place: here the first entry is also the last one added. */
  lemma ReaddedAttemptAnswers(run: string, k1: string, k2: string, k3: string)
    requires k1 != "" && k2 != "" && k3 != "" && k1 != k2 && k1 != k3 && k2 != k3
    ensures var (r1, r2, r3) := (ActiveRun(run, k1), ActiveRun(run, k2), ActiveRun(run, k3));
            var ix := Add(Add(Add(Add(EMPTY, r1), r2), r1), r3);
            Answer(Remove(ix, r3), run) == Some(r1)
  {
    TwoEntries(ActiveRun(run, k1), ActiveRun(run, k2));
    FirstAnswersAfterThird(run, k1, k2, k3, map[run := k1]);
  }
}
