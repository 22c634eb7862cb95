/** The manager's worker pool: the locked sections that move placement, health and run bookkeeping. */
module WorkerPool {
  import opened Basics
  import opened Fairness
  import opened Placement
  import H = PoolHealth
  import R = PoolRuns

  // ── steps of the loops ────────────────────────────────────────────────────

  lemma BumpOne(c: Counts, seen: set<string>, url: string, choice: string)
    requires url !in seen
    ensures var c' := Bump(c, seen, choice);
            Bump(c, seen + {url}, choice) == c'[url := if url == choice then 0 else Count(c', url) + 1]
  {
  }

  /** The counters after the loop has passed these workers. */
  function Passed(c: Counts, urls: seq<string>, choice: string): Counts {
    if urls == [] then c else
      var (c', url) := (Passed(c, urls[..|urls| - 1], choice), urls[|urls| - 1]);
      c'[url := if url == choice then 0 else Count(c', url) + 1]
  }

  lemma PassedNone(c: Counts, choice: string)
    ensures Passed(c, [], choice) == Bump(c, SetOf([]), choice)
  {
    assert SetOf([]) == {};
  }

  lemma PassedOne(c: Counts, init: seq<string>, url: string, choice: string)
    requires url !in init && Passed(c, init, choice) == Bump(c, SetOf(init), choice)
    ensures Passed(c, init + [url], choice) == Bump(c, SetOf(init + [url]), choice)
  {
    assert (init + [url])[..|init|] == init;
    assert SetOf(init + [url]) == SetOf(init) + {url};
    BumpOne(c, SetOf(init), url, choice);
  }

  lemma DistinctInit(init: seq<string>, url: string)
    requires Distinct(init + [url])
    ensures Distinct(init) && url !in init
  {
    var urls := init + [url];
    assert forall i | 0 <= i < |init| :: urls[i] == init[i] && urls[i] != urls[|init|];
  }

  lemma {:induction false} PassedIsBump(c: Counts, urls: seq<string>, choice: string)
    requires Distinct(urls)
    ensures Passed(c, urls, choice) == Bump(c, SetOf(urls), choice)
  {
    if urls == [] {
      PassedNone(c, choice);
    } else {
      var (init, url) := (urls[..|urls| - 1], urls[|urls| - 1]);
      assert urls == init + [url];
      DistinctInit(init, url);
      PassedIsBump(c, init, choice);
      PassedOne(c, init, url, choice);
    }
  }

  predicate UniqueLists(r: R.Runs) {
    forall p | p in r.workers :: R.Unique(r.workers[p])
  }

  /** `list.remove`: the first occurrence goes. */
  function RemoveFirst(urls: seq<string>, url: string): seq<string> {
    if urls == [] then [] else
      if urls[0] == url then urls[1..] else [urls[0]] + RemoveFirst(urls[1..], url)
  }

  lemma {:induction false} WithoutAbsent(urls: seq<string>, url: string)
    requires url !in urls
    ensures R.Without(urls, url) == urls
  {
    if urls != [] {
      WithoutAbsent(urls[1..], url);
    }
  }

  lemma {:induction false} RemoveFirstIsWithout(urls: seq<string>, url: string)
    requires R.Unique(urls)
    ensures RemoveFirst(urls, url) == R.Without(urls, url)
  {
    if urls != [] {
      if urls[0] == url {
        WithoutAbsent(urls[1..], url);
      } else {
        RemoveFirstIsWithout(urls[1..], url);
      }
    }
  }

  /** What reaping one run does to the worker lists, with the run already out of the run maps. */
  function Unlisted(left: R.Runs, pipeline: string, url: string): map<string, seq<string>> {
    if !R.Live(left, pipeline) then left.workers - {pipeline}
    else if pipeline in left.workers
    then left.workers[pipeline := R.Without(left.workers[pipeline], url)] else left.workers
  }

  function Taken(r: R.Runs, run: string): R.Runs {
    R.Runs(r.assignments - {run}, r.pipelines - {run}, r.workers)
  }

  function ReapOne(r: R.Runs, run: string, url: string): R.Runs {
    var left := Taken(r, run);
    if run in r.pipelines then left.(workers := Unlisted(left, r.pipelines[run], url)) else left
  }

  lemma LiveAfter(r: R.Runs, done: set<string>, run: string, q: string)
    requires run in r.pipelines && run !in done && q != r.pipelines[run]
    ensures var more := done + {run};
            R.Live(R.Runs(r.assignments - done, r.pipelines - done, r.workers), q) <==>
            R.Live(R.Runs(r.assignments - more, r.pipelines - more, r.workers), q)
  {
    var (a, b) := (r.pipelines - done, r.pipelines - (done + {run}));
    if x :| x in a && a[x] == q {
      assert x in b && b[x] == q;
    }
    if x :| x in b && b[x] == q {
      assert x in a && a[x] == q;
    }
  }

  lemma PipelinesOfOneMore(r: R.Runs, done: set<string>, run: string)
    requires run in r.pipelines
    ensures R.PipelinesOf(r, done + {run}) == R.PipelinesOf(r, done) + {r.pipelines[run]}
  {
  }

  lemma WithoutTwice(urls: seq<string>, url: string)
    ensures R.Without(R.Without(urls, url), url) == R.Without(urls, url)
  {
    WithoutAbsent(R.Without(urls, url), url);
  }

  lemma ReapedElsewhere(r: R.Runs, done: set<string>, run: string, url: string, q: string)
    requires run in r.pipelines && run !in done && q != r.pipelines[run]
    ensures Get(R.Reaped(r, done + {run}, url).workers, q) == Get(R.Reaped(r, done, url).workers, q)
  {
    LiveAfter(r, done, run, q);
    PipelinesOfOneMore(r, done, run);
    assert q in R.PipelinesOf(r, done + {run}) <==> q in R.PipelinesOf(r, done);
    assert q in R.Reaped(r, done + {run}, url).workers <==> q in R.Reaped(r, done, url).workers;
  }

  lemma ReapedHere(r: R.Runs, done: set<string>, run: string, url: string)
    requires run in r.pipelines && run !in done
    ensures var (before, after) := (R.Reaped(r, done, url), R.Reaped(r, done + {run}, url));
            var p := r.pipelines[run];
            && (p in after.workers <==> p in before.workers && R.Live(Taken(before, run), p))
            && (p in after.workers ==> after.workers[p] == R.Without(before.workers[p], url))
  {
    var (before, after, p) := (R.Reaped(r, done, url), R.Reaped(r, done + {run}, url), r.pipelines[run]);
    DropOneMore(r.pipelines, done, run);
    PipelinesOfOneMore(r, done, run);
    assert before.pipelines[run] == p;
    if p in r.workers {
      WithoutTwice(r.workers[p], url);
    }
  }

  lemma ReapedWorkersOneMore(r: R.Runs, done: set<string>, run: string, url: string)
    requires run in r.pipelines && run !in done
    ensures R.Reaped(r, done + {run}, url).workers == ReapOne(R.Reaped(r, done, url), run, url).workers
  {
    var (before, after, p) := (R.Reaped(r, done, url), R.Reaped(r, done + {run}, url).workers, r.pipelines[run]);
    assert before.pipelines[run] == p;
    var one := Unlisted(Taken(before, run), p, url);
    ReapedHere(r, done, run, url);
    assert Get(after, p) == Get(one, p);
    forall q | q != p ensures Get(after, q) == Get(one, q) {
      ReapedElsewhere(r, done, run, url, q);
      assert Get(one, q) == Get(before.workers, q);
    }
    SameByKey(after, one);
  }

  lemma SameByKey(a: map<string, seq<string>>, b: map<string, seq<string>>)
    requires forall q :: Get(a, q) == Get(b, q)
    ensures a == b
  {
    assert forall q :: q in a ==> Get(a, q) == Some(a[q]) && q in b;
    assert forall q :: q in b ==> Get(b, q) == Some(b[q]) && q in a;
  }

  lemma ReapedOneMore(r: R.Runs, done: set<string>, run: string, url: string)
    requires run !in done
    ensures ReapOne(R.Reaped(r, done, url), run, url) == R.Reaped(r, done + {run}, url)
  {
    DropOneMore(r.pipelines, done, run);
    DropOneMore(r.assignments, done, run);
    if run in r.pipelines {
      ReapedWorkersOneMore(r, done, run, url);
    } else {
      assert r.pipelines - (done + {run}) == r.pipelines - done;
      assert R.PipelinesOf(r, done + {run}) == R.PipelinesOf(r, done);
    }
  }

  lemma ReapedNone(r: R.Runs, url: string)
    ensures R.Reaped(r, {}, url) == r
  {
    assert R.PipelinesOf(r, {}) == {};
    assert r.assignments - {} == r.assignments && r.pipelines - {} == r.pipelines;
    assert R.Reaped(r, {}, url).workers == r.workers;
  }

  lemma ReapOneUnique(r: R.Runs, run: string, url: string)
    requires UniqueLists(r)
    ensures UniqueLists(ReapOne(r, run, url))
  {
    forall p | p in r.workers ensures R.Unique(R.Without(r.workers[p], url)) {
      R.WithoutUnique(r.workers[p], url);
    }
  }

  // ── the class ─────────────────────────────────────────────────────────────

  class Pool {
    const limit: nat
    const threshold: nat
    var health: map<string, H.Health>
    var sessions: map<string, H.Session>
    var pending: map<string, string>
    var starvation: Counts
    var rr: nat
    var assignments: map<string, string>
    var pipelines: map<string, string>
    var workers: map<string, seq<string>>
    // Where the poll thread stands, and the session ids heard so far.
    ghost var poll: H.Poll
    ghost var observed: map<string, string>

    function Fair(): Placement.Fair
      reads this
    {
      Placement.Fair(starvation, rr)
    }

    function Book(): R.Runs
      reads this
    {
      R.Runs(assignments, pipelines, workers)
    }

    ghost function View(): H.Pool
      reads this
    {
      H.Pool(health, sessions, pending, poll, observed)
    }

    constructor (urls: set<string>, limit: nat, threshold: nat)
      ensures View() == H.InitialPool(urls) && Book() == R.EMPTY && Fair() == Placement.Fair(map[], 0)
      ensures this.limit == limit && this.threshold == threshold
    {
      this.limit, this.threshold := limit, threshold;
      health := map u | u in urls :: H.Health(true, 0);
      sessions, pending, starvation, rr := map[], map[], map[], 0;
      assignments, pipelines, workers := map[], map[], map[];
      poll, observed := H.Idle, map[];
    }

    // ── placement ───────────────────────────────────────────────────────────

    method StarvedTier(healthy: seq<string>) returns (tier: seq<string>)
      ensures tier == Tier(Fair(), healthy, threshold)
    {
      tier := [];
      for i := 0 to |healthy|
        invariant tier == Starved(Fair(), healthy[..i], threshold)
      {
        assert healthy[..i + 1][..i] == healthy[..i];
        if Count(starvation, healthy[i]) >= threshold {
          tier := tier + [healthy[i]];
        }
      }
      assert healthy[..|healthy|] == healthy;
      if tier == [] {
        tier := healthy;
      }
    }

    static method LeastScore(tier: seq<string>, load: Load) returns (least: real)
      requires tier != []
      ensures least == MinLoad(tier, load)
    {
      least := load(tier[0]);
      assert tier[..1] == [tier[0]];
      for i := 1 to |tier|
        invariant least == MinLoad(tier[..i], load)
      {
        assert tier[..i + 1][..i] == tier[..i];
        if load(tier[i]) < least {
          least := load(tier[i]);
        }
      }
      assert tier[..|tier|] == tier;
    }

    static method TiedAt(tier: seq<string>, load: Load, least: real) returns (tied: seq<string>)
      ensures tied == AtLoad(tier, load, least)
    {
      tied := [];
      for i := 0 to |tier|
        invariant tied == AtLoad(tier[..i], load, least)
      {
        assert tier[..i + 1][..i] == tier[..i];
        if load(tier[i]) == least {
          tied := tied + [tier[i]];
        }
      }
      assert tier[..|tier|] == tier;
    }

    method CountSkips(healthy: seq<string>, choice: string)
      requires Distinct(healthy)
      modifies this`starvation
      ensures starvation == Bump(old(starvation), SetOf(healthy), choice)
    {
      for i := 0 to |healthy|
        invariant starvation == Passed(old(starvation), healthy[..i], choice)
      {
        var url := healthy[i];
        assert healthy[..i + 1][..i] == healthy[..i];
        starvation := starvation[url := if url == choice then 0 else Count(starvation, url) + 1];
      }
      assert healthy[..|healthy|] == healthy;
      PassedIsBump(old(starvation), healthy, choice);
    }

    /** One single-slot placement; nothing moves when no worker is healthy. */
    method SelectOne(healthy: seq<string>, load: Load) returns (choice: Option<string>)
      requires Distinct(healthy)
      modifies this`starvation, this`rr
      ensures healthy == [] ==> choice == None && Fair() == old(Fair())
      ensures healthy != [] ==> choice == Some(Pick(old(Fair()), healthy, load, threshold))
                                && Fair() == Decide(old(Fair()), healthy, load, threshold)
    {
      if healthy == [] {
        return None;
      }
      var tier := StarvedTier(healthy);
      var least := LeastScore(tier, load);
      var tied := TiedAt(tier, load, least);
      tied := Sort(tied);
      assert tied == Tied(Fair(), healthy, load, threshold);
      var url := tied[rr % |tied|];
      rr := rr + 1;
      CountSkips(healthy, url);
      choice := Some(url);
    }

    // ── run bookkeeping ─────────────────────────────────────────────────────

    method RecordAssignment(run: string, pipeline: string, url: string)
      requires UniqueLists(Book())
      modifies this`assignments, this`pipelines, this`workers
      ensures Book() == R.Assign(old(Book()), run, pipeline, url) && UniqueLists(Book())
    {
      assignments := assignments[run := url];
      pipelines := pipelines[run := pipeline];
      if pipeline !in workers {
        workers := workers[pipeline := []];
      }
      if url !in workers[pipeline] {
        workers := workers[pipeline := workers[pipeline] + [url]];
      }
    }

    method OnRunComplete(run: string)
      requires UniqueLists(Book())
      modifies this`assignments, this`pipelines, this`workers
      ensures Book() == R.Complete(old(Book()), run) && UniqueLists(Book())
    {
      var pipeline := Get(pipelines, run);
      assignments, pipelines := assignments - {run}, pipelines - {run};
      if pipeline.Some? && pipeline.value !in pipelines.Values {
        assert !R.Live(Book(), pipeline.value);
        workers := workers - {pipeline.value};
      } else if pipeline.Some? {
        assert R.Live(Book(), pipeline.value);
      }
    }

    method ReapRun(run: string, url: string)
      requires UniqueLists(Book())
      modifies this`assignments, this`pipelines, this`workers
      ensures Book() == ReapOne(old(Book()), run, url) && UniqueLists(Book())
    {
      ReapOneUnique(Book(), run, url);
      var pipeline := Get(pipelines, run);
      assignments, pipelines := assignments - {run}, pipelines - {run};
      if pipeline.Some? {
        var p := pipeline.value;
        ghost var left := Book();
        if p in workers {
          RemoveFirstIsWithout(workers[p], url);
          workers := workers[p := RemoveFirst(workers[p], url)];
        }
        if p !in pipelines.Values {
          assert !R.Live(left, p);
          workers := workers - {p};
          assert workers == left.workers - {p};
        } else {
          assert R.Live(left, p);
        }
      }
    }

    method ReapAssignments(url: string)
      requires UniqueLists(Book())
      modifies this`assignments, this`pipelines, this`workers
      ensures Book() == R.Reap(old(Book()), url) && UniqueLists(Book())
    {
      ghost var was := Book();
      var left := R.RunsOn(Book(), url);
      ghost var done: set<string> := {};
      ReapedNone(was, url);
      while left != {}
        invariant done + left == R.RunsOn(was, url) && done !! left
        invariant Book() == R.Reaped(was, done, url) && UniqueLists(Book())
        decreases left
      {
        var run :| run in left;
        ReapedOneMore(was, done, run, url);
        ReapRun(run, url);
        left, done := left - {run}, done + {run};
      }
      assert done == R.RunsOn(was, url);
    }

    // ── health and sessions ─────────────────────────────────────────────────

    method NoteSession(url: string, probe: H.Probe) returns (refresh: Option<string>)
      modifies this`pending
      ensures pending == H.PendingAfter(old(View()), url, probe) && refresh == Get(pending, url)
    {
      var changed := probe.ok && probe.session != "" && url in sessions && probe.session != sessions[url].id;
      if changed || (probe.session != "" && url in pending) {
        pending := pending[url := probe.session];
      }
      refresh := Get(pending, url);
    }

    method NoteHealth(url: string, probe: H.Probe, refreshing: bool, initial: bool)
      requires url in health
      modifies this`health
      ensures health == old(health)[url := H.HealthAfter(old(health[url]), probe, refreshing, initial, limit)]
    {
      var (ok, failures) := (health[url].ok, health[url].failures);
      if probe.ok {
        ok, failures := !refreshing, 0;
      } else {
        failures := if initial then limit else failures + 1;
        if failures >= limit {
          ok := false;
        }
      }
      health := health[url := H.Health(ok, failures)];
    }

    method NoteProbe(url: string, probe: H.Probe, initial: bool) returns (refresh: Option<string>)
      requires url in health
      modifies this`health, this`pending, this`poll, this`observed
      ensures View() == H.ApplyProbe(old(View()), url, probe, initial, limit) && refresh == Get(pending, url)
    {
      ghost var prevOk := health[url].ok;
      refresh := NoteSession(url, probe);
      NoteHealth(url, probe, refresh.Some?, initial);
      poll := if probe.ok && (!prevOk || refresh.Some?) then H.Handshaking(url, refresh) else H.Idle;
      observed := if probe.ok && probe.session != "" then observed[url := probe.session] else observed;
    }

    /** The first locked section of a poll; a worker that just went down has its runs reaped. */
    method RecordProbe(url: string, probe: H.Probe, initial: bool) returns (refresh: Option<string>)
      requires url in health && UniqueLists(Book())
      modifies this
      ensures View() == H.ApplyProbe(old(View()), url, probe, initial, limit) && refresh == Get(pending, url)
      ensures Book() == if old(health[url].ok) && !health[url].ok then R.Reap(old(Book()), url) else old(Book())
      ensures UniqueLists(Book()) && Fair() == old(Fair())
    {
      var prevOk := health[url].ok;
      refresh := NoteProbe(url, probe, initial);
      if prevOk && !health[url].ok {
        ReapAssignments(url);
      }
    }

    method RegisterWorkerSession(url: string, session: H.Session)
      modifies this`sessions, this`observed
      ensures View() == H.Register(old(View()), url, session)
    {
      sessions := sessions[url := session];
      observed := observed[url := session.id];
    }

    /** The second locked section, after the handshake a pending refresh asked for. */
    method ConcludeRefresh(url: string, awaited: string, reached: bool)
      requires poll == H.Concluding(url, awaited, reached) && url in health
      modifies this`health, this`pending, this`poll
      ensures View() == H.Conclude(old(View()))
    {
      var refreshed := reached && url in sessions && sessions[url].id == awaited;
      health := health[url := health[url].(ok := refreshed)];
      if refreshed {
        pending := pending - {url};
      }
      poll := H.Idle;
    }
  }
}
