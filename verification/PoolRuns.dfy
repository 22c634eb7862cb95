/** The pool's bookkeeping of live runs: three maps that completion and reaping keep in step. */
module PoolRuns {

  /** Run to worker, run to pipeline, and pipeline to the workers it was dispatched to. */
  datatype Runs = Runs(assignments: map<string, string>, pipelines: map<string, string>,
                       workers: map<string, seq<string>>)

  const EMPTY := Runs(map[], map[], map[])

  // ── transactions ──────────────────────────────────────────────────────────

  /** What a successful dispatch and a stream adoption record. */
  function Assign(r: Runs, run: string, pipeline: string, url: string): Runs {
    var listed := if pipeline in r.workers then r.workers[pipeline] else [];
    Runs(r.assignments[run := url], r.pipelines[run := pipeline],
         r.workers[pipeline := if url in listed then listed else listed + [url]])
  }

  predicate Live(r: Runs, pipeline: string) {
    exists run | run in r.pipelines :: r.pipelines[run] == pipeline
  }

  function Complete(r: Runs, run: string): Runs {
    var left := Runs(r.assignments - {run}, r.pipelines - {run}, r.workers);
    if run in r.pipelines && !Live(left, r.pipelines[run])
    then left.(workers := r.workers - {r.pipelines[run]}) else left
  }

  function Without(urls: seq<string>, url: string): (rest: seq<string>)
    ensures forall u :: u in rest <==> u in urls && u != url
  {
    if urls == [] then [] else
      assert urls == [urls[0]] + urls[1..];
      (if urls[0] == url then [] else [urls[0]]) + Without(urls[1..], url)
  }

  /** Pipelines that the runs in `gone` belong to. */
  function PipelinesOf(r: Runs, gone: set<string>): set<string> {
    set run | run in gone && run in r.pipelines :: r.pipelines[run]
  }

  /** The runs of `gone`, all on `url`, dropped; `url` unlisted from their pipelines; dead pipelines dropped. */
  function Reaped(r: Runs, gone: set<string>, url: string): Runs {
    var left := Runs(r.assignments - gone, r.pipelines - gone, r.workers);
    var hit := PipelinesOf(r, gone);
    left.(workers := map p | p in r.workers && (p in hit ==> Live(left, p)) ::
            if p in hit then Without(r.workers[p], url) else r.workers[p])
  }

  function RunsOn(r: Runs, url: string): set<string> {
    set run | run in r.assignments && r.assignments[run] == url
  }

  function Reap(r: Runs, url: string): Runs {
    Reaped(r, RunsOn(r, url), url)
  }

  // ── what each transaction touches ─────────────────────────────────────────

  /** Every run but `run` keeps its worker and its pipeline, and no run is new. */
  ghost predicate OthersKept(r: Runs, r': Runs, run: string) {
    forall x | x != run ::
      && (x in r'.assignments <==> x in r.assignments) && (x in r'.pipelines <==> x in r.pipelines)
      && (x in r.assignments ==> r'.assignments[x] == r.assignments[x])
      && (x in r.pipelines ==> r'.pipelines[x] == r.pipelines[x])
  }

  /** A dispatch records the run's worker and pipeline and lists the worker once, behind those listed. */
  lemma AssignTouches(r: Runs, run: string, pipeline: string, url: string)
    ensures var r' := Assign(r, run, pipeline, url);
            && OthersKept(r, r', run)
            && run in r'.assignments && r'.assignments[run] == url
            && run in r'.pipelines && r'.pipelines[run] == pipeline
            && (forall p | p != pipeline :: (p in r'.workers <==> p in r.workers)
                                            && (p in r.workers ==> r'.workers[p] == r.workers[p]))
            && pipeline in r'.workers
            && (pipeline !in r.workers ==> r'.workers[pipeline] == [url])
            && (pipeline in r.workers && url !in r.workers[pipeline] ==>
                  r'.workers[pipeline] == r.workers[pipeline] + [url])
            && (pipeline in r.workers && url in r.workers[pipeline] ==>
                  r'.workers[pipeline] == r.workers[pipeline])
  {
  }

  lemma CompleteDropsDead(r: Runs, run: string)
    requires run in r.pipelines && r.pipelines[run] in r.workers
    ensures r.pipelines[run] in Complete(r, run).workers <==>
            exists other | other in r.pipelines && other != run :: r.pipelines[other] == r.pipelines[run]
  {
    var left := Runs(r.assignments - {run}, r.pipelines - {run}, r.workers);
    if other :| other in r.pipelines && other != run && r.pipelines[other] == r.pipelines[run] {
      assert left.pipelines[other] == r.pipelines[run];
    }
  }

  /** A completion forgets one run; a pipeline loses its worker list exactly if that was its last live run. */
  lemma CompleteTouches(r: Runs, run: string)
    ensures var r' := Complete(r, run);
            && OthersKept(r, r', run) && run !in r'.assignments && run !in r'.pipelines
            && (forall p :: p in r'.workers <==>
                  p in r.workers && (run in r.pipelines && r.pipelines[run] == p ==>
                    exists other | other in r.pipelines && other != run :: r.pipelines[other] == p))
            && (forall p | p in r'.workers :: r'.workers[p] == r.workers[p])
  {
    var r' := Complete(r, run);
    forall p | p in r.workers && run in r.pipelines && r.pipelines[run] == p
      ensures p in r'.workers <==> exists other | other in r.pipelines && other != run :: r.pipelines[other] == p
    {
      CompleteDropsDead(r, run);
    }
  }

  lemma {:induction false} WithoutAbsent(urls: seq<string>, url: string)
    requires url !in urls
    ensures Without(urls, url) == urls
  {
    if urls != [] {
      WithoutAbsent(urls[1..], url);
    }
  }

  /** Among distinct workers, taking one out leaves the others in their order. */
  lemma {:induction false} WithoutTakesOut(a: seq<string>, url: string, b: seq<string>)
    requires url !in a && url !in b
    ensures Without(a + [url] + b, url) == a + b
  {
    var urls := a + [url] + b;
    if a == [] {
      assert urls[1..] == b;
      WithoutAbsent(b, url);
    } else {
      assert urls[0] == a[0] && urls[1..] == a[1..] + [url] + b;
      WithoutTakesOut(a[1..], url, b);
      assert a + b == [a[0]] + (a[1..] + b);
    }
  }

  /** Reaping forgets the worker's runs; only their pipelines unlist it, and those without a live run go. */
  lemma ReapTouches(r: Runs, url: string)
    ensures var r' := Reap(r, url);
            && (forall x :: x in r'.assignments <==> x in r.assignments && r.assignments[x] != url)
            && (forall x :: x in r'.pipelines <==>
                  x in r.pipelines && !(x in r.assignments && r.assignments[x] == url))
            && (forall x | x in r'.assignments :: r'.assignments[x] == r.assignments[x])
            && (forall x | x in r'.pipelines :: r'.pipelines[x] == r.pipelines[x])
  {
  }

  predicate Elsewhere(r: Runs, url: string, p: string) {
    exists x | x in r.pipelines && x in r.assignments :: r.assignments[x] != url && r.pipelines[x] == p
  }

  predicate OnWorker(r: Runs, url: string, p: string) {
    exists x | x in r.pipelines && x in r.assignments :: r.assignments[x] == url && r.pipelines[x] == p
  }

  lemma ReapLeavesElsewhere(r: Runs, url: string, p: string)
    requires Inv(r)
    ensures Live(Runs(r.assignments - RunsOn(r, url), r.pipelines - RunsOn(r, url), r.workers), p) <==>
            Elsewhere(r, url, p)
  {
    var gone := RunsOn(r, url);
    var left := Runs(r.assignments - gone, r.pipelines - gone, r.workers);
    if Elsewhere(r, url, p) {
      var x :| x in r.pipelines && x in r.assignments && r.assignments[x] != url && r.pipelines[x] == p;
      assert x in left.pipelines && left.pipelines[x] == p;
    }
    if Live(left, p) {
      var x :| x in left.pipelines && left.pipelines[x] == p;
      assert x in r.assignments && r.assignments[x] != url && r.pipelines[x] == p;
    }
  }

  lemma ReapHitsOnWorker(r: Runs, url: string, p: string)
    ensures p in PipelinesOf(r, RunsOn(r, url)) <==> OnWorker(r, url, p)
  {
  }

  /** A pipeline stays listed if it has a run elsewhere, and then loses the worker if it had a run there. */
  lemma ReapTouchesList(r: Runs, url: string, p: string)
    requires Inv(r) && p in r.workers
    ensures p in Reap(r, url).workers <==> Elsewhere(r, url, p)
    ensures p in Reap(r, url).workers ==>
              Reap(r, url).workers[p] == if OnWorker(r, url, p) then Without(r.workers[p], url) else r.workers[p]
  {
    var gone := RunsOn(r, url);
    var left := Runs(r.assignments - gone, r.pipelines - gone, r.workers);
    ReapLeavesElsewhere(r, url, p);
    ReapHitsOnWorker(r, url, p);
    var live :| live in r.pipelines && r.pipelines[live] == p;
    assert OnWorker(r, url, p) || Elsewhere(r, url, p) by { assert live in r.assignments; }
  }

  // ── invariant ─────────────────────────────────────────────────────────────

  predicate Unique(urls: seq<string>) {
    forall i, j | 0 <= i < j < |urls| :: urls[i] != urls[j]
  }

  predicate Inv(r: Runs) {
    && r.assignments.Keys == r.pipelines.Keys
    && (forall p | p in r.workers :: Live(r, p) && Unique(r.workers[p]))
    && (forall run | run in r.pipelines ::
          r.pipelines[run] in r.workers && r.assignments[run] in r.workers[r.pipelines[run]])
  }

  lemma {:induction false} WithoutUnique(urls: seq<string>, url: string)
    requires Unique(urls)
    ensures Unique(Without(urls, url))
  {
    if urls != [] {
      WithoutUnique(urls[1..], url);
      var rest := Without(urls[1..], url);
      forall k | 0 <= k < |rest| ensures rest[k] != urls[0] {
        assert rest[k] in urls[1..];
      }
    }
  }

  /** The run keeps its pipeline, or its old pipeline has another live run. */
  predicate LeavesNoOrphan(r: Runs, run: string, pipeline: string) {
    run in r.pipelines && r.pipelines[run] != pipeline ==>
      exists other | other in r.pipelines && other != run :: r.pipelines[other] == r.pipelines[run]
  }

  lemma AssignedStaysLive(r: Runs, run: string, pipeline: string, url: string, p: string)
    requires Live(r, p) && LeavesNoOrphan(r, run, pipeline)
    ensures Live(Assign(r, run, pipeline, url), p)
  {
    var r' := Assign(r, run, pipeline, url);
    var live :| live in r.pipelines && r.pipelines[live] == p;
    if live != run {
      assert r'.pipelines[live] == p;
    } else if p == pipeline {
      assert r'.pipelines[run] == p;
    } else {
      var other :| other in r.pipelines && other != run && r.pipelines[other] == p;
      assert r'.pipelines[other] == p;
    }
  }

  lemma AssignedRunsListed(r: Runs, run: string, pipeline: string, url: string)
    requires Inv(r)
    ensures var r' := Assign(r, run, pipeline, url);
            && r'.assignments.Keys == r'.pipelines.Keys
            && (forall p | p in r'.workers :: Unique(r'.workers[p]))
            && (forall x | x in r'.pipelines ::
                  r'.pipelines[x] in r'.workers && r'.assignments[x] in r'.workers[r'.pipelines[x]])
  {
  }

  /**
   Recording a dispatch keeps the invariant exactly when it does not move the last live run of a
   pipeline to another pipeline; otherwise the old pipeline's worker list is left behind.
   */
  lemma AssignKeepsInvIff(r: Runs, run: string, pipeline: string, url: string)
    requires Inv(r)
    ensures Inv(Assign(r, run, pipeline, url)) <==> LeavesNoOrphan(r, run, pipeline)
  {
    var r' := Assign(r, run, pipeline, url);
    if LeavesNoOrphan(r, run, pipeline) {
      AssignedRunsListed(r, run, pipeline, url);
      assert Live(r', pipeline) by { assert r'.pipelines[run] == pipeline; }
      forall p | p in r'.workers ensures Live(r', p) {
        if p in r.workers {
          AssignedStaysLive(r, run, pipeline, url, p);
        }
      }
    } else {
      var orphan := r.pipelines[run];
      assert orphan in r'.workers && !Live(r', orphan);
    }
  }

  /** A run dispatched for pipeline p and again for pipeline q leaves p's worker list behind. */
  lemma MovedRunLeavesOrphan(run: string, p: string, q: string, url: string)
    requires p != q
    ensures var r := Assign(Assign(EMPTY, run, p, url), run, q, url);
            p in r.workers && !Live(r, p) && !Inv(r)
  {
    var r := Assign(Assign(EMPTY, run, p, url), run, q, url);
    assert r.pipelines == map[run := q];
  }

  lemma CompleteKeepsInv(r: Runs, run: string)
    requires Inv(r)
    ensures Inv(Complete(r, run)) && run !in Complete(r, run).assignments
    ensures forall x | x in r.assignments && x != run ::
              && x in Complete(r, run).assignments && Complete(r, run).assignments[x] == r.assignments[x]
              && Complete(r, run).pipelines[x] == r.pipelines[x]
              && Complete(r, run).workers[r.pipelines[x]] == r.workers[r.pipelines[x]]
  {
    var r' := Complete(r, run);
    forall p | p in r'.workers ensures Live(r', p) {
      var live :| live in r.pipelines && r.pipelines[live] == p;
      if live != run {
        assert r'.pipelines[live] == p;
      }
    }
    forall other | other in r'.pipelines ensures r'.pipelines[other] in r'.workers {
      assert r.pipelines[other] == r'.pipelines[other];
    }
  }

  lemma ReapedListsLive(r: Runs, url: string, p: string)
    requires Inv(r) && p in Reap(r, url).workers
    ensures Live(Reap(r, url), p) && Unique(Reap(r, url).workers[p])
  {
    var (r', gone) := (Reap(r, url), RunsOn(r, url));
    WithoutUnique(r.workers[p], url);
    var live :| live in r.pipelines && r.pipelines[live] == p;
    if p !in PipelinesOf(r, gone) {
      assert r'.pipelines[live] == p;
    } else {
      var left := Runs(r.assignments - gone, r.pipelines - gone, r.workers);
      assert Live(left, p) && r'.pipelines == left.pipelines;
    }
  }

  lemma ReapedRunsListed(r: Runs, url: string, run: string)
    requires Inv(r) && run in Reap(r, url).pipelines
    ensures var r' := Reap(r, url);
            r'.pipelines[run] in r'.workers && r'.assignments[run] in r'.workers[r'.pipelines[run]]
  {
    var (r', gone) := (Reap(r, url), RunsOn(r, url));
    var left := Runs(r.assignments - gone, r.pipelines - gone, r.workers);
    assert r.pipelines[run] == r'.pipelines[run] && left.pipelines[run] == r.pipelines[run];
    assert Live(left, r.pipelines[run]);
  }

  /** Reaping keeps the invariant, leaves no run on the down worker, and touches no other run. */
  lemma ReapKeepsInv(r: Runs, url: string)
    requires Inv(r)
    ensures Inv(Reap(r, url)) && RunsOn(Reap(r, url), url) == {}
    ensures forall run | run in r.assignments && r.assignments[run] != url ::
              && run in Reap(r, url).assignments && Reap(r, url).assignments[run] == r.assignments[run]
              && Reap(r, url).pipelines[run] == r.pipelines[run]
  {
    forall p | p in Reap(r, url).workers ensures Live(Reap(r, url), p) && Unique(Reap(r, url).workers[p]) {
      ReapedListsLive(r, url, p);
    }
    forall run | run in Reap(r, url).pipelines
      ensures var r' := Reap(r, url);
              r'.pipelines[run] in r'.workers && r'.assignments[run] in r'.workers[r'.pipelines[run]]
    {
      ReapedRunsListed(r, url, run);
    }
  }

  // ── runs of the pool ──────────────────────────────────────────────────────

  datatype Event = Dispatched(run: string, url: string) | Finished(run: string) | Down(url: string)

  function Step(r: Runs, e: Event, pipelineOf: string -> string): Runs {
    match e
    case Dispatched(run, url) => Assign(r, run, pipelineOf(run), url)
    case Finished(run) => Complete(r, run)
    case Down(url) => Reap(r, url)
  }

  function Play(r: Runs, es: seq<Event>, pipelineOf: string -> string): Runs {
    if es == [] then r else Step(Play(r, es[..|es| - 1], pipelineOf), es[|es| - 1], pipelineOf)
  }

  predicate Owned(r: Runs, pipelineOf: string -> string) {
    forall run | run in r.pipelines :: r.pipelines[run] == pipelineOf(run)
  }

  lemma {:induction false} PlayKeepsInv(es: seq<Event>, pipelineOf: string -> string)
    ensures Inv(Play(EMPTY, es, pipelineOf)) && Owned(Play(EMPTY, es, pipelineOf), pipelineOf)
  {
    if es != [] {
      PlayKeepsInv(es[..|es| - 1], pipelineOf);
      var (r, e) := (Play(EMPTY, es[..|es| - 1], pipelineOf), es[|es| - 1]);
      match e {
        case Dispatched(run, url) => AssignKeepsInvIff(r, run, pipelineOf(run), url);
        case Finished(run) => CompleteKeepsInv(r, run);
        case Down(url) => ReapKeepsInv(r, url);
      }
    }
  }

  /** The event settles where the run is: it dispatches it, finishes it, or takes the given worker down. */
  predicate Settles(e: Event, run: string, url: string) {
    e == Finished(run) || e == Down(url) || (e.Dispatched? && e.run == run)
  }

  /** Event `i` dispatched the run, and nothing after it dispatched or finished it or took its worker down. */
  predicate LastDispatch(es: seq<Event>, i: nat, run: string) {
    && i < |es| && es[i].Dispatched? && es[i].run == run
    && forall j | i < j < |es| :: !Settles(es[j], run, es[i].url)
  }

  lemma LastDispatchStep(es: seq<Event>, e: Event, i: nat, run: string)
    ensures i < |es| ==>
              (LastDispatch(es + [e], i, run) <==> LastDispatch(es, i, run) && !Settles(e, run, es[i].url))
    ensures i >= |es| ==> (LastDispatch(es + [e], i, run) <==> i == |es| && e.Dispatched? && e.run == run)
  {
    var es' := es + [e];
    if i < |es| && LastDispatch(es', i, run) {
      assert es'[|es|] == e;
      assert forall j | i < j < |es| :: es'[j] == es[j];
    }
  }

  /** Where one event leaves a run. */
  lemma StepPlaces(r: Runs, e: Event, pipelineOf: string -> string, run: string)
    ensures var r' := Step(r, e, pipelineOf);
            if e.Dispatched? && e.run == run then run in r'.assignments && r'.assignments[run] == e.url
            else && (run in r'.assignments <==> run in r.assignments && !Settles(e, run, r.assignments[run]))
                 && (run in r'.assignments ==> r'.assignments[run] == r.assignments[run])
  {
    match e {
      case Dispatched(x, url) => AssignTouches(r, x, pipelineOf(x), url);
      case Finished(x) => CompleteTouches(r, x);
      case Down(url) => ReapTouches(r, url);
    }
  }

  lemma {:induction false} AssignedToLast(es: seq<Event>, pipelineOf: string -> string, run: string, i: nat)
    requires LastDispatch(es, i, run)
    ensures var r := Play(EMPTY, es, pipelineOf); run in r.assignments && r.assignments[run] == es[i].url
    decreases |es|
  {
    var (init, e) := (es[..|es| - 1], es[|es| - 1]);
    assert es == init + [e];
    LastDispatchStep(init, e, i, run);
    StepPlaces(Play(EMPTY, init, pipelineOf), e, pipelineOf, run);
    if i < |init| {
      AssignedToLast(init, pipelineOf, run, i);
    }
  }

  lemma {:induction false} LastDispatchOf(es: seq<Event>, pipelineOf: string -> string, run: string) returns (i: nat)
    requires run in Play(EMPTY, es, pipelineOf).assignments
    ensures LastDispatch(es, i, run)
  {
    var (init, e) := (es[..|es| - 1], es[|es| - 1]);
    assert es == init + [e];
    StepPlaces(Play(EMPTY, init, pipelineOf), e, pipelineOf, run);
    if e.Dispatched? && e.run == run {
      i := |init|;
    } else {
      i := LastDispatchOf(init, pipelineOf, run);
      AssignedToLast(init, pipelineOf, run, i);
    }
    LastDispatchStep(init, e, i, run);
  }

  /**
   A run is assigned exactly when it was dispatched and since its last dispatch has neither
   completed nor lost the worker of that dispatch, and it is assigned to that worker.
   */
  lemma AssignedIff(es: seq<Event>, pipelineOf: string -> string, run: string)
    ensures run in Play(EMPTY, es, pipelineOf).assignments <==> exists i: nat :: LastDispatch(es, i, run)
    ensures forall i: nat | LastDispatch(es, i, run) ::
              run in Play(EMPTY, es, pipelineOf).assignments
              && Play(EMPTY, es, pipelineOf).assignments[run] == es[i].url
  {
    forall i: nat | LastDispatch(es, i, run)
      ensures var r := Play(EMPTY, es, pipelineOf); run in r.assignments && r.assignments[run] == es[i].url
    {
      AssignedToLast(es, pipelineOf, run, i);
    }
    if run in Play(EMPTY, es, pipelineOf).assignments {
      var i := LastDispatchOf(es, pipelineOf, run);
    }
  }

  lemma {:induction false} ValuesFewer(m: map<string, string>, values: set<string>)
    requires forall v | v in values :: exists k | k in m :: m[k] == v
    ensures |values| <= |m|
    decreases |m|
  {
    if values != {} {
      var v :| v in values;
      var k :| k in m && m[k] == v;
      var rest := map x | x in m && m[x] != v :: m[x];
      assert rest.Keys < m.Keys by { assert k in m.Keys && k !in rest.Keys; }
      Smaller(rest.Keys, m.Keys);
      forall w | w in values - {v} ensures exists x | x in rest :: rest[x] == w {
        var x :| x in m && m[x] == w;
        assert rest[x] == w;
      }
      ValuesFewer(rest, values - {v});
    }
  }

  lemma Smaller(a: set<string>, b: set<string>)
    requires a < b
    ensures |a| < |b|
  {
    assert b == a + (b - a);
    assert |b - a| > 0;
  }

  /**
   If a run id always belongs to one pipeline, then in every reachable state the two run maps
   have the same keys, the pipeline map lists exactly the pipelines with a live run and is never
   larger than the live runs, and each run's worker is listed for its pipeline.
   */
  lemma BookkeepingInStep(es: seq<Event>, pipelineOf: string -> string)
    ensures var r := Play(EMPTY, es, pipelineOf);
            && r.assignments.Keys == r.pipelines.Keys
            && (forall p :: p in r.workers <==> Live(r, p))
            && |r.workers| <= |r.assignments|
            && (forall run | run in r.assignments :: r.assignments[run] in r.workers[r.pipelines[run]])
  {
    PlayKeepsInv(es, pipelineOf);
    var r := Play(EMPTY, es, pipelineOf);
    forall v | v in r.workers.Keys ensures exists k | k in r.pipelines :: r.pipelines[k] == v {
      assert Live(r, v);
    }
    ValuesFewer(r.pipelines, r.workers.Keys);
    assert |r.assignments| == |r.assignments.Keys| && |r.pipelines| == |r.pipelines.Keys|;
  }
}
