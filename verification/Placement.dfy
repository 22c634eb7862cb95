/**
 The anti-starvation rule by itself: which workers a decision may choose and how the skip
 counters move.  It leaves the tie-break open, so what is proved here holds for any tie-break.
 */
module Fairness {

  type Load = string -> real
  type Counts = map<string, nat>

  function Count(c: Counts, w: string): nat {
    if w in c then c[w] else 0
  }

  /** A least loaded worker of the starved tier, or of all when no worker is starved. */
  predicate Eligible(c: Counts, urls: set<string>, load: Load, threshold: nat, w: string) {
    && w in urls
    && ((exists u | u in urls :: Count(c, u) >= threshold) ==> Count(c, w) >= threshold)
    && (forall u | u in urls && (Count(c, w) >= threshold ==> Count(c, u) >= threshold) :: load(w) <= load(u))
  }

  function Bump(c: Counts, urls: set<string>, w: string): (c': Counts)
    ensures forall u | u in urls :: Count(c', u) == if u == w then 0 else Count(c, u) + 1
  {
    c + (map u | u in urls :: if u == w then 0 else Count(c, u) + 1)
  }

  /** Workers that are not candidates keep their counters. */
  lemma BumpKeepsOthers(c: Counts, urls: set<string>, w: string, u: string)
    requires u !in urls
    ensures Count(Bump(c, urls, w), u) == Count(c, u)
  {
  }

  datatype Decision = Decision(load: Load, choice: string)

  predicate RunFrom(c: Counts, urls: set<string>, run: seq<Decision>, threshold: nat)
    decreases |run|
  {
    run == [] || (Eligible(c, urls, run[0].load, threshold, run[0].choice)
                  && RunFrom(Bump(c, urls, run[0].choice), urls, run[1..], threshold))
  }

  predicate Skips(run: seq<Decision>, w: string) {
    forall i | 0 <= i < |run| :: run[i].choice != w
  }

  lemma SubsetSize(a: set<string>, b: set<string>)
    requires a <= b
    ensures |a| <= |b|
  {
    assert b == a + (b - a);
  }

  /**
   Once `w` is starved, each decision that passes it over takes a starved worker, and that one
   cannot be starved again before `threshold` further decisions; `gone` collects them.
   */
  lemma {:induction false} StarvedWaitsForOthers(c: Counts, urls: set<string>, run: seq<Decision>, threshold: nat,
                                                 w: string, gone: set<string>)
    requires w in urls && |urls| <= threshold + 1 && Count(c, w) >= threshold
    requires RunFrom(c, urls, run, threshold) && Skips(run, w)
    requires gone <= urls - {w} && forall u | u in gone :: Count(c, u) < |gone|
    ensures |gone| + |run| <= |urls| - 1
    decreases |run|
  {
    SubsetSize(gone, urls - {w});
    if run != [] {
      var p := run[0].choice;
      assert p !in gone && p != w;
      StarvedWaitsForOthers(Bump(c, urls, p), urls, run[1..], threshold, w, gone + {p});
    }
  }

  /**
   With n <= threshold + 1 healthy workers, from any counters and under any loads, no worker is
   passed over in more than threshold + n - 1 decisions in a row.
   */
  lemma {:induction false} SkipBound(c: Counts, urls: set<string>, run: seq<Decision>, threshold: nat, w: string)
    requires w in urls && |urls| <= threshold + 1
    requires RunFrom(c, urls, run, threshold) && Skips(run, w)
    ensures |run| <= (if Count(c, w) < threshold then threshold - Count(c, w) else 0) + |urls| - 1
    ensures |run| <= threshold + |urls| - 1
    decreases |run|
  {
    if Count(c, w) >= threshold {
      StarvedWaitsForOthers(c, urls, run, threshold, w, {});
    } else if run == [] {
      SubsetSize({w}, urls);
    } else {
      assert run[0].choice != w;
      SkipBound(Bump(c, urls, run[0].choice), urls, run[1..], threshold, w);
    }
  }

  // ── the condition on n is exact ───────────────────────────────────────────

  function Min(a: int, b: int): int { if a < b then a else b }

  predicate Distinct(order: seq<string>) {
    forall d, e | 0 <= d < e < |order| :: order[d] != order[e]
  }

  /** The other workers, longest waiting first, after `i` decisions that all passed `w` over. */
  predicate Queue(c: Counts, urls: set<string>, order: seq<string>, i: nat, w: string) {
    && w in urls && |order| == |urls| - 1 && Distinct(order)
    && (forall d | 0 <= d < |order| :: order[d] in urls && order[d] != w)
    && (forall u | u in urls && u != w :: u in order)
    && (forall d | 0 <= d < |order| :: Count(c, order[d]) >= Min(i, |order| - 1 - d))
    && (forall u | u in urls :: Count(c, u) <= i)
  }

  function MoveToEnd(order: seq<string>, k: nat): (r: seq<string>)
    requires k < |order|
    ensures |r| == |order|
    ensures forall d | 0 <= d < k :: r[d] == order[d]
    ensures forall d | k <= d < |order| - 1 :: r[d] == order[d + 1]
    ensures r[|order| - 1] == order[k]
    ensures forall u :: u in r <==> u in order
    ensures Distinct(order) ==> Distinct(r)
  {
    var r := order[..k] + order[k + 1..] + [order[k]];
    assert order == order[..k] + [order[k]] + order[k + 1..];
    r
  }

  lemma QueueAdvances(c: Counts, urls: set<string>, order: seq<string>, i: nat, w: string, k: nat)
    requires Queue(c, urls, order, i, w) && k < |order|
    ensures Queue(Bump(c, urls, order[k]), urls, MoveToEnd(order, k), i + 1, w)
  {
    var (c', r) := (Bump(c, urls, order[k]), MoveToEnd(order, k));
    forall d | 0 <= d < |r| ensures r[d] in urls && r[d] != w {
      assert r[d] in r;
    }
    forall d | 0 <= d < |r| ensures Count(c', r[d]) >= Min(i + 1, |r| - 1 - d) {
      var e := if d < k then d else if d < |r| - 1 then d + 1 else k;
      assert r[d] == order[e] && Count(c, order[e]) >= Min(i, |order| - 1 - e);
    }
    forall u | u in urls && u != w ensures u in r {
      assert u in order;
    }
  }

  function Heavy(w: string): Load {
    u => if u == w then 1.0 else 0.0
  }

  /** As long as the longest waiting other worker can be starved, the loaded worker is not eligible. */
  lemma HeavyNotEligible(c: Counts, urls: set<string>, order: seq<string>, i: nat, threshold: nat, w: string)
    requires Queue(c, urls, order, i, w) && |urls| >= threshold + 2
    ensures !Eligible(c, urls, Heavy(w), threshold, w)
  {
    var u := order[0];
    assert Count(c, u) >= Min(i, |order| - 1);
    assert Heavy(w)(u) < Heavy(w)(w);
  }

  lemma {:induction false} HeavyStarvesFrom(c: Counts, urls: set<string>, run: seq<Decision>, threshold: nat,
                                            w: string, order: seq<string>, i: nat)
    requires Queue(c, urls, order, i, w) && |urls| >= threshold + 2
    requires RunFrom(c, urls, run, threshold) && forall d | d in run :: d.load == Heavy(w)
    ensures Skips(run, w)
    decreases |run|
  {
    if run != [] {
      assert run[0] in run;
      HeavyNotEligible(c, urls, order, i, threshold, w);
      var p := run[0].choice;
      var k :| 0 <= k < |order| && order[k] == p;
      QueueAdvances(c, urls, order, i, w, k);
      HeavyStarvesFrom(Bump(c, urls, p), urls, run[1..], threshold, w, MoveToEnd(order, k), i + 1);
      forall j | 0 <= j < |run| ensures run[j].choice != w {
        assert j > 0 ==> run[j] == run[1..][j - 1];
      }
    }
  }

  lemma {:induction false} Enumerate(s: set<string>) returns (order: seq<string>)
    ensures |order| == |s| && Distinct(order) && forall u :: u in order <==> u in s
    decreases s
  {
    if s == {} {
      order := [];
    } else {
      var u :| u in s;
      var rest := Enumerate(s - {u});
      order := rest + [u];
    }
  }

  /**
   With n >= threshold + 2 workers the bound fails for good: under constant loads that make one
   worker heavier than the rest, no run of any length ever chooses it, whatever the tie-break.
   */
  lemma HeavyWorkerNeverChosen(urls: set<string>, run: seq<Decision>, threshold: nat, w: string)
    requires w in urls && |urls| >= threshold + 2
    requires RunFrom(map[], urls, run, threshold) && forall d | d in run :: d.load == Heavy(w)
    ensures Skips(run, w)
  {
    var order := Enumerate(urls - {w});
    forall d | 0 <= d < |order| ensures order[d] in urls && order[d] != w {
      assert order[d] in order;
    }
    HeavyStarvesFrom(map[], urls, run, threshold, w, order, 0);
  }
}

/**
 Single-slot placement: least loaded first, round robin among ties, with promotion of a worker
 that has been skipped `threshold` times in a row.  Loads are arbitrary at every decision.
 */
module Placement {
  import opened Basics
  import opened Text
  import opened Fairness

  datatype Fair = Fair(starvation: Counts, rr: nat)

  // ── ordering the tied workers ─────────────────────────────────────────────

  function Insert(w: string, sorted: seq<string>): (r: seq<string>)
    ensures multiset(r) == multiset(sorted) + multiset{w}
  {
    if sorted == [] || LessEq(w, sorted[0]) then [w] + sorted
    else
      assert sorted == [sorted[0]] + sorted[1..];
      [sorted[0]] + Insert(w, sorted[1..])
  }

  /** `sorted(urls)`. */
  function Sort(urls: seq<string>): (r: seq<string>)
    ensures multiset(r) == multiset(urls)
    ensures |r| == |urls|
  {
    if urls == [] then [] else
      assert urls == [urls[0]] + urls[1..];
      var r := Insert(urls[0], Sort(urls[1..]));
      assert |multiset(r)| == |multiset(urls)|;
      r
  }

  predicate Ascending(urls: seq<string>) {
    forall i, j | 0 <= i < j < |urls| :: LessEq(urls[i], urls[j])
  }

  lemma {:induction false} InsertAscending(w: string, sorted: seq<string>)
    requires Ascending(sorted)
    ensures Ascending(Insert(w, sorted))
  {
    var r := Insert(w, sorted);
    if sorted == [] {
    } else if LessEq(w, sorted[0]) {
      forall j | 0 <= j < |sorted| ensures LessEq(w, sorted[j]) {
        LessEqTransitive(w, sorted[0], sorted[j]);
      }
    } else {
      InsertAscending(w, sorted[1..]);
      LessTotal(w, sorted[0]);
      forall x | x in Insert(w, sorted[1..]) ensures LessEq(sorted[0], x) {
        assert x in multiset(sorted[1..]) + multiset{w};
      }
      assert r[1..] == Insert(w, sorted[1..]);
      assert forall j | 0 < j < |r| :: r[j] == r[1..][j - 1] && r[j] in Insert(w, sorted[1..]);
      assert r == [sorted[0]] + r[1..];
    }
  }

  /** `Sort` is a permutation by its contract, and ascending. */
  lemma {:induction false} SortAscending(urls: seq<string>)
    ensures Ascending(Sort(urls))
  {
    if urls != [] {
      SortAscending(urls[1..]);
      InsertAscending(urls[0], Sort(urls[1..]));
    }
  }

  // ── one decision ──────────────────────────────────────────────────────────

  function Starved(s: Fair, urls: seq<string>, threshold: nat): (r: seq<string>)
    ensures forall w :: w in r <==> w in urls && Count(s.starvation, w) >= threshold
  {
    if urls == [] then [] else
      var (init, last) := (urls[..|urls| - 1], urls[|urls| - 1]);
      assert urls == init + [last];
      Starved(s, init, threshold) + (if Count(s.starvation, last) >= threshold then [last] else [])
  }

  /** The starved tier when there is one, otherwise every healthy worker. */
  function Tier(s: Fair, urls: seq<string>, threshold: nat): (r: seq<string>)
    ensures urls != [] ==> r != []
  {
    if Starved(s, urls, threshold) != [] then Starved(s, urls, threshold) else urls
  }

  function MinLoad(urls: seq<string>, load: Load): (m: real)
    requires urls != []
    ensures exists w | w in urls :: load(w) == m
    ensures forall w | w in urls :: m <= load(w)
  {
    var (init, last) := (urls[..|urls| - 1], urls[|urls| - 1]);
    assert urls == init + [last];
    if init == [] then load(last) else
      var m := MinLoad(init, load);
      if load(last) < m then load(last) else m
  }

  function AtLoad(urls: seq<string>, load: Load, m: real): (r: seq<string>)
    ensures forall w :: w in r <==> w in urls && load(w) == m
  {
    if urls == [] then [] else
      var (init, last) := (urls[..|urls| - 1], urls[|urls| - 1]);
      assert urls == init + [last];
      AtLoad(init, load, m) + (if load(last) == m then [last] else [])
  }

  function Tied(s: Fair, urls: seq<string>, load: Load, threshold: nat): (r: seq<string>)
    requires urls != []
    ensures r != []
  {
    var tier := Tier(s, urls, threshold);
    var tied := AtLoad(tier, load, MinLoad(tier, load));
    assert tied != [] by {
      var w :| w in tier && load(w) == MinLoad(tier, load);
      assert w in tied;
    }
    Sort(tied)
  }

  function Pick(s: Fair, urls: seq<string>, load: Load, threshold: nat): (w: string)
    requires urls != []
  {
    var tied := Tied(s, urls, load, threshold);
    tied[s.rr % |tied|]
  }

  function Decide(s: Fair, urls: seq<string>, load: Load, threshold: nat): Fair
    requires urls != []
  {
    Fair(Bump(s.starvation, SetOf(urls), Pick(s, urls, load, threshold)), s.rr + 1)
  }

  lemma TiedMembers(s: Fair, urls: seq<string>, load: Load, threshold: nat, w: string)
    requires urls != [] && w in Tied(s, urls, load, threshold)
    ensures var tier := Tier(s, urls, threshold); w in tier && load(w) == MinLoad(tier, load)
  {
    var tier := Tier(s, urls, threshold);
    assert w in multiset(AtLoad(tier, load, MinLoad(tier, load)));
  }

  /** The deterministic choice is one the rule allows. */
  lemma PickIsEligible(s: Fair, urls: seq<string>, load: Load, threshold: nat)
    requires urls != []
    ensures Eligible(s.starvation, SetOf(urls), load, threshold, Pick(s, urls, load, threshold))
  {
    var w := Pick(s, urls, load, threshold);
    TiedMembers(s, urls, load, threshold, w);
    var (starved, tier) := (Starved(s, urls, threshold), Tier(s, urls, threshold));
    if u :| u in urls && Count(s.starvation, u) >= threshold {
      assert u in starved;
    }
    forall u | u in urls && (Count(s.starvation, w) >= threshold ==> Count(s.starvation, u) >= threshold)
      ensures load(w) <= load(u)
    {
      assert u in tier;
    }
  }

  /** The decisions the pool makes under a sequence of loads. */
  function Decisions(s: Fair, urls: seq<string>, loads: seq<Load>, threshold: nat): (run: seq<Decision>)
    requires urls != []
    ensures |run| == |loads|
    decreases |loads|
  {
    if loads == [] then [] else
      [Decision(loads[0], Pick(s, urls, loads[0], threshold))]
      + Decisions(Decide(s, urls, loads[0], threshold), urls, loads[1..], threshold)
  }

  lemma {:induction false} DecisionLoads(s: Fair, urls: seq<string>, loads: seq<Load>, threshold: nat)
    requires urls != []
    ensures forall d | d in Decisions(s, urls, loads, threshold) :: d.load in loads
    decreases |loads|
  {
    if loads != [] {
      DecisionLoads(Decide(s, urls, loads[0], threshold), urls, loads[1..], threshold);
    }
  }

  lemma {:induction false} DecisionsAreRun(s: Fair, urls: seq<string>, loads: seq<Load>, threshold: nat)
    requires urls != []
    ensures RunFrom(s.starvation, SetOf(urls), Decisions(s, urls, loads, threshold), threshold)
    decreases |loads|
  {
    if loads != [] {
      PickIsEligible(s, urls, loads[0], threshold);
      DecisionsAreRun(Decide(s, urls, loads[0], threshold), urls, loads[1..], threshold);
    }
  }

  lemma {:induction false} SetOfSize(urls: seq<string>)
    ensures |SetOf(urls)| <= |urls|
    ensures Distinct(urls) ==> |SetOf(urls)| == |urls|
  {
    if urls != [] {
      SetOfSize(urls[1..]);
      assert SetOf(urls) == SetOf(urls[1..]) + {urls[0]};
    }
  }

  /** Anti-starvation: `healthy` lists n distinct workers and n is at most the threshold plus one. */
  lemma NoWorkerStarves(s: Fair, healthy: seq<string>, loads: seq<Load>, threshold: nat, w: string)
    requires w in healthy && |healthy| <= threshold + 1
    requires Skips(Decisions(s, healthy, loads, threshold), w)
    ensures |loads| <= threshold + |healthy| - 1
  {
    SetOfSize(healthy);
    DecisionsAreRun(s, healthy, loads, threshold);
    SkipBound(s.starvation, SetOf(healthy), Decisions(s, healthy, loads, threshold), threshold, w);
  }

  // ── round robin ───────────────────────────────────────────────────────────

  predicate Level(load: Load, urls: seq<string>) {
    forall u, v | u in urls && v in urls :: load(u) == load(v)
  }

  lemma {:induction false} AllAtLoad(urls: seq<string>, load: Load, m: real)
    requires forall u | u in urls :: load(u) == m
    ensures AtLoad(urls, load, m) == urls
  {
    if urls != [] {
      var (init, last) := (urls[..|urls| - 1], urls[|urls| - 1]);
      assert urls == init + [last] && last in urls;
      assert forall u | u in init :: u in urls;
      AllAtLoad(init, load, m);
    }
  }

  /** The worker whose turn it is when the counter goes round and round the list. */
  function Turn(order: seq<string>, rr: nat): string
    requires order != []
    decreases rr
  {
    if rr < |order| then order[rr] else Turn(order, rr - |order|)
  }

  lemma DropOneRound(rr: int, n: int)
    requires 0 < n <= rr
    ensures rr % n == (rr - n) % n
  {
    assert rr == (rr / n) * n + rr % n && rr - n == ((rr - n) / n) * n + (rr - n) % n;
    MultipleOf(rr / n - (rr - n) / n - 1, n);
  }

  lemma MultipleOf(d: int, n: int)
    requires n >= 0
    ensures d >= 1 ==> d * n >= n
    ensures d <= -1 ==> d * n <= -n
  {
  }

  lemma {:induction false} TurnIsRemainder(order: seq<string>, rr: nat)
    requires order != []
    ensures Turn(order, rr) == order[rr % |order|]
    decreases rr
  {
    if rr >= |order| {
      TurnIsRemainder(order, rr - |order|);
      DropOneRound(rr, |order|);
    }
  }

  lemma NobodyStarved(s: Fair, urls: seq<string>, threshold: nat)
    requires forall u | u in urls :: Count(s.starvation, u) < threshold
    ensures Starved(s, urls, threshold) == []
  {
    var starved := Starved(s, urls, threshold);
    assert forall i | 0 <= i < |starved| :: starved[i] in starved;
  }

  /** With nobody starved and all loads equal, the choice goes by turn through the sorted workers. */
  lemma LevelPick(s: Fair, urls: seq<string>, load: Load, threshold: nat, order: seq<string>, rr: nat)
    requires order == Sort(urls) && s.rr == rr
    requires urls != [] && Level(load, urls) && forall u | u in urls :: Count(s.starvation, u) < threshold
    ensures order != [] && Pick(s, urls, load, threshold) == Turn(order, rr)
  {
    NobodyStarved(s, urls, threshold);
    var least := MinLoad(urls, load);
    var w :| w in urls && load(w) == least;
    AllAtLoad(urls, load, least);
    TurnIsRemainder(order, rr);
  }

  /** The states between successive decisions under the given loads. */
  predicate Successive(states: seq<Fair>, urls: seq<string>, loads: seq<Load>, threshold: nat) {
    && urls != [] && |states| == |loads| + 1
    && forall i, j | 0 <= i && j == i + 1 <= |loads| :: states[j] == Decide(states[i], urls, loads[i], threshold)
  }

  lemma DecideCounts(s: Fair, urls: seq<string>, load: Load, threshold: nat)
    requires urls != []
    ensures Decide(s, urls, load, threshold).rr == s.rr + 1
    ensures forall u | u in urls ::
              Count(Decide(s, urls, load, threshold).starvation, u) <= Count(s.starvation, u) + 1
  {
    assert forall u | u in urls :: u in SetOf(urls);
  }

  lemma {:induction false} CountsAt(states: seq<Fair>, urls: seq<string>, loads: seq<Load>, threshold: nat, k: nat)
    requires Successive(states, urls, loads, threshold) && k <= |loads|
    ensures states[k].rr == states[0].rr + k
    ensures forall u | u in urls :: Count(states[k].starvation, u) <= Count(states[0].starvation, u) + k
  {
    if k > 0 {
      CountsAt(states, urls, loads, threshold, k - 1);
      DecideCounts(states[k - 1], urls, loads[k - 1], threshold);
    }
  }

  /** The turn at which place `i` comes up, counting from `rr`. */
  lemma {:induction false} TurnOf(order: seq<string>, rr: nat, i: nat) returns (k: nat)
    requires i < |order|
    ensures k < |order| && Turn(order, rr + k) == order[i]
    decreases rr
  {
    if rr >= |order| {
      k := TurnOf(order, rr - |order|, i);
    } else if i >= rr {
      k := i - rr;
    } else {
      k := i - rr + |order|;
    }
  }

  lemma TurnByTurn(states: seq<Fair>, urls: seq<string>, loads: seq<Load>, threshold: nat, k: nat,
                   order: seq<string>)
    requires Successive(states, urls, loads, threshold) && k < |loads| && Level(loads[k], urls)
    requires forall u | u in urls :: Count(states[0].starvation, u) + k < threshold
    requires order == Sort(urls)
    ensures order != [] && Pick(states[k], urls, loads[k], threshold) == Turn(order, states[0].rr + k)
  {
    CountsAt(states, urls, loads, threshold, k);
    LevelPick(states[k], urls, loads[k], threshold, order, states[0].rr + k);
  }

  lemma PlaceOf(urls: seq<string>, w: string, order: seq<string>) returns (i: nat)
    requires w in urls && order == Sort(urls)
    ensures i < |order| == |urls| && order[i] == w
  {
    assert w in multiset(order);
    i :| i < |order| && order[i] == w;
  }

  /**
   Under equal loads, as long as nobody can become starved, |healthy| successive decisions take every
   healthy worker, by turn through the sorted urls, starting at the round-robin counter.
   */
  lemma RoundRobinTakesAll(states: seq<Fair>, healthy: seq<string>, loads: seq<Load>, threshold: nat, w: string,
                           order: seq<string>)
    returns (k: nat)
    requires Successive(states, healthy, loads, threshold) && |loads| == |healthy| && w in healthy
    requires forall i | 0 <= i < |loads| :: Level(loads[i], healthy)
    requires forall u | u in healthy :: Count(states[0].starvation, u) + |healthy| <= threshold
    requires order == Sort(healthy)
    ensures k < |healthy| && Pick(states[k], healthy, loads[k], threshold) == w
    ensures order != [] && w == Turn(order, states[0].rr + k)
  {
    var i := PlaceOf(healthy, w, order);
    k := TurnOf(order, states[0].rr, i);
    TurnByTurn(states, healthy, loads, threshold, k, order);
  }

  function Repeat(load: Load, m: nat): (loads: seq<Load>)
    ensures |loads| == m && forall i | 0 <= i < m :: loads[i] == load
  {
    if m == 0 then [] else [load] + Repeat(load, m - 1)
  }

  /** With one worker more, a fresh pool under constant loads passes the heavier worker over forever. */
  lemma HeavierWorkerStarves(healthy: seq<string>, threshold: nat, w: string, m: nat)
    requires Distinct(healthy) && w in healthy && |healthy| >= threshold + 2
    ensures Skips(Decisions(Fair(map[], 0), healthy, Repeat(Heavy(w), m), threshold), w)
  {
    var (s, loads) := (Fair(map[], 0), Repeat(Heavy(w), m));
    SetOfSize(healthy);
    DecisionsAreRun(s, healthy, loads, threshold);
    DecisionLoads(s, healthy, loads, threshold);
    HeavyWorkerNeverChosen(SetOf(healthy), Decisions(s, healthy, loads, threshold), threshold, w);
  }

  /** Threshold 2, four workers, constant loads 0, 0, 0, 1: the fourth worker is never chosen. */
  lemma FourthWorkerNeverChosen(m: nat)
    ensures Skips(Decisions(Fair(map[], 0), ["a", "b", "c", "d"], Repeat(Heavy("d"), m), 2), "d")
  {
    var four := ["a", "b", "c", "d"];
    assert four[0][0] != four[1][0] && four[1][0] != four[2][0] && four[0][0] != four[2][0];
    assert four[3][0] != four[0][0] && four[3][0] != four[1][0] && four[3][0] != four[2][0];
    HeavierWorkerStarves(four, 2, "d", m);
  }
}
