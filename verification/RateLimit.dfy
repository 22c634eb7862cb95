/**
 The per-IP sliding-window limiter.  The implementation keeps a pruned deque per IP and evicts
 idle slots; the reference is the full log of admitted requests.
 */
module RateLimit {
  import opened Basics

  const EVICTION_FLOOR := 500

  datatype Config = Config(limit: int, window: real)

  function EvictAfter(cfg: Config): real {
    if cfg.window * 2.0 < 60.0 then 60.0 else cfg.window * 2.0
  }

  /** The middleware's dictionaries; a lock is represented by its identity. */
  datatype Slots = Slots(windows: map<string, seq<real>>, locks: map<string, nat>, lastSeen: map<string, real>,
                         inflight: map<string, nat>, nextLock: nat)

  function WindowOf(s: Slots, ip: string): seq<real> {
    if ip in s.windows then s.windows[ip] else []
  }

  function Inflight(s: Slots, ip: string): nat {
    if ip in s.inflight then s.inflight[ip] else 0
  }

  /** The expiry loop: drop leading timestamps before the cutoff. */
  function Expire(w: seq<real>, cutoff: real): seq<real> {
    if w != [] && w[0] < cutoff then Expire(w[1..], cutoff) else w
  }

  function Enter(s: Slots, ip: string): Slots {
    s.(locks := if ip in s.locks then s.locks else s.locks[ip := s.nextLock],
       nextLock := if ip in s.locks then s.nextLock else s.nextLock + 1,
       inflight := s.inflight[ip := Inflight(s, ip) + 1])
  }

  predicate Admits(s: Slots, ip: string, now: real, cfg: Config) {
    |Expire(WindowOf(s, ip), now - cfg.window)| < cfg.limit
  }

  /** The section under the IP's lock. */
  function Decide(s: Slots, ip: string, now: real, cfg: Config): Slots {
    var w := Expire(WindowOf(s, ip), now - cfg.window);
    if Admits(s, ip, now, cfg) then
      s.(windows := s.windows[ip := w + [now]], lastSeen := s.lastSeen[ip := now])
    else s.(windows := s.windows[ip := w])
  }

  function Stale(s: Slots, now: real, cfg: Config): set<string> {
    set ip | ip in s.locks && Inflight(s, ip) == 0
             && (if ip in s.lastSeen then s.lastSeen[ip] else 0.0) < now - EvictAfter(cfg)
  }

  function Evict(s: Slots, now: real, cfg: Config): Slots {
    if |s.windows| <= EVICTION_FLOOR then s else
      var gone := Stale(s, now, cfg);
      s.(locks := s.locks - gone, windows := s.windows - gone, lastSeen := s.lastSeen - gone)
  }

  function CountedOut(s: Slots, ip: string): Slots {
    var remaining := Inflight(s, ip) - 1;
    s.(inflight := if remaining > 0 then s.inflight[ip := remaining] else s.inflight - {ip})
  }

  /** The `finally` block. */
  function Leave(s: Slots, ip: string, now: real, cfg: Config): Slots {
    Evict(CountedOut(s, ip), now, cfg)
  }

  // ── the class ─────────────────────────────────────────────────────────────

  class Limiter {
    const cfg: Config
    var windows: map<string, seq<real>>
    var locks: map<string, nat>
    var lastSeen: map<string, real>
    var inflight: map<string, nat>
    var nextLock: nat

    function View(): Slots
      reads this
    {
      Slots(windows, locks, lastSeen, inflight, nextLock)
    }

    constructor (cfg: Config)
      ensures View() == Slots(map[], map[], map[], map[], 0) && this.cfg == cfg
    {
      this.cfg := cfg;
      windows, locks, lastSeen, inflight, nextLock := map[], map[], map[], map[], 0;
    }

    method EnterSlot(ip: string)
      modifies this
      ensures View() == Enter(old(View()), ip)
    {
      if ip !in locks {
        locks := locks[ip := nextLock];
        nextLock := nextLock + 1;
      }
      inflight := inflight[ip := Inflight(View(), ip) + 1];
    }

    method DecideSlot(ip: string, now: real) returns (admitted: bool)
      modifies this`windows, this`lastSeen
      ensures View() == Decide(old(View()), ip, now, cfg)
      ensures admitted == Admits(old(View()), ip, now, cfg)
    {
      var window := if ip in windows then windows[ip] else [];
      var cutoff := now - cfg.window;
      while window != [] && window[0] < cutoff
        invariant Expire(window, cutoff) == Expire(WindowOf(old(View()), ip), cutoff)
        decreases |window|
      {
        window := window[1..];
      }
      admitted := |window| < cfg.limit;
      if admitted {
        window := window + [now];
        lastSeen := lastSeen[ip := now];
      }
      windows := windows[ip := window];
    }

    method LeaveSlot(ip: string, now: real)
      modifies this
      ensures View() == Leave(old(View()), ip, now, cfg)
    {
      var remaining := Inflight(View(), ip) - 1;
      if remaining > 0 {
        inflight := inflight[ip := remaining];
      } else {
        inflight := inflight - {ip};
      }
      EvictIfLarge(now);
    }

    method EvictIfLarge(now: real)
      modifies this`windows, this`locks, this`lastSeen
      ensures View() == Evict(old(View()), now, cfg)
    {
      if |windows| > EVICTION_FLOOR {
        var stale := Stale(View(), now, cfg);
        DropSlots(stale);
      }
    }

    method DropSlots(stale: set<string>)
      modifies this`windows, this`locks, this`lastSeen
      ensures locks == old(locks) - stale && windows == old(windows) - stale && lastSeen == old(lastSeen) - stale
    {
      var left, gone: set<string> := stale, {};
      while left != {}
        invariant gone + left == stale
        invariant locks == old(locks) - gone && windows == old(windows) - gone && lastSeen == old(lastSeen) - gone
        decreases left
      {
        var ip :| ip in left;
        DropOneMore(old(locks), gone, ip);
        DropOneMore(old(windows), gone, ip);
        DropOneMore(old(lastSeen), gone, ip);
        left, gone := left - {ip}, gone + {ip};
        locks, windows, lastSeen := locks - {ip}, windows - {ip}, lastSeen - {ip};
      }
      assert gone == stale;
    }
  }

  // ── interleaved requests ──────────────────────────────────────────────────

  /** A request in flight, with the lock object it fetched when it entered. */
  datatype Task = Task(ip: string, lock: nat)

  datatype Admission = Admission(ip: string, at: real)

  datatype World = World(slots: Slots, tasks: map<nat, Task>, log: seq<Admission>, clock: real)

  datatype Event =
    | Arrive(task: nat, ip: string)
    | Serve(task: nat, now: real, later: real)
    | Cancel(task: nat, now: real)

  /** The clock is monotonic; a request is served or cancelled only while it is in flight. */
  predicate Allowed(w: World, e: Event) {
    match e
    case Arrive(task, _) => task !in w.tasks
    case Serve(task, now, later) => task in w.tasks && w.clock <= now <= later
    case Cancel(task, now) => task in w.tasks && w.clock <= now
  }

  function Step(w: World, e: Event, cfg: Config): World {
    if !Allowed(w, e) then w else
      match e
      case Arrive(task, ip) =>
        var s := Enter(w.slots, ip);
        w.(slots := s, tasks := w.tasks[task := Task(ip, s.locks[ip])])
      case Serve(task, now, later) =>
        var ip := w.tasks[task].ip;
        World(Leave(Decide(w.slots, ip, now, cfg), ip, later, cfg), w.tasks - {task},
              if Admits(w.slots, ip, now, cfg) then w.log + [Admission(ip, now)] else w.log, later)
      case Cancel(task, now) =>
        var ip := w.tasks[task].ip;
        World(Leave(w.slots, ip, now, cfg), w.tasks - {task}, w.log, now)
  }

  function Run(w: World, es: seq<Event>, cfg: Config): World {
    if es == [] then w else Step(Run(w, es[..|es| - 1], cfg), es[|es| - 1], cfg)
  }

  function Start(clock: real): World {
    World(Slots(map[], map[], map[], map[], 0), map[], [], clock)
  }

  // ── the reference: the whole log ──────────────────────────────────────────

  function TimesOf(log: seq<Admission>, ip: string): seq<real> {
    if log == [] then [] else
      var (init, last) := (log[..|log| - 1], log[|log| - 1]);
      TimesOf(init, ip) + (if last.ip == ip then [last.at] else [])
  }

  /** Admitted requests of this IP at or after `from`. */
  function CountSince(times: seq<real>, from: real): nat {
    if times == [] then 0
    else CountSince(times[..|times| - 1], from) + (if times[|times| - 1] >= from then 1 else 0)
  }

  predicate Ascending(times: seq<real>) {
    forall i, j | 0 <= i < j < |times| :: times[i] <= times[j]
  }

  lemma {:induction false} CountSinceAll(times: seq<real>, from: real)
    requires forall i | 0 <= i < |times| :: times[i] >= from
    ensures CountSince(times, from) == |times|
  {
    if times != [] {
      CountSinceAll(times[..|times| - 1], from);
    }
  }

  lemma {:induction false} CountSinceSuffix(times: seq<real>, k: nat, from: real)
    requires k <= |times| && forall i | 0 <= i < k :: times[i] < from
    ensures CountSince(times, from) == CountSince(times[k..], from)
    decreases |times|
  {
    if k < |times| {
      var n := |times| - 1;
      CountSinceSuffix(times[..n], k, from);
      assert times[k..][..|times[k..]| - 1] == times[..n][k..];
    } else if times != [] {
      CountSinceSuffix(times[..|times| - 1], k - 1, from);
      assert times[k..] == [] && times[..|times| - 1][k - 1..] == [];
    }
  }

  /** On an ascending deque the expiry loop leaves exactly the timestamps in the window. */
  lemma {:induction false} ExpireSplits(w: seq<real>, cutoff: real) returns (k: nat)
    requires Ascending(w)
    ensures k <= |w| && Expire(w, cutoff) == w[k..]
    ensures forall i | 0 <= i < k :: w[i] < cutoff
    ensures forall i | k <= i < |w| :: w[i] >= cutoff
  {
    if w != [] && w[0] < cutoff {
      var j := ExpireSplits(w[1..], cutoff);
      k := j + 1;
      assert forall i | 0 < i < |w| :: w[i] == w[1..][i - 1];
    } else {
      k := 0;
    }
  }

  // ── invariant ─────────────────────────────────────────────────────────────

  /** The deque is the log's tail from `k`; what is missing from it had already left the window. */
  predicate TailAt(times: seq<real>, w: seq<real>, horizon: real, k: nat) {
    k <= |times| && w == times[k..] && forall i | 0 <= i < k :: times[i] < horizon
  }

  ghost predicate Tail(times: seq<real>, w: seq<real>, horizon: real) {
    exists k: nat :: TailAt(times, w, horizon, k)
  }

  /** One IP's deque and last-seen time against the times at which the log admitted it. */
  ghost predicate Faithful(times: seq<real>, w: seq<real>, seen: Option<real>, clock: real, window: real) {
    && Ascending(times) && (times != [] ==> times[|times| - 1] <= clock)
    && Tail(times, w, clock - window)
    && (w != [] ==> times != [] && seen == Some(times[|times| - 1]))
  }

  function SeenOf(s: Slots, ip: string): Option<real> {
    if ip in s.lastSeen then Some(s.lastSeen[ip]) else None
  }

  ghost predicate LoggedAt(log: seq<Admission>, s: Slots, clock: real, cfg: Config, ip: string) {
    Faithful(TimesOf(log, ip), WindowOf(s, ip), SeenOf(s, ip), clock, cfg.window)
  }

  ghost predicate Logged(log: seq<Admission>, s: Slots, clock: real, cfg: Config) {
    forall ip: string :: LoggedAt(log, s, clock, cfg, ip)
  }

  function TasksOf(tasks: map<nat, Task>, ip: string): set<nat> {
    set t | t in tasks && tasks[t].ip == ip
  }

  /** Every request in flight is counted and holds the lock its slot still has. */
  ghost predicate Guarded(s: Slots, tasks: map<nat, Task>) {
    && (forall t | t in tasks :: tasks[t].ip in s.locks && s.locks[tasks[t].ip] == tasks[t].lock)
    && (forall ip: string :: Inflight(s, ip) == |TasksOf(tasks, ip)|)
  }

  /** `m` splits the admissions: what precedes it left the window, what follows is in it. */
  predicate SplitsAt(times: seq<real>, horizon: real, m: nat) {
    && m <= |times|
    && (forall i | 0 <= i < m :: times[i] < horizon)
    && (forall i | m <= i < |times| :: times[i] >= horizon)
  }

  lemma SplitOfSuffix(times: seq<real>, k: nat, horizon: real, j: nat)
    requires k <= |times| && (forall i | 0 <= i < k :: times[i] < horizon) && SplitsAt(times[k..], horizon, j)
    ensures SplitsAt(times, horizon, k + j) && times[k..][j..] == times[k + j..]
  {
    var w := times[k..];
    forall i | k <= i < |times| ensures i < k + j <==> times[i] < horizon {
      assert times[i] == w[i - k];
    }
  }

  lemma SplitCounts(times: seq<real>, horizon: real, m: nat)
    requires SplitsAt(times, horizon, m)
    ensures CountSince(times, horizon) == |times| - m
  {
    CountSinceSuffix(times, m, horizon);
    CountSinceAll(times[m..], horizon);
  }

  lemma TailExpiresAt(times: seq<real>, w: seq<real>, before: real, horizon: real, k: nat) returns (m: nat)
    requires Ascending(times) && TailAt(times, w, before, k) && before <= horizon
    ensures TailAt(times, Expire(w, horizon), horizon, m) && SplitsAt(times, horizon, m)
  {
    var j := ExpireSplits(w, horizon);
    SplitOfSuffix(times, k, horizon, j);
    m := k + j;
  }

  lemma TailExpires(times: seq<real>, w: seq<real>, before: real, horizon: real)
    requires Ascending(times) && Tail(times, w, before) && before <= horizon
    ensures Tail(times, Expire(w, horizon), horizon)
    ensures |Expire(w, horizon)| == CountSince(times, horizon)
  {
    var k: nat :| TailAt(times, w, before, k);
    var m := TailExpiresAt(times, w, before, horizon, k);
    SplitCounts(times, horizon, m);
  }

  lemma FaithfulCounts(times: seq<real>, w: seq<real>, seen: Option<real>, clock: real, now: real, window: real)
    requires Faithful(times, w, seen, clock, window) && clock <= now
    ensures |Expire(w, now - window)| == CountSince(times, now - window)
  {
    TailExpires(times, w, clock - window, now - window);
  }

  /** The decision, taken on the pruned deque, is the decision on the full log. */
  lemma DecisionMatchesLog(log: seq<Admission>, s: Slots, clock: real, ip: string, now: real, cfg: Config)
    requires Logged(log, s, clock, cfg) && clock <= now
    ensures Admits(s, ip, now, cfg) <==> CountSince(TimesOf(log, ip), now - cfg.window) < cfg.limit
  {
    assert LoggedAt(log, s, clock, cfg, ip);
    FaithfulCounts(TimesOf(log, ip), WindowOf(s, ip), SeenOf(s, ip), clock, now, cfg.window);
  }

  // ── steps keep it ─────────────────────────────────────────────────────────

  lemma FaithfulLater(times: seq<real>, w: seq<real>, seen: Option<real>, clock: real, later: real, window: real)
    requires Faithful(times, w, seen, clock, window) && clock <= later
    ensures Faithful(times, w, seen, later, window)
  {
    var k: nat :| TailAt(times, w, clock - window, k);
    assert TailAt(times, w, later - window, k);
  }

  lemma FaithfulExpired(times: seq<real>, w: seq<real>, seen: Option<real>, clock: real, now: real, window: real)
    requires Faithful(times, w, seen, clock, window) && clock <= now
    ensures Faithful(times, Expire(w, now - window), seen, now, window)
  {
    TailExpires(times, w, clock - window, now - window);
    assert Expire(w, now - window) != [] ==> w != [];
  }

  lemma TailAppended(times: seq<real>, w: seq<real>, horizon: real, now: real)
    requires Tail(times, w, horizon)
    ensures Tail(times + [now], w + [now], horizon)
  {
    var k: nat :| TailAt(times, w, horizon, k);
    assert (times + [now])[k..] == times[k..] + [now];
    assert TailAt(times + [now], w + [now], horizon, k);
  }

  lemma AscendingAppended(times: seq<real>, now: real)
    requires Ascending(times) && (times != [] ==> times[|times| - 1] <= now)
    ensures Ascending(times + [now])
  {
    assert forall i | 0 <= i < |times| :: times[i] <= times[|times| - 1];
  }

  lemma FaithfulAppended(times: seq<real>, w: seq<real>, seen: Option<real>, now: real, window: real)
    requires Faithful(times, w, seen, now, window)
    ensures Faithful(times + [now], w + [now], Some(now), now, window)
  {
    TailAppended(times, w, now - window, now);
    AscendingAppended(times, now);
  }

  /** A slot idle since before the window held nothing the window still counts. */
  lemma FaithfulEvicted(times: seq<real>, w: seq<real>, seen: Option<real>, now: real, window: real)
    requires Faithful(times, w, seen, now, window)
    requires seen.Some? ==> seen.value < now - window
    ensures Faithful(times, [], None, now, window)
  {
    var k: nat :| TailAt(times, w, now - window, k);
    if w == [] {
      assert k == |times|;
    } else {
      assert forall i | 0 <= i < |times| :: times[i] <= times[|times| - 1];
      assert TailAt(times, [], now - window, |times|);
    }
  }

  function LogAfter(log: seq<Admission>, s: Slots, ip: string, now: real, cfg: Config): seq<Admission> {
    if Admits(s, ip, now, cfg) then log + [Admission(ip, now)] else log
  }

  lemma TimesAfter(log: seq<Admission>, s: Slots, ip: string, now: real, cfg: Config, other: string)
    ensures TimesOf(LogAfter(log, s, ip, now, cfg), other) ==
            if other == ip && Admits(s, ip, now, cfg) then TimesOf(log, other) + [now] else TimesOf(log, other)
  {
    var log' := LogAfter(log, s, ip, now, cfg);
    if Admits(s, ip, now, cfg) {
      assert log'[..|log'| - 1] == log;
    }
  }

  lemma DecideElsewhere(log: seq<Admission>, s: Slots, clock: real, ip: string, now: real, cfg: Config, other: string)
    requires LoggedAt(log, s, clock, cfg, other) && clock <= now && other != ip
    ensures LoggedAt(LogAfter(log, s, ip, now, cfg), Decide(s, ip, now, cfg), now, cfg, other)
  {
    TimesAfter(log, s, ip, now, cfg, other);
    FaithfulLater(TimesOf(log, other), WindowOf(s, other), SeenOf(s, other), clock, now, cfg.window);
  }

  lemma DecideEffect(s: Slots, ip: string, now: real, cfg: Config)
    ensures var w := Expire(WindowOf(s, ip), now - cfg.window);
            var s' := Decide(s, ip, now, cfg);
            if Admits(s, ip, now, cfg) then WindowOf(s', ip) == w + [now] && SeenOf(s', ip) == Some(now)
            else WindowOf(s', ip) == w && SeenOf(s', ip) == SeenOf(s, ip)
  {
  }

  lemma FaithfulDecided(times: seq<real>, w: seq<real>, seen: Option<real>, clock: real, now: real, window: real,
                        admitted: bool)
    requires Faithful(times, w, seen, clock, window) && clock <= now
    ensures var w' := Expire(w, now - window);
            if admitted then Faithful(times + [now], w' + [now], Some(now), now, window)
            else Faithful(times, w', seen, now, window)
  {
    FaithfulExpired(times, w, seen, clock, now, window);
    if admitted {
      FaithfulAppended(times, Expire(w, now - window), seen, now, window);
    }
  }

  lemma DecideHere(log: seq<Admission>, s: Slots, clock: real, ip: string, now: real, cfg: Config)
    requires LoggedAt(log, s, clock, cfg, ip) && clock <= now
    ensures LoggedAt(LogAfter(log, s, ip, now, cfg), Decide(s, ip, now, cfg), now, cfg, ip)
  {
    FaithfulDecided(TimesOf(log, ip), WindowOf(s, ip), SeenOf(s, ip), clock, now, cfg.window, Admits(s, ip, now, cfg));
    TimesAfter(log, s, ip, now, cfg, ip);
    DecideEffect(s, ip, now, cfg);
  }

  lemma DecideKeepsLogged(log: seq<Admission>, s: Slots, clock: real, ip: string, now: real, cfg: Config, other: string)
    requires LoggedAt(log, s, clock, cfg, other) && clock <= now
    ensures LoggedAt(LogAfter(log, s, ip, now, cfg), Decide(s, ip, now, cfg), now, cfg, other)
  {
    if other == ip {
      DecideHere(log, s, clock, ip, now, cfg);
    } else {
      DecideElsewhere(log, s, clock, ip, now, cfg, other);
    }
  }

  /** The IP's slot has been idle: no request inside it, and none admitted for a minute and two windows. */
  predicate Idle(s: Slots, ip: string, now: real, cfg: Config) {
    && (ip in s.inflight ==> s.inflight[ip] == 0)
    && (ip in s.lastSeen ==> s.lastSeen[ip] < now - 60.0 && s.lastSeen[ip] < now - cfg.window * 2.0)
    && (ip !in s.lastSeen ==> 0.0 < now - 60.0 && 0.0 < now - cfg.window * 2.0)
  }

  /** Above 500 windows every idle slot with a lock goes, whole; otherwise and otherwise nothing goes. */
  lemma EvictionLaw(s: Slots, now: real, cfg: Config, ip: string)
    ensures var s' := Evict(s, now, cfg);
            var gone := |s.windows| > 500 && ip in s.locks && Idle(s, ip, now, cfg);
            && (ip in s'.locks <==> ip in s.locks && !gone) && (ip in s'.windows <==> ip in s.windows && !gone)
            && (ip in s'.lastSeen <==> ip in s.lastSeen && !gone)
            && (ip in s'.locks ==> s'.locks[ip] == s.locks[ip])
            && (ip in s'.windows ==> s'.windows[ip] == s.windows[ip])
            && (ip in s'.lastSeen ==> s'.lastSeen[ip] == s.lastSeen[ip])
            && s'.inflight == s.inflight && s'.nextLock == s.nextLock
  {
  }

  lemma EvictAfterCoversWindow(cfg: Config)
    ensures cfg.window <= EvictAfter(cfg)
  {
  }

  lemma EvictKeepsLogged(log: seq<Admission>, s: Slots, now: real, cfg: Config, ip: string)
    requires LoggedAt(log, s, now, cfg, ip)
    ensures LoggedAt(log, Evict(s, now, cfg), now, cfg, ip)
  {
    var s' := Evict(s, now, cfg);
    if ip in Stale(s, now, cfg) && |s.windows| > EVICTION_FLOOR {
      EvictAfterCoversWindow(cfg);
      FaithfulEvicted(TimesOf(log, ip), WindowOf(s, ip), SeenOf(s, ip), now, cfg.window);
      assert WindowOf(s', ip) == [] && SeenOf(s', ip) == None;
    } else {
      assert WindowOf(s', ip) == WindowOf(s, ip) && SeenOf(s', ip) == SeenOf(s, ip);
    }
  }

  lemma LeaveKeepsLogged(log: seq<Admission>, s: Slots, ip: string, now: real, cfg: Config, other: string)
    requires LoggedAt(log, s, now, cfg, other)
    ensures LoggedAt(log, Leave(s, ip, now, cfg), now, cfg, other)
  {
    var s1 := CountedOut(s, ip);
    assert WindowOf(s1, other) == WindowOf(s, other) && SeenOf(s1, other) == SeenOf(s, other);
    EvictKeepsLogged(log, s1, now, cfg, other);
  }

  lemma StepKeepsLogged(w: World, e: Event, cfg: Config)
    requires Logged(w.log, w.slots, w.clock, cfg)
    ensures var w' := Step(w, e, cfg); Logged(w'.log, w'.slots, w'.clock, cfg)
  {
    var w' := Step(w, e, cfg);
    if Allowed(w, e) {
      forall other: string ensures LoggedAt(w'.log, w'.slots, w'.clock, cfg, other) {
        assert LoggedAt(w.log, w.slots, w.clock, cfg, other);
        match e {
          case Arrive(task, ip) =>
          case Serve(task, now, later) =>
            var ip := w.tasks[task].ip;
            DecideKeepsLogged(w.log, w.slots, w.clock, ip, now, cfg, other);
            var s1 := Decide(w.slots, ip, now, cfg);
            FaithfulLater(TimesOf(w'.log, other), WindowOf(s1, other), SeenOf(s1, other), now, later, cfg.window);
            LeaveKeepsLogged(w'.log, s1, ip, later, cfg, other);
          case Cancel(task, now) =>
            FaithfulLater(TimesOf(w.log, other), WindowOf(w.slots, other), SeenOf(w.slots, other),
                          w.clock, now, cfg.window);
            LeaveKeepsLogged(w.log, w.slots, w.tasks[task].ip, now, cfg, other);
        }
      }
    }
  }

  lemma TasksAfterArrive(tasks: map<nat, Task>, t: nat, task: Task, ip: string)
    requires t !in tasks
    ensures |TasksOf(tasks[t := task], ip)| == |TasksOf(tasks, ip)| + (if ip == task.ip then 1 else 0)
  {
    assert TasksOf(tasks[t := task], ip) == TasksOf(tasks, ip) + (if ip == task.ip then {t} else {});
  }

  lemma TasksAfterLeave(tasks: map<nat, Task>, t: nat, ip: string)
    requires t in tasks
    ensures |TasksOf(tasks, ip)| == |TasksOf(tasks - {t}, ip)| + (if ip == tasks[t].ip then 1 else 0)
  {
    assert TasksOf(tasks, ip) == TasksOf(tasks - {t}, ip) + (if ip == tasks[t].ip then {t} else {});
  }

  lemma ArriveKeepsGuarded(s: Slots, tasks: map<nat, Task>, t: nat, ip: string)
    requires Guarded(s, tasks) && t !in tasks
    ensures var s' := Enter(s, ip); Guarded(s', tasks[t := Task(ip, s'.locks[ip])])
  {
    var s' := Enter(s, ip);
    var tasks' := tasks[t := Task(ip, s'.locks[ip])];
    forall other: string ensures Inflight(s', other) == |TasksOf(tasks', other)| {
      TasksAfterArrive(tasks, t, Task(ip, s'.locks[ip]), other);
    }
  }

  /** Eviction touches no slot with a request in flight, so nobody is left waiting on a dropped lock. */
  lemma EvictKeepsGuarded(s: Slots, tasks: map<nat, Task>, now: real, cfg: Config)
    requires Guarded(s, tasks)
    ensures Guarded(Evict(s, now, cfg), tasks)
  {
    forall t | t in tasks ensures tasks[t].ip !in Stale(s, now, cfg) {
      assert t in TasksOf(tasks, tasks[t].ip);
    }
  }

  lemma LeaveKeepsGuarded(s: Slots, tasks: map<nat, Task>, t: nat, now: real, cfg: Config)
    requires Guarded(s, tasks) && t in tasks
    ensures Guarded(Leave(s, tasks[t].ip, now, cfg), tasks - {t})
  {
    var (ip, tasks') := (tasks[t].ip, tasks - {t});
    TasksAfterLeave(tasks, t, ip);
    var s1 := CountedOut(s, ip);
    forall other: string ensures Inflight(s1, other) == |TasksOf(tasks', other)| {
      TasksAfterLeave(tasks, t, other);
    }
    EvictKeepsGuarded(s1, tasks', now, cfg);
  }

  lemma StepKeepsGuarded(w: World, e: Event, cfg: Config)
    requires Guarded(w.slots, w.tasks)
    ensures Guarded(Step(w, e, cfg).slots, Step(w, e, cfg).tasks)
  {
    if Allowed(w, e) {
      match e {
        case Arrive(task, ip) => ArriveKeepsGuarded(w.slots, w.tasks, task, ip);
        case Serve(task, now, later) =>
          var s1 := Decide(w.slots, w.tasks[task].ip, now, cfg);
          assert Guarded(s1, w.tasks) by {
            assert forall ip: string :: Inflight(s1, ip) == Inflight(w.slots, ip);
          }
          LeaveKeepsGuarded(s1, w.tasks, task, later, cfg);
        case Cancel(task, now) => LeaveKeepsGuarded(w.slots, w.tasks, task, now, cfg);
      }
    }
  }

  lemma {:induction false} RunKeepsInv(clock: real, es: seq<Event>, cfg: Config)
    ensures var w := Run(Start(clock), es, cfg);
            Logged(w.log, w.slots, w.clock, cfg) && Guarded(w.slots, w.tasks)
  {
    if es == [] {
      forall ip: string ensures LoggedAt([], Start(clock).slots, clock, cfg, ip) {
        assert TailAt([], [], clock - cfg.window, 0);
      }
      assert forall ip: string :: TasksOf(map[], ip) == {};
    } else {
      RunKeepsInv(clock, es[..|es| - 1], cfg);
      var w := Run(Start(clock), es[..|es| - 1], cfg);
      StepKeepsLogged(w, es[|es| - 1], cfg);
      StepKeepsGuarded(w, es[|es| - 1], cfg);
    }
  }

  /**
   For every interleaving of clients, cancellations and eviction sweeps, a request is admitted
   exactly when fewer than `limit` earlier requests of its IP were admitted in the window.
   */
  lemma LimiterRefinesLog(clock: real, es: seq<Event>, task: nat, now: real, later: real, cfg: Config)
    requires Allowed(Run(Start(clock), es, cfg), Serve(task, now, later))
    ensures var w := Run(Start(clock), es, cfg);
            var ip := w.tasks[task].ip;
            Step(w, Serve(task, now, later), cfg).log ==
              if CountSince(TimesOf(w.log, ip), now - cfg.window) < cfg.limit
              then w.log + [Admission(ip, now)] else w.log
  {
    RunKeepsInv(clock, es, cfg);
    var w := Run(Start(clock), es, cfg);
    DecisionMatchesLog(w.log, w.slots, w.clock, w.tasks[task].ip, now, cfg);
  }

  /** Two requests of one IP in flight at the same time always wait on the same lock. */
  lemma OneLockPerIp(clock: real, es: seq<Event>, a: nat, b: nat, cfg: Config)
    requires var w := Run(Start(clock), es, cfg);
             a in w.tasks && b in w.tasks && w.tasks[a].ip == w.tasks[b].ip
    ensures var w := Run(Start(clock), es, cfg); w.tasks[a].lock == w.tasks[b].lock
  {
    RunKeepsInv(clock, es, cfg);
  }
}
