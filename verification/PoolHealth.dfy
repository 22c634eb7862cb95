/**
 Health debounce and the session fence of the manager's worker pool.  A poll of one worker is
 two locked sections with a handshake between them, so other threads may act in the middle.
 */
module PoolHealth {
  import opened Basics

  datatype Health = Health(ok: bool, failures: nat)

  datatype Session = Session(id: string, secret: string)

  /** What one health probe reported; a probe that raised has no session id. */
  datatype Probe = Probe(ok: bool, session: string)

  /** Where the poll thread stands: between workers, handshaking, or about to conclude a refresh. */
  datatype Poll =
    | Idle
    | Handshaking(url: string, refresh: Option<string>)
    | Concluding(url: string, awaited: string, reached: bool)

  /** `observed` is the session id last heard for a worker, from a good probe or a handshake reply. */
  datatype Pool = Pool(health: map<string, Health>, sessions: map<string, Session>,
                       pending: map<string, string>, poll: Poll, observed: map<string, string>)

  function InitialPool(urls: set<string>): Pool {
    Pool(map u | u in urls :: Health(true, 0), map[], map[], Idle, map[])
  }

  // ── steps ─────────────────────────────────────────────────────────────────

  function PendingAfter(p: Pool, url: string, probe: Probe): map<string, string> {
    var changed := probe.ok && probe.session != "" && url in p.sessions && probe.session != p.sessions[url].id;
    if changed || (probe.session != "" && url in p.pending) then p.pending[url := probe.session] else p.pending
  }

  function HealthAfter(h: Health, probe: Probe, refreshing: bool, initial: bool, limit: nat): Health {
    if probe.ok then Health(!refreshing, 0) else
      var failures := if initial then limit else h.failures + 1;
      Health(if failures >= limit then false else h.ok, failures)
  }

  /** The first locked section: record the probe and decide whether a handshake follows. */
  function ApplyProbe(p: Pool, url: string, probe: Probe, initial: bool, limit: nat): Pool
    requires url in p.health
  {
    var pending := PendingAfter(p, url, probe);
    var refresh := Get(pending, url);
    var h := HealthAfter(p.health[url], probe, refresh.Some?, initial, limit);
    Pool(p.health[url := h], p.sessions, pending,
         if probe.ok && (!p.health[url].ok || refresh.Some?) then Handshaking(url, refresh) else Idle,
         if probe.ok && probe.session != "" then p.observed[url := probe.session] else p.observed)
  }

  function Register(p: Pool, url: string, s: Session): Pool {
    p.(sessions := p.sessions[url := s], observed := p.observed[url := s.id])
  }

  /** The handshake reply: nothing is registered when it is lost or lacks the id or the secret. */
  function ApplyReply(p: Pool, reply: Option<Session>): Pool
    requires p.poll.Handshaking?
  {
    var reached := reply.Some? && reply.value.id != "" && reply.value.secret != "";
    var (url, refresh) := (p.poll.url, p.poll.refresh);
    var p' := if reached then Register(p, url, reply.value) else p;
    p'.(poll := if refresh.Some? then Concluding(url, refresh.value, reached) else Idle)
  }

  /** The second locked section: the worker is usable only if the reply named the awaited session. */
  function Conclude(p: Pool): Pool
    requires p.poll.Concluding? && p.poll.url in p.health
  {
    var url := p.poll.url;
    var refreshed := p.poll.reached && url in p.sessions && p.sessions[url].id == p.poll.awaited;
    p.(health := p.health[url := p.health[url].(ok := refreshed)],
       pending := if refreshed then p.pending - {url} else p.pending,
       poll := Idle)
  }

  /** The session a dispatch mints its token with; `None` where it is fenced off or legacy-shaped. */
  function MintSession(p: Pool, url: string): Option<Session> {
    if url in p.pending then None else Get(p.sessions, url)
  }

  datatype Event =
    | Polled(url: string, probe: Probe, initial: bool)
    | Replied(reply: Option<Session>)
    | Concluded
    | Registered(url: string, session: Session)

  /** Events that the pool's state does not allow leave it unchanged. */
  function Step(p: Pool, e: Event, limit: nat): Pool {
    match e
    case Polled(url, probe, initial) =>
      if p.poll.Idle? && url in p.health then ApplyProbe(p, url, probe, initial, limit) else p
    case Replied(reply) => if p.poll.Handshaking? then ApplyReply(p, reply) else p
    case Concluded => if p.poll.Concluding? && p.poll.url in p.health then Conclude(p) else p
    case Registered(url, s) => Register(p, url, s)
  }

  function Run(p: Pool, es: seq<Event>, limit: nat): Pool {
    if es == [] then p else Step(Run(p, es[..|es| - 1], limit), es[|es| - 1], limit)
  }

  // ── invariant ─────────────────────────────────────────────────────────────

  predicate HealthExact(p: Pool, limit: nat) {
    forall u | u in p.health :: p.health[u].ok <==> p.health[u].failures < limit && u !in p.pending
  }

  predicate Fenced(p: Pool) {
    forall u | u in p.sessions && u !in p.pending :: u in p.observed && p.observed[u] == p.sessions[u].id
  }

  predicate PollOk(p: Pool) {
    match p.poll
    case Idle => true
    case Handshaking(u, refresh) => u in p.health && p.health[u].failures == 0 && refresh == Get(p.pending, u)
    case Concluding(u, awaited, reached) =>
      && u in p.health && p.health[u].failures == 0 && u in p.pending
      && (reached ==> u in p.sessions && u in p.observed && p.observed[u] == p.sessions[u].id)
  }

  predicate Inv(p: Pool, limit: nat) {
    HealthExact(p, limit) && Fenced(p) && PollOk(p)
  }

  lemma StepKeepsInv(p: Pool, e: Event, limit: nat)
    requires Inv(p, limit) && limit >= 1
    ensures Inv(Step(p, e, limit), limit)
  {
  }

  lemma {:induction false} RunKeepsInv(urls: set<string>, es: seq<Event>, limit: nat)
    requires limit >= 1
    ensures Inv(Run(InitialPool(urls), es, limit), limit)
  {
    if es != [] {
      RunKeepsInv(urls, es[..|es| - 1], limit);
      StepKeepsInv(Run(InitialPool(urls), es[..|es| - 1], limit), es[|es| - 1], limit);
    }
  }

  /**
   In every reachable state a worker is healthy exactly when it is below the failure limit and
   awaits no session refresh, so a worker with a refresh pending is never among the selectable.
   */
  lemma HealthyIff(urls: set<string>, es: seq<Event>, limit: nat, url: string)
    requires limit >= 1
    ensures var p := Run(InitialPool(urls), es, limit);
            url in p.health ==> (p.health[url].ok <==> p.health[url].failures < limit && url !in p.pending)
  {
    RunKeepsInv(urls, es, limit);
  }

  /** A minted token names the newest session the manager has heard of for that worker. */
  lemma MintNamesNewestSession(urls: set<string>, es: seq<Event>, limit: nat, url: string)
    requires limit >= 1
    ensures var p := Run(InitialPool(urls), es, limit);
            MintSession(p, url).Some? ==>
              url !in p.pending && url in p.observed && MintSession(p, url).value.id == p.observed[url]
  {
    RunKeepsInv(urls, es, limit);
  }

  /** In every reachable state a mint answers exactly when a session is registered and no refresh is awaited. */
  lemma MintAnswersIff(urls: set<string>, es: seq<Event>, limit: nat, url: string, s: Session)
    requires limit >= 1
    ensures var p := Run(InitialPool(urls), es, limit);
            MintSession(p, url) == Some(s) <==> url in p.sessions && p.sessions[url] == s && url !in p.pending
  {
  }

  /** The worker an event speaks about. */
  function Subject(p: Pool, e: Event): Option<string> {
    match e
    case Polled(url, _, _) => Some(url)
    case Registered(url, _) => Some(url)
    case _ => if p.poll.Idle? then None else Some(p.poll.url)
  }

  /** No event touches any worker but its own. */
  lemma StepTouchesOneWorker(p: Pool, e: Event, limit: nat, url: string)
    requires Subject(p, e) != Some(url)
    ensures var p' := Step(p, e, limit);
            && Get(p'.health, url) == Get(p.health, url) && Get(p'.sessions, url) == Get(p.sessions, url)
            && Get(p'.pending, url) == Get(p.pending, url) && Get(p'.observed, url) == Get(p.observed, url)
  {
  }

  // ── a worker that restarts ────────────────────────────────────────────────

  /** A probe of this session is news: it is not the registered one, or a refresh is already awaited. */
  predicate News(p: Pool, url: string, id: string) {
    id != "" && (url in p.pending || (url in p.sessions && id != p.sessions[url].id))
  }

  /** A good probe without news makes the worker healthy at once; a handshake follows if it was not. */
  lemma GoodProbeHeals(p: Pool, url: string, id: string, initial: bool, limit: nat)
    requires p.poll.Idle? && url in p.health && url !in p.pending && !News(p, url, id)
    ensures var p' := Step(p, Polled(url, Probe(true, id), initial), limit);
            && p'.health == p.health[url := Health(true, 0)]
            && p'.pending == p.pending && p'.sessions == p.sessions
            && p'.poll == if p.health[url].ok then Idle else Handshaking(url, None)
  {
  }

  /** A failed probe changes nothing but the count, and the verdict when the limit is reached. */
  lemma FailedProbeCounts(p: Pool, url: string, initial: bool, limit: nat)
    requires p.poll.Idle? && url in p.health
    ensures var (h, p') := (p.health[url], Step(p, Polled(url, Probe(false, ""), initial), limit));
            && p' == p.(health := p'.health) && p'.health.Keys == p.health.Keys
            && p'.health[url].failures == (if initial then limit else h.failures + 1)
            && (p'.health[url].ok <==> h.ok && p'.health[url].failures < limit)
  {
  }

  /** A good probe with news fences the worker off until a handshake names that session. */
  lemma NewSessionFencesOff(p: Pool, url: string, id: string, initial: bool, limit: nat)
    requires p.poll.Idle? && url in p.health && News(p, url, id)
    ensures var p' := Step(p, Polled(url, Probe(true, id), initial), limit);
            && p'.poll == Handshaking(url, Some(id)) && p'.health[url] == Health(false, 0)
            && p'.pending == p.pending[url := id] && p'.sessions == p.sessions && MintSession(p', url) == None
  {
  }

  /** The fenced worker comes back exactly when the handshake names the session the probe saw. */
  lemma ReturnsIffHandshakeAgrees(p: Pool, url: string, id: string, reply: Option<Session>, initial: bool, limit: nat)
    requires p.poll.Idle? && url in p.health && News(p, url, id)
    ensures var agreed := reply.Some? && reply.value.id == id && reply.value.secret != "";
            var p' := Run(p, [Polled(url, Probe(true, id), initial), Replied(reply), Concluded], limit);
            && p'.poll.Idle? && url in p'.health && p'.health[url] == Health(agreed, 0)
            && (url in p'.pending <==> !agreed)
            && MintSession(p', url) == if agreed then reply else None
  {
    var es := [Polled(url, Probe(true, id), initial), Replied(reply), Concluded];
    assert es[..2] == [es[0], es[1]] && es[..2][..1] == [es[0]] && es[..2][..1][..0] == [];
    NewSessionFencesOff(p, url, id, initial, limit);
    var p1 := Step(p, es[0], limit);
    assert Run(p, [es[0]], limit) == p1;
    assert Run(p, es[..2], limit) == Step(p1, es[1], limit);
  }

  // ── when a worker is down ─────────────────────────────────────────────────

  datatype Answer = Answer(ok: bool, initial: bool)

  /** The probes of one worker that a run has applied, in order. */
  function Answers(p: Pool, es: seq<Event>, limit: nat, url: string): seq<Answer> {
    if es == [] then [] else
      var (before, e) := (es[..|es| - 1], es[|es| - 1]);
      Answers(p, before, limit, url) +
        if e.Polled? && e.url == url && Run(p, before, limit).poll.Idle? then [Answer(e.probe.ok, e.initial)] else []
  }

  /** The last `k` probes all failed. */
  predicate Silent(answers: seq<Answer>, k: nat) {
    k <= |answers| && forall i | |answers| - k <= i < |answers| :: !answers[i].ok
  }

  /** The last `limit` probes failed, or all probes since and including a start-up probe did. */
  predicate Lost(answers: seq<Answer>, limit: nat) {
    exists k: nat | k <= |answers| :: Silent(answers, k) && (k >= limit || (k > 0 && answers[|answers| - k].initial))
  }

  /** The count of one worker after its probes: their trailing failures, or at least the limit. */
  predicate Counts(answers: seq<Answer>, failures: nat, limit: nat) {
    && (Lost(answers, limit) <==> failures >= limit)
    && (failures < limit ==> Silent(answers, failures)
                             && (failures < |answers| ==> answers[|answers| - failures - 1].ok))
  }

  lemma SilentGrows(answers: seq<Answer>, a: Answer, k: nat)
    ensures Silent(answers + [a], k + 1) <==> !a.ok && Silent(answers, k)
  {
    var more := answers + [a];
    if Silent(more, k + 1) {
      assert more[|answers|] == a;
      assert forall i | |answers| - k <= i < |answers| :: more[i] == answers[i];
    }
  }

  lemma GoodAnswerFinds(answers: seq<Answer>, a: Answer, limit: nat)
    requires a.ok && limit >= 1
    ensures !Lost(answers + [a], limit) && Silent(answers + [a], 0)
  {
    var more := answers + [a];
    assert more[|more| - 1] == a;
    assert forall k: nat | 0 < k <= |more| :: !Silent(more, k);
  }

  lemma StillLost(answers: seq<Answer>, a: Answer, limit: nat)
    requires !a.ok && Lost(answers, limit)
    ensures Lost(answers + [a], limit)
  {
    var k: nat :| k <= |answers| && Silent(answers, k) && (k >= limit || (k > 0 && answers[|answers| - k].initial));
    SilentGrows(answers, a, k);
    assert (answers + [a])[|answers + [a]| - (k + 1)] == if k > 0 then answers[|answers| - k] else a;
  }

  lemma NowLostIff(answers: seq<Answer>, a: Answer, failures: nat, limit: nat)
    requires !a.ok && Counts(answers, failures, limit) && failures < limit
    ensures Lost(answers + [a], limit) <==> a.initial || failures + 1 >= limit
    ensures Silent(answers + [a], failures + 1)
  {
    var more := answers + [a];
    SilentGrows(answers, a, 0);
    SilentGrows(answers, a, failures);
    assert more[|more| - 1] == a;
    if Lost(more, limit) {
      var k: nat :| k <= |more| && Silent(more, k) && (k >= limit || (k > 0 && more[|more| - k].initial));
      SilentGrows(answers, a, k - 1);
      assert k > 1 ==> more[|more| - k] == answers[|answers| - (k - 1)];
    }
  }

  lemma CountsStep(answers: seq<Answer>, a: Answer, h: Health, refreshing: bool, limit: nat)
    requires limit >= 1 && Counts(answers, h.failures, limit)
    ensures Counts(answers + [a], HealthAfter(h, Probe(a.ok, ""), refreshing, a.initial, limit).failures, limit)
  {
    var more := answers + [a];
    assert more[|more| - 1] == a;
    if a.ok {
      GoodAnswerFinds(answers, a, limit);
    } else if h.failures >= limit {
      StillLost(answers, a, limit);
    } else {
      NowLostIff(answers, a, h.failures, limit);
      assert h.failures < |answers| ==> more[|more| - (h.failures + 1) - 1] == answers[|answers| - h.failures - 1];
    }
  }

  lemma {:induction false} RunCounts(urls: set<string>, es: seq<Event>, limit: nat, url: string)
    requires limit >= 1 && url in urls
    ensures var p := Run(InitialPool(urls), es, limit);
            url in p.health && Counts(Answers(InitialPool(urls), es, limit, url), p.health[url].failures, limit)
  {
    if es != [] {
      var (before, e) := (es[..|es| - 1], es[|es| - 1]);
      RunCounts(urls, before, limit, url);
      var p := Run(InitialPool(urls), before, limit);
      var answers := Answers(InitialPool(urls), before, limit, url);
      if e.Polled? && e.url == url && p.poll.Idle? {
        CountsStep(answers, Answer(e.probe.ok, e.initial), p.health[url], Get(PendingAfter(p, url, e.probe), url).Some?,
                   limit);
      } else {
        assert Answers(InitialPool(urls), es, limit, url) == answers;
      }
    }
  }

  /**
   In every run a worker is healthy exactly when it awaits no refresh and is not lost: neither have
   its last `limit` probes failed, nor has every probe failed since one of start-up.
   */
  lemma HealthyIffNotLost(urls: set<string>, es: seq<Event>, limit: nat, url: string)
    requires limit >= 1 && url in urls
    ensures var p := Run(InitialPool(urls), es, limit);
            url in p.health && (p.health[url].ok <==>
              url !in p.pending && !Lost(Answers(InitialPool(urls), es, limit, url), limit))
  {
    RunKeepsInv(urls, es, limit);
    RunCounts(urls, es, limit, url);
  }

  /** A worker that never answers is down after `limit` probes in a row, and not before. */
  lemma {:induction false} DownAfterLimitFailures(p: Pool, url: string, k: nat, limit: nat)
    requires Inv(p, limit) && limit >= 1 && p.poll.Idle? && url in p.health && p.health[url] == Health(true, 0)
    ensures var p' := Run(p, seq(k, _ => Polled(url, Probe(false, ""), false)), limit);
            p'.poll.Idle? && url in p'.health && p'.health[url] == Health(k < limit, k)
  {
    var es := seq(k, _ => Polled(url, Probe(false, ""), false));
    if k > 0 {
      assert es[..k - 1] == seq(k - 1, _ => Polled(url, Probe(false, ""), false));
      DownAfterLimitFailures(p, url, k - 1, limit);
    }
  }
}
