/** Resumable publication of one unit's staged files over a file system that may fail at any call. */
module Publication {
  import opened Basics
  import opened Payloads
  import opened RollingWriter

  /** The call that raises during the publication of one target, if any does. */
  datatype Fault = NoFault | FsyncFails | UnlinkFails | RenameFails | DirSyncFails

  datatype Result = Result(disk: Disk, ok: bool)

  // ── one target ────────────────────────────────────────────────────────────

  /** The local backend's replace: an existing final is unlinked first, then the temp is renamed. */
  function Replace(disk: Disk, t: Target, overwrite: bool, fault: Fault): Result {
    if t.temp !in disk then Result(disk, true)
    else if t.final in disk && (!overwrite || fault == UnlinkFails) then Result(disk, false)
    else if fault == RenameFails then Result(disk - {t.final}, false)
    else Result((disk - {t.final, t.temp})[t.final := disk[t.temp]], true)
  }

  function PublishTarget(disk: Disk, t: Target, overwrite: bool, fault: Fault): Result {
    if t.temp in disk then
      if fault == FsyncFails then Result(disk, false) else
        var r := Replace(disk, t, overwrite, fault);
        if r.ok && fault == DirSyncFails then r.(ok := false) else r
    else if t.final in disk then Result(disk, fault != FsyncFails && fault != DirSyncFails)
    else Result(disk, false)
  }

  /** The unit's content is still there: staged, or already under its final name. */
  predicate Recoverable(disk: Disk, t: Target, content: Payloads.Bytes) {
    if t.temp in disk then disk[t.temp] == content else t.final in disk && disk[t.final] == content
  }

  predicate Done(disk: Disk, t: Target, content: Payloads.Bytes) {
    t.temp !in disk && t.final in disk && disk[t.final] == content
  }

  lemma TargetStaysRecoverable(disk: Disk, t: Target, content: Payloads.Bytes, overwrite: bool, fault: Fault)
    requires Recoverable(disk, t, content) && t.temp != t.final
    ensures var r := PublishTarget(disk, t, overwrite, fault);
            Recoverable(r.disk, t, content) && (r.ok ==> Done(r.disk, t, content))
  {
  }

  lemma OnlyItsPaths(disk: Disk, t: Target, overwrite: bool, fault: Fault, path: Path)
    requires path != t.temp && path != t.final
    ensures Get(PublishTarget(disk, t, overwrite, fault).disk, path) == Get(disk, path)
  {
  }

  /**
   What a successful call leaves under the final name: the staged file, or, when there was none,
   whatever already stood there.  With neither, no call succeeds.
   */
  lemma PublishedContent(disk: Disk, t: Target, overwrite: bool, fault: Fault)
    requires t.temp != t.final
    ensures var r := PublishTarget(disk, t, overwrite, fault);
            && (r.ok ==> t.temp !in r.disk && t.final in r.disk
                         && (t.temp in disk ==> r.disk[t.final] == disk[t.temp])
                         && (t.temp !in disk ==> t.final in disk && r.disk == disk))
            && (t.temp !in disk && t.final !in disk ==> !r.ok)
  {
  }

  // ── one attempt ───────────────────────────────────────────────────────────

  type Faults = Path -> Fault

  datatype Attempt = Attempt(disk: Disk, confirmed: set<Path>, ok: bool)

  /** In order, skipping confirmed targets, up to the first failure. */
  function Publish(disk: Disk, confirmed: set<Path>, targets: seq<Target>, overwrite: bool, faults: Faults): Attempt
    decreases |targets|
  {
    if targets == [] then Attempt(disk, confirmed, true)
    else if targets[0].final in confirmed then Publish(disk, confirmed, targets[1..], overwrite, faults)
    else
      var r := PublishTarget(disk, targets[0], overwrite, faults(targets[0].final));
      if r.ok then Publish(r.disk, confirmed + {targets[0].final}, targets[1..], overwrite, faults)
      else Attempt(r.disk, confirmed, false)
  }

  /** Different targets share no path, and no staged file is another target's final. */
  predicate Apart(targets: seq<Target>) {
    forall t, u | t in targets && u in targets ::
      t.temp != u.final && (t.temp == u.temp ==> t == u) && (t.final == u.final ==> t == u)
  }

  /** `staged` is the disk as it was when the unit was complete and nothing published. */
  predicate Inv(staged: Disk, disk: Disk, confirmed: set<Path>, targets: seq<Target>) {
    forall t | t in targets ::
      t.temp in staged && Recoverable(disk, t, staged[t.temp])
      && (t.final in confirmed ==> Done(disk, t, staged[t.temp]))
  }

  predicate SameAt(a: Disk, b: Disk, t: Target) {
    Get(a, t.temp) == Get(b, t.temp) && Get(a, t.final) == Get(b, t.final)
  }

  lemma TargetKeepsInv(staged: Disk, disk: Disk, confirmed: set<Path>, all: seq<Target>, t: Target,
                       overwrite: bool, fault: Fault)
    requires Apart(all) && Inv(staged, disk, confirmed, all) && t in all && t.final !in confirmed
    ensures var r := PublishTarget(disk, t, overwrite, fault);
            && Inv(staged, r.disk, confirmed, all)
            && (r.ok ==> Inv(staged, r.disk, confirmed + {t.final}, all))
  {
    var r := PublishTarget(disk, t, overwrite, fault);
    TargetStaysRecoverable(disk, t, staged[t.temp], overwrite, fault);
    forall u | u in all && u != t ensures SameAt(disk, r.disk, u) {
      OnlyItsPaths(disk, t, overwrite, fault, u.temp);
      OnlyItsPaths(disk, t, overwrite, fault, u.final);
    }
    InvAfter(staged, disk, r.disk, confirmed, all, t, r.ok);
  }

  lemma InvAfter(staged: Disk, disk: Disk, disk': Disk, confirmed: set<Path>, all: seq<Target>, t: Target, ok: bool)
    requires Inv(staged, disk, confirmed, all) && t in all && t.final !in confirmed && Apart(all)
    requires Recoverable(disk', t, staged[t.temp]) && (ok ==> Done(disk', t, staged[t.temp]))
    requires forall u | u in all && u != t :: SameAt(disk, disk', u)
    ensures Inv(staged, disk', confirmed, all) && (ok ==> Inv(staged, disk', confirmed + {t.final}, all))
  {
    forall u | u in all
      ensures Recoverable(disk', u, staged[u.temp])
      ensures u.final in confirmed ==> Done(disk', u, staged[u.temp])
      ensures ok && u.final in confirmed + {t.final} ==> Done(disk', u, staged[u.temp])
    {
      if u != t {
        assert SameAt(disk, disk', u);
      }
    }
  }

  predicate AllConfirmed(targets: seq<Target>, confirmed: set<Path>) {
    forall t | t in targets :: t.final in confirmed
  }

  lemma {:induction false} AttemptKeepsInv(staged: Disk, disk: Disk, confirmed: set<Path>, all: seq<Target>,
                                           targets: seq<Target>, overwrite: bool, faults: Faults)
    requires Apart(all) && Inv(staged, disk, confirmed, all) && forall t | t in targets :: t in all
    ensures var a := Publish(disk, confirmed, targets, overwrite, faults);
            && Inv(staged, a.disk, a.confirmed, all) && confirmed <= a.confirmed
            && (a.ok ==> AllConfirmed(targets, a.confirmed))
    decreases |targets|
  {
    if targets != [] {
      var (t, rest) := (targets[0], targets[1..]);
      assert targets == [t] + rest;
      if t.final in confirmed {
        AttemptKeepsInv(staged, disk, confirmed, all, rest, overwrite, faults);
      } else {
        var r := PublishTarget(disk, t, overwrite, faults(t.final));
        TargetKeepsInv(staged, disk, confirmed, all, t, overwrite, faults(t.final));
        if r.ok {
          AttemptKeepsInv(staged, r.disk, confirmed + {t.final}, all, rest, overwrite, faults);
        }
      }
    }
  }

  // ── any number of attempts ────────────────────────────────────────────────

  datatype Event = Try(faults: Faults) | Elsewhere(path: Path, content: Option<Payloads.Bytes>)

  predicate Owned(targets: seq<Target>, path: Path) {
    exists t | t in targets :: t.temp == path || t.final == path
  }

  datatype State = State(disk: Disk, confirmed: set<Path>)

  /** Between attempts anything may happen to files that are not the unit's. */
  function Step(s: State, targets: seq<Target>, overwrite: bool, e: Event): State {
    match e
    case Try(faults) =>
      var a := Publish(s.disk, s.confirmed, targets, overwrite, faults);
      State(a.disk, a.confirmed)
    case Elsewhere(path, content) =>
      if Owned(targets, path) then s
      else s.(disk := if content.Some? then s.disk[path := content.value] else s.disk - {path})
  }

  function Run(s: State, targets: seq<Target>, overwrite: bool, es: seq<Event>): State {
    if es == [] then s else Step(Run(s, targets, overwrite, es[..|es| - 1]), targets, overwrite, es[|es| - 1])
  }

  lemma StepKeepsInv(staged: Disk, s: State, targets: seq<Target>, overwrite: bool, e: Event)
    requires Apart(targets) && Inv(staged, s.disk, s.confirmed, targets)
    ensures var s' := Step(s, targets, overwrite, e);
            Inv(staged, s'.disk, s'.confirmed, targets) && s.confirmed <= s'.confirmed
  {
    match e {
      case Try(faults) => AttemptKeepsInv(staged, s.disk, s.confirmed, targets, targets, overwrite, faults);
      case Elsewhere(path, content) =>
        var s' := Step(s, targets, overwrite, e);
        forall t | t in targets
          ensures Recoverable(s'.disk, t, staged[t.temp])
          ensures t.final in s.confirmed ==> Done(s'.disk, t, staged[t.temp])
        {
          assert Owned(targets, t.temp) && Owned(targets, t.final);
        }
    }
  }

  /** From any state the invariant holds in, confirmations are never taken back. */
  lemma {:induction false} RunKeepsInv(staged: Disk, s: State, targets: seq<Target>, overwrite: bool, es: seq<Event>)
    requires Apart(targets) && Inv(staged, s.disk, s.confirmed, targets)
    ensures var s' := Run(s, targets, overwrite, es);
            Inv(staged, s'.disk, s'.confirmed, targets) && s.confirmed <= s'.confirmed
  {
    if es != [] {
      RunKeepsInv(staged, s, targets, overwrite, es[..|es| - 1]);
      StepKeepsInv(staged, Run(s, targets, overwrite, es[..|es| - 1]), targets, overwrite, es[|es| - 1]);
    }
  }

  /** The unit is complete on disk and publication has not begun. */
  predicate Ready(disk: Disk, targets: seq<Target>) {
    Apart(targets) && forall t | t in targets :: t.temp in disk
  }

  /**
   Under any schedule of failures, with anything happening to other files in between, an attempt
   that returns has every target confirmed and every final file holding exactly its staged content.
   */
  lemma ReturnedMeansPublished(staged: Disk, targets: seq<Target>, overwrite: bool, es: seq<Event>, faults: Faults)
    requires Ready(staged, targets)
    ensures var s := Run(State(staged, {}), targets, overwrite, es);
            var a := Publish(s.disk, s.confirmed, targets, overwrite, faults);
            a.ok ==> AllConfirmed(targets, a.confirmed)
                     && forall t | t in targets :: Done(a.disk, t, staged[t.temp])
  {
    RunKeepsInv(staged, State(staged, {}), targets, overwrite, es);
    var s := Run(State(staged, {}), targets, overwrite, es);
    AttemptKeepsInv(staged, s.disk, s.confirmed, targets, targets, overwrite, faults);
  }

  /** Once a target is confirmed, no later run changes its final file. */
  lemma ConfirmedStays(staged: Disk, targets: seq<Target>, overwrite: bool, es: seq<Event>, more: seq<Event>, t: Target)
    requires Ready(staged, targets) && t in targets
    requires t.final in Run(State(staged, {}), targets, overwrite, es).confirmed
    ensures var s' := Run(Run(State(staged, {}), targets, overwrite, es), targets, overwrite, more);
            t.final in s'.confirmed && Done(s'.disk, t, staged[t.temp])
  {
    RunKeepsInv(staged, State(staged, {}), targets, overwrite, es);
    RunKeepsInv(staged, Run(State(staged, {}), targets, overwrite, es), targets, overwrite, more);
  }

  // ── giving up ─────────────────────────────────────────────────────────────

  function Discard(disk: Disk, confirmed: set<Path>, targets: seq<Target>): Disk {
    if targets == [] then disk else
      Discard(if targets[0].final in confirmed then disk else disk - {targets[0].temp}, confirmed, targets[1..])
  }

  predicate Unconfirmed(targets: seq<Target>, confirmed: set<Path>, path: Path) {
    exists t | t in targets :: t.final !in confirmed && t.temp == path
  }

  /** Discarding removes the staged files of unconfirmed targets and nothing else. */
  lemma {:induction false} DiscardRemovesOnlyTemps(disk: Disk, confirmed: set<Path>, targets: seq<Target>, path: Path)
    ensures Get(Discard(disk, confirmed, targets), path)
            == if Unconfirmed(targets, confirmed, path) then None else Get(disk, path)
    decreases |targets|
  {
    if targets != [] {
      var (t, rest) := (targets[0], targets[1..]);
      assert targets == [t] + rest;
      DiscardRemovesOnlyTemps(if t.final in confirmed then disk else disk - {t.temp}, confirmed, rest, path);
    }
  }

  /** An abort at any point keeps every confirmed final as published. */
  lemma AbortKeepsConfirmed(staged: Disk, targets: seq<Target>, overwrite: bool, es: seq<Event>, t: Target)
    requires Ready(staged, targets) && t in targets
    requires t.final in Run(State(staged, {}), targets, overwrite, es).confirmed
    ensures var s := Run(State(staged, {}), targets, overwrite, es);
            var disk := Discard(s.disk, s.confirmed, targets);
            t.final in disk && disk[t.final] == staged[t.temp]
  {
    RunKeepsInv(staged, State(staged, {}), targets, overwrite, es);
    var s := Run(State(staged, {}), targets, overwrite, es);
    DiscardRemovesOnlyTemps(s.disk, s.confirmed, targets, t.final);
    assert !Unconfirmed(targets, s.confirmed, t.final);
  }

  // ── an older file under the final name ────────────────────────────────────

  /** The attempt gets as far as this target: every unconfirmed one before it succeeds. */
  predicate Reaches(disk: Disk, confirmed: set<Path>, targets: seq<Target>, overwrite: bool, faults: Faults, t: Target)
    decreases |targets|
  {
    targets != [] &&
    if targets[0].final in confirmed then Reaches(disk, confirmed, targets[1..], overwrite, faults, t)
    else
      targets[0] == t ||
      var r := PublishTarget(disk, targets[0], overwrite, faults(targets[0].final));
      r.ok && Reaches(r.disk, confirmed + {targets[0].final}, targets[1..], overwrite, faults, t)
  }

  /** It replaces, or at least unlinks, what stands under the final name. */
  predicate Displaces(s: State, targets: seq<Target>, overwrite: bool, faults: Faults, t: Target) {
    && overwrite && Reaches(s.disk, s.confirmed, targets, overwrite, faults, t)
    && faults(t.final) != FsyncFails && faults(t.final) != UnlinkFails
  }

  /** Staged, not yet published, and an older file with other content under the final name. */
  predicate Pending(disk: Disk, confirmed: set<Path>, t: Target, older: Payloads.Bytes) {
    && t.temp in disk && t.final !in confirmed && t.temp != t.final
    && t.final in disk && disk[t.final] == older && disk[t.temp] != older
  }

  predicate Beside(u: Target, t: Target) {
    u.temp != t.temp && u.temp != t.final && u.final != t.temp && u.final != t.final
  }

  predicate Alone(targets: seq<Target>, t: Target) {
    forall u | u in targets :: u == t || Beside(u, t)
  }

  lemma OthersLeaveTarget(disk: Disk, u: Target, t: Target, overwrite: bool, fault: Fault)
    requires Beside(u, t)
    ensures SameAt(disk, PublishTarget(disk, u, overwrite, fault).disk, t)
  {
    OnlyItsPaths(disk, u, overwrite, fault, t.temp);
    OnlyItsPaths(disk, u, overwrite, fault, t.final);
  }

  /** Once confirmed, a target is passed over and the rest of the attempt touches neither of its paths. */
  lemma {:induction false} ConfirmedPassedOver(disk: Disk, confirmed: set<Path>, targets: seq<Target>, overwrite: bool,
                                               faults: Faults, t: Target)
    requires Alone(targets, t) && t.final in confirmed
    ensures SameAt(disk, Publish(disk, confirmed, targets, overwrite, faults).disk, t)
    decreases |targets|
  {
    if targets != [] {
      var (u, rest) := (targets[0], targets[1..]);
      assert u in targets && Alone(rest, t);
      if u.final in confirmed {
        ConfirmedPassedOver(disk, confirmed, rest, overwrite, faults, t);
      } else {
        var r := PublishTarget(disk, u, overwrite, faults(u.final));
        OthersLeaveTarget(disk, u, t, overwrite, faults(u.final));
        if r.ok {
          ConfirmedPassedOver(r.disk, confirmed + {u.final}, rest, overwrite, faults, t);
        }
      }
    }
  }

  /** What one call does to an older file under its final name. */
  lemma TargetDisplacesIff(disk: Disk, confirmed: set<Path>, t: Target, older: Payloads.Bytes, overwrite: bool,
                           fault: Fault)
    requires Pending(disk, confirmed, t, older)
    ensures var r := PublishTarget(disk, t, overwrite, fault);
            if overwrite && fault != FsyncFails && fault != UnlinkFails then Get(r.disk, t.final) != Some(older)
            else !r.ok && r.disk == disk
  {
  }

  lemma {:induction false} AttemptDisplacesIff(disk: Disk, confirmed: set<Path>, targets: seq<Target>, overwrite: bool,
                                               faults: Faults, t: Target, older: Payloads.Bytes)
    requires Alone(targets, t) && Pending(disk, confirmed, t, older)
    ensures var a := Publish(disk, confirmed, targets, overwrite, faults);
            if Displaces(State(disk, confirmed), targets, overwrite, faults, t) then Get(a.disk, t.final) != Some(older)
            else Pending(a.disk, a.confirmed, t, older)
    decreases |targets|
  {
    if targets != [] {
      var (u, rest) := (targets[0], targets[1..]);
      assert u in targets && Alone(rest, t);
      if u.final in confirmed {
        AttemptDisplacesIff(disk, confirmed, rest, overwrite, faults, t, older);
      } else if u == t {
        TargetDisplacesIff(disk, confirmed, t, older, overwrite, faults(t.final));
        var r := PublishTarget(disk, t, overwrite, faults(t.final));
        if r.ok {
          ConfirmedPassedOver(r.disk, confirmed + {t.final}, rest, overwrite, faults, t);
        }
      } else {
        OthersLeaveTarget(disk, u, t, overwrite, faults(u.final));
        var r := PublishTarget(disk, u, overwrite, faults(u.final));
        if r.ok {
          AttemptDisplacesIff(r.disk, confirmed + {u.final}, rest, overwrite, faults, t, older);
        }
      }
    }
  }

  /** The older content is under neither name. */
  predicate Displaced(disk: Disk, t: Target, older: Payloads.Bytes) {
    Get(disk, t.final) != Some(older) && Get(disk, t.temp) != Some(older)
  }

  lemma TargetNeverRestores(disk: Disk, t: Target, older: Payloads.Bytes, overwrite: bool, fault: Fault)
    requires Displaced(disk, t, older)
    ensures Displaced(PublishTarget(disk, t, overwrite, fault).disk, t, older)
  {
  }

  lemma {:induction false} AttemptNeverRestores(disk: Disk, confirmed: set<Path>, targets: seq<Target>, overwrite: bool,
                                                faults: Faults, t: Target, older: Payloads.Bytes)
    requires Alone(targets, t) && Displaced(disk, t, older)
    ensures Displaced(Publish(disk, confirmed, targets, overwrite, faults).disk, t, older)
    decreases |targets|
  {
    if targets != [] {
      var (u, rest) := (targets[0], targets[1..]);
      assert u in targets && Alone(rest, t);
      if u.final in confirmed {
        AttemptNeverRestores(disk, confirmed, rest, overwrite, faults, t, older);
      } else {
        var r := PublishTarget(disk, u, overwrite, faults(u.final));
        if u == t {
          TargetNeverRestores(disk, t, older, overwrite, faults(t.final));
        } else {
          OthersLeaveTarget(disk, u, t, overwrite, faults(u.final));
        }
        if r.ok {
          AttemptNeverRestores(r.disk, confirmed + {u.final}, rest, overwrite, faults, t, older);
        }
      }
    }
  }

  /** No attempt of the run displaced what stood under the final name. */
  predicate NeverDisplaced(s: State, targets: seq<Target>, overwrite: bool, es: seq<Event>, t: Target) {
    es == [] ||
    (NeverDisplaced(s, targets, overwrite, es[..|es| - 1], t)
     && (es[|es| - 1].Try? ==>
           !Displaces(Run(s, targets, overwrite, es[..|es| - 1]), targets, overwrite, es[|es| - 1].faults, t)))
  }

  lemma ElsewhereLeavesTarget(s: State, targets: seq<Target>, overwrite: bool, e: Event, t: Target)
    requires e.Elsewhere? && t in targets
    ensures SameAt(s.disk, Step(s, targets, overwrite, e).disk, t)
    ensures Step(s, targets, overwrite, e).confirmed == s.confirmed
  {
    assert Owned(targets, t.temp) && Owned(targets, t.final);
  }

  lemma {:induction false} OlderFinalIff(disk: Disk, targets: seq<Target>, overwrite: bool, es: seq<Event>, t: Target,
                                         older: Payloads.Bytes)
    requires Alone(targets, t) && t in targets && Pending(disk, {}, t, older)
    ensures var s := Run(State(disk, {}), targets, overwrite, es);
            if NeverDisplaced(State(disk, {}), targets, overwrite, es, t) then Pending(s.disk, s.confirmed, t, older)
            else Displaced(s.disk, t, older)
  {
    if es != [] {
      var (init, e) := (es[..|es| - 1], es[|es| - 1]);
      OlderFinalIff(disk, targets, overwrite, init, t, older);
      var s := Run(State(disk, {}), targets, overwrite, init);
      OlderFinalStep(s, targets, overwrite, e, t, older, NeverDisplaced(State(disk, {}), targets, overwrite, init, t));
    }
  }

  lemma OlderFinalStep(s: State, targets: seq<Target>, overwrite: bool, e: Event, t: Target, older: Payloads.Bytes,
                       kept: bool)
    requires Alone(targets, t) && t in targets
    requires if kept then Pending(s.disk, s.confirmed, t, older) else Displaced(s.disk, t, older)
    ensures var s' := Step(s, targets, overwrite, e);
            if kept && (e.Try? ==> !Displaces(s, targets, overwrite, e.faults, t))
            then Pending(s'.disk, s'.confirmed, t, older) else Displaced(s'.disk, t, older)
  {
    if e.Elsewhere? {
      ElsewhereLeavesTarget(s, targets, overwrite, e, t);
    } else if kept {
      AttemptDisplacesIff(s.disk, s.confirmed, targets, overwrite, e.faults, t, older);
      AttemptKeepsTemp(s.disk, s.confirmed, targets, overwrite, e.faults, t, older);
    } else {
      AttemptNeverRestores(s.disk, s.confirmed, targets, overwrite, e.faults, t, older);
    }
  }

  /** Nothing is ever written to a staging name. */
  lemma {:induction false} AttemptKeepsTemp(disk: Disk, confirmed: set<Path>, targets: seq<Target>, overwrite: bool,
                                            faults: Faults, t: Target, older: Payloads.Bytes)
    requires Alone(targets, t) && t.temp != t.final && Get(disk, t.temp) != Some(older)
    ensures Get(Publish(disk, confirmed, targets, overwrite, faults).disk, t.temp) != Some(older)
    decreases |targets|
  {
    if targets != [] {
      var (u, rest) := (targets[0], targets[1..]);
      assert u in targets && Alone(rest, t);
      if u.final in confirmed {
        AttemptKeepsTemp(disk, confirmed, rest, overwrite, faults, t, older);
      } else {
        var r := PublishTarget(disk, u, overwrite, faults(u.final));
        if u != t {
          OthersLeaveTarget(disk, u, t, overwrite, faults(u.final));
        }
        if r.ok {
          AttemptKeepsTemp(r.disk, confirmed + {u.final}, rest, overwrite, faults, t, older);
        }
      }
    }
  }

  /**
   An older file under a target's final name survives an abort exactly when no attempt before it
   displaced that file: overwriting is off, or no attempt got to the target without failing at the
   fsync of the staged file or at the unlink.
   */
  lemma OlderFinalSurvivesAbortIff(staged: Disk, targets: seq<Target>, overwrite: bool, es: seq<Event>, t: Target,
                                   older: Payloads.Bytes)
    requires Ready(staged, targets) && t in targets && Pending(staged, {}, t, older)
    ensures var s := Run(State(staged, {}), targets, overwrite, es);
            Get(Discard(s.disk, s.confirmed, targets), t.final) == Some(older) <==>
            NeverDisplaced(State(staged, {}), targets, overwrite, es, t)
  {
    var s := Run(State(staged, {}), targets, overwrite, es);
    assert Alone(targets, t);
    OlderFinalIff(staged, targets, overwrite, es, t, older);
    DiscardRemovesOnlyTemps(s.disk, s.confirmed, targets, t.final);
    assert !Unconfirmed(targets, s.confirmed, t.final);
  }

  /** A rename that fails after the unlink, and then an abort: the older file and the staged one are both gone. */
  lemma RenameThenAbortLosesBoth(staged: Disk, t: Target, older: Payloads.Bytes)
    requires Pending(staged, {}, t, older)
    ensures var s := Run(State(staged, {}), [t], true, [Try(_ => RenameFails)]);
            var disk := Discard(s.disk, s.confirmed, [t]);
            t.temp !in disk && t.final !in disk
  {
    var es := [Try((_: Path) => RenameFails)];
    assert es[..0] == [] && [t][1..] == [];
    assert Run(State(staged, {}), [t], true, []) == State(staged, {});
    var a := Publish(staged, {}, [t], true, es[0].faults);
    assert a == Attempt(staged - {t.final}, {}, false);
    assert Discard(a.disk, {}, [t]) == a.disk - {t.temp};
  }

  // ── when an attempt returns ───────────────────────────────────────────────

  const CLEAN: Faults := _ => NoFault

  /** No staged file is waiting for a name that is taken and may not be overwritten. */
  predicate Unblocked(disk: Disk, confirmed: set<Path>, targets: seq<Target>, overwrite: bool) {
    overwrite || forall t | t in targets && t.final !in confirmed && t.temp in disk :: t.final !in disk
  }

  lemma CleanTargetOkIff(disk: Disk, t: Target, overwrite: bool, content: Payloads.Bytes)
    requires Recoverable(disk, t, content)
    ensures PublishTarget(disk, t, overwrite, NoFault).ok <==> (t.temp in disk ==> overwrite || t.final !in disk)
  {
  }

  lemma UnblockedRest(disk: Disk, disk': Disk, confirmed: set<Path>, all: seq<Target>, t: Target,
                      rest: seq<Target>, overwrite: bool)
    requires Apart(all) && t in all && forall u | u in rest :: u in all
    requires forall u | u in all && u != t :: SameAt(disk, disk', u)
    ensures Unblocked(disk', confirmed + {t.final}, rest, overwrite) <==>
            Unblocked(disk, confirmed + {t.final}, rest, overwrite)
  {
    forall u | u in rest && u.final !in confirmed + {t.final} ensures SameAt(disk, disk', u) {
    }
  }

  lemma UnblockedSplit(disk: Disk, confirmed: set<Path>, t: Target, rest: seq<Target>, overwrite: bool)
    requires Apart([t] + rest)
    ensures Unblocked(disk, confirmed, [t] + rest, overwrite) <==>
            && (t.final !in confirmed && t.temp in disk ==> overwrite || t.final !in disk)
            && Unblocked(disk, confirmed + {t.final}, rest, overwrite)
  {
    if !overwrite {
      if t.final !in confirmed && t.temp in disk && t.final in disk {
        assert t in [t] + rest;
      }
      forall u | u in rest && u.final == t.final ensures u == t {
        assert u in [t] + rest && t in [t] + rest;
      }
      forall u | u in rest ensures u in [t] + rest {
      }
    }
  }

  /** With no fault, an attempt returns exactly when no name is blocked; so retrying ends. */
  lemma {:induction false} CleanAttemptReturnsIff(staged: Disk, disk: Disk, confirmed: set<Path>, all: seq<Target>,
                                                  targets: seq<Target>, overwrite: bool)
    requires Apart(all) && Inv(staged, disk, confirmed, all) && forall t | t in targets :: t in all
    ensures Publish(disk, confirmed, targets, overwrite, CLEAN).ok <==> Unblocked(disk, confirmed, targets, overwrite)
    decreases |targets|
  {
    if targets != [] {
      var (t, rest) := (targets[0], targets[1..]);
      assert targets == [t] + rest;
      UnblockedSplit(disk, confirmed, t, rest, overwrite);
      if t.final in confirmed {
        assert confirmed + {t.final} == confirmed;
        CleanAttemptReturnsIff(staged, disk, confirmed, all, rest, overwrite);
      } else {
        var r := PublishTarget(disk, t, overwrite, NoFault);
        CleanTargetOkIff(disk, t, overwrite, staged[t.temp]);
        if r.ok {
          TargetKeepsInv(staged, disk, confirmed, all, t, overwrite, NoFault);
          forall u | u in all && u != t ensures SameAt(disk, r.disk, u) {
            OnlyItsPaths(disk, t, overwrite, NoFault, u.temp);
            OnlyItsPaths(disk, t, overwrite, NoFault, u.final);
          }
          UnblockedRest(disk, r.disk, confirmed, all, t, rest, overwrite);
          CleanAttemptReturnsIff(staged, r.disk, confirmed + {t.final}, all, rest, overwrite);
        }
      }
    }
  }

  /** A target whose staged file never came to be is confirmed on whatever final file stands there. */
  lemma MissingTempConfirmsStaleFinal(disk: Disk, t: Target, overwrite: bool)
    requires t.temp !in disk && t.final in disk
    ensures Publish(disk, {}, [t], overwrite, CLEAN) == Attempt(disk, {t.final}, true)
  {
    assert [t][1..] == [];
    assert Publish(disk, {t.final}, [], overwrite, CLEAN) == Attempt(disk, {t.final}, true);
    assert {} + {t.final} == {t.final};
  }

  // ── the classes ───────────────────────────────────────────────────────────

  class FileSystem {
    var disk: Disk

    method Rename(t: Target, overwrite: bool, fault: Fault) returns (ok: bool)
      modifies this
      ensures Result(disk, ok) == Replace(old(disk), t, overwrite, fault)
    {
      if t.temp !in disk {
        return true;
      }
      var content := disk[t.temp];
      if t.final in disk {
        if !overwrite || fault == UnlinkFails {
          return false;
        }
        disk := disk - {t.final};
      }
      if fault == RenameFails {
        assert disk == old(disk) - {t.final};
        return false;
      }
      disk := (disk - {t.temp})[t.final := content];
      assert disk == (old(disk) - {t.final, t.temp})[t.final := content];
      ok := true;
    }
  }

  class Manifest {
    var targets: seq<Target>
    var confirmed: set<Path>

    method PublishStaged(fs: FileSystem, t: Target, overwrite: bool, fault: Fault) returns (ok: bool)
      modifies fs
      ensures Result(fs.disk, ok) == PublishTarget(old(fs.disk), t, overwrite, fault)
    {
      var finalExists := t.final in fs.disk;
      if t.temp in fs.disk {
        if fault == FsyncFails {
          return false;
        }
        ok := fs.Rename(t, overwrite, fault);
        ok := ok && fault != DirSyncFails;
      } else if finalExists {
        ok := fault != FsyncFails && fault != DirSyncFails;
      } else {
        ok := false;
      }
    }

    method PublishAll(fs: FileSystem, overwrite: bool, faults: Faults) returns (ok: bool)
      modifies this`confirmed, fs
      ensures Attempt(fs.disk, confirmed, ok) == Publish(old(fs.disk), old(confirmed), targets, overwrite, faults)
    {
      ghost var whole := Publish(fs.disk, confirmed, targets, overwrite, faults);
      assert targets[0..] == targets;
      var i := 0;
      while i < |targets|
        invariant i <= |targets|
        invariant Publish(fs.disk, confirmed, targets[i..], overwrite, faults) == whole
      {
        var t := targets[i];
        assert targets[i..][0] == t && targets[i..][1..] == targets[i + 1..];
        if t.final !in confirmed {
          var published := PublishStaged(fs, t, overwrite, faults(t.final));
          if !published {
            return false;
          }
          confirmed := confirmed + {t.final};
        }
        i := i + 1;
      }
      ok := true;
    }

    method DiscardAll(fs: FileSystem)
      modifies fs
      ensures fs.disk == Discard(old(fs.disk), confirmed, targets)
    {
      assert targets[0..] == targets;
      var i := 0;
      while i < |targets|
        invariant i <= |targets|
        invariant Discard(fs.disk, confirmed, targets[i..]) == Discard(old(fs.disk), confirmed, targets)
      {
        assert targets[i..][0] == targets[i] && targets[i..][1..] == targets[i + 1..];
        if targets[i].final !in confirmed {
          fs.disk := fs.disk - {targets[i].temp};
        }
        i := i + 1;
      }
    }
  }
}
