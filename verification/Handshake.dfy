/**
 Rotation of the manager-worker session secret.  Every handshake makes the worker mint a fresh
 secret and keep the one before it; the reply that carries it to the manager may be lost.
 */
module Handshake {
  import opened Basics
  import opened AuthTokens

  /** The worker's secrets, as the app state holds them. */
  class Secrets {
    var current: string
    var previous: Option<string>

    constructor (bootstrap: string)
      ensures current == bootstrap && previous == None
    {
      current, previous := bootstrap, None;
    }

    method Rotate(minted: string) returns (reply: string)
      modifies this
      ensures Worker(current, previous) == Rotated(old(Worker(current, previous)), minted)
      ensures reply == current
    {
      previous := if current != "" then Some(current) else None;
      current := minted;
      reply := minted;
    }
  }

  datatype Worker = Worker(current: string, previous: Option<string>)

  function Rotated(w: Worker, minted: string): Worker {
    Worker(minted, if w.current != "" then Some(w.current) else None)
  }

  /** Both ends; `lost` counts the replies lost since the last one the manager received. */
  datatype Link = Link(worker: Worker, manager: Option<string>, lost: nat, used: set<string>)

  datatype Exchange = Exchange(minted: string, delivered: bool)

  function Start(bootstrap: string): Link {
    Link(Worker(bootstrap, None), None, 0, {bootstrap})
  }

  function Exchanged(l: Link, e: Exchange): Link {
    Link(Rotated(l.worker, e.minted),
         if e.delivered then Some(e.minted) else l.manager,
         if e.delivered then 0 else l.lost + 1,
         l.used + {e.minted})
  }

  function Play(l: Link, es: seq<Exchange>): Link {
    if es == [] then l else Exchanged(Play(l, es[..|es| - 1]), es[|es| - 1])
  }

  /** `secrets.token_hex`: nonempty, and no secret is drawn twice. */
  predicate AllFresh(l: Link, es: seq<Exchange>) {
    && (forall i | 0 <= i < |es| :: es[i].minted != "" && es[i].minted !in l.used)
    && (forall i, j | 0 <= i < j < |es| :: es[i].minted != es[j].minted)
  }

  predicate Known(l: Link, secret: string) {
    secret == l.worker.current || l.worker.previous == Some(secret)
  }

  predicate Inv(l: Link) {
    && l.worker.current in l.used
    && (l.worker.previous.Some? ==> l.worker.previous.value in l.used && l.worker.previous.value != l.worker.current)
    && (l.manager.Some? ==>
          && l.manager.value in l.used && l.manager.value != ""
          && (l.lost == 0 <==> l.manager.value == l.worker.current)
          && (l.lost == 1 <==> l.worker.previous == l.manager))
  }

  lemma {:induction false} PlayUses(l: Link, es: seq<Exchange>)
    ensures Play(l, es).used == l.used + set i | 0 <= i < |es| :: es[i].minted
  {
    if es != [] {
      PlayUses(l, es[..|es| - 1]);
      assert forall i | 0 <= i < |es| - 1 :: es[..|es| - 1][i] == es[i];
    }
  }

  lemma {:induction false} PlayKeepsInv(bootstrap: string, es: seq<Exchange>)
    requires AllFresh(Start(bootstrap), es)
    ensures Inv(Play(Start(bootstrap), es))
  {
    if es != [] {
      var init := es[..|es| - 1];
      PlayKeepsInv(bootstrap, init);
      PlayUses(Start(bootstrap), init);
      assert es[|es| - 1].minted !in Play(Start(bootstrap), init).used;
    }
  }

  /** The manager's secret is one the worker still accepts exactly while at most one reply was lost. */
  lemma SecretKnownIff(bootstrap: string, es: seq<Exchange>)
    requires AllFresh(Start(bootstrap), es)
    ensures var l := Play(Start(bootstrap), es);
            l.manager.Some? ==> (Known(l, l.manager.value) <==> l.lost <= 1)
  {
    PlayKeepsInv(bootstrap, es);
  }

  /** So any in-bounds token the manager mints then is accepted with exactly its fields. */
  lemma ManagerTokenAccepted(bootstrap: string, es: seq<Exchange>, f: Fields, env: Env, sign: Sign)
    requires AllFresh(Start(bootstrap), es) && HexLike(sign) && SeparatorFree(Parts(f)) && InBounds(f, env)
    requires var l := Play(Start(bootstrap), es);
             && l.manager.Some? && l.lost <= 1
             && env.current == l.worker.current && env.previous == l.worker.previous
    ensures var l := Play(Start(bootstrap), es);
            Mint(f, l.manager.value, sign).Some? &&
            Validate(Mint(f, l.manager.value, sign).value, env, sign) == Accepted(f)
  {
    var l := Play(Start(bootstrap), es);
    PlayKeepsInv(bootstrap, es);
    MintThenValidate(f, l.manager.value, env, sign);
  }
}
