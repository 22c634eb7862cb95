/**
 The bridge queue bounded by item count and payload bytes, and the wakeup protocol of its
 blocking put and get: one mutex, two conditions, one notification per operation.
 */
module BridgeQueue {
  import opened Basics

  /** A queued item; `Unsized` payloads have no length and count as zero bytes. */
  datatype Item = Sized(payload: seq<int>) | Unsized

  function Size(item: Item): nat {
    if item.Sized? then |item.payload| else 0
  }

  function Total(items: seq<Item>): nat {
    if items == [] then 0 else Total(items[..|items| - 1]) + Size(items[|items| - 1])
  }

  lemma {:induction false} TotalSplit(items: seq<Item>)
    requires items != []
    ensures Total(items) == Size(items[0]) + Total(items[1..])
  {
    if |items| == 1 {
      assert items[..0] == [] && items[1..] == [];
    } else {
      TotalSplit(items[..|items| - 1]);
      assert items[..|items| - 1][1..] == items[1..][..|items| - 2];
    }
  }

  lemma TotalGrown(items: seq<Item>, item: Item)
    ensures Total(items + [item]) == Total(items) + Size(item)
  {
    assert (items + [item])[..|items|] == items;
  }

  /** Bounds; zero or less means unbounded, as in the source. */
  datatype Bounds = Bounds(count: int, bytes: int)

  predicate RoomFor(b: Bounds, queued: nat, bytes: int, item: Item) {
    (b.count <= 0 || queued < b.count) && (b.bytes <= 0 || bytes + Size(item) <= b.bytes)
  }

  // ── the locked sections ───────────────────────────────────────────────────

  class Queue {
    const bounds: Bounds
    var items: seq<Item>
    var bytes: int

    predicate Valid()
      reads this
    {
      && bytes == Total(items)
      && (bounds.count > 0 ==> |items| <= bounds.count)
      && (bounds.bytes > 0 ==> bytes <= bounds.bytes)
    }

    constructor (maxCount: int, maxBytes: int)
      ensures Valid() && items == [] && bounds == Bounds(maxCount, maxBytes)
    {
      bounds, items, bytes := Bounds(maxCount, maxBytes), [], 0;
    }

    /** One pass of `put` under the mutex: it appends exactly when both bounds leave room. */
    method TryPut(item: Item) returns (ok: bool)
      requires Valid()
      modifies this
      ensures Valid() && ok == RoomFor(bounds, |old(items)|, old(bytes), item)
      ensures items == if ok then old(items) + [item] else old(items)
    {
      ok := true;
      if bounds.count > 0 || bounds.bytes > 0 {
        ok := (bounds.count <= 0 || |items| < bounds.count)
              && (bounds.bytes <= 0 || bytes + Size(item) <= bounds.bytes);
      }
      if ok {
        TotalGrown(items, item);
        items := items + [item];
        bytes := bytes + Size(item);
      }
    }

    method TryGet() returns (item: Option<Item>)
      requires Valid()
      modifies this
      ensures Valid()
      ensures old(items) == [] ==> item == None && items == []
      ensures old(items) != [] ==> item == Some(old(items)[0]) && items == old(items)[1..]
    {
      if items == [] {
        return None;
      }
      TotalSplit(items);
      item := Some(items[0]);
      items := items[1..];
      bytes := bytes - Size(item.value);
    }
  }

  // ── threads around it ─────────────────────────────────────────────────────

  /**
   `blocked` producers sleep on not-full with the item they hold; `woken` ones were notified and
   have yet to retake the mutex; likewise `idle` and `alerted` consumers on not-empty.
   `accepted` and `taken` are what was ever put and got.
   */
  datatype World = World(items: seq<Item>, bytes: int, blocked: map<nat, Item>, woken: map<nat, Item>,
                         idle: set<nat>, alerted: set<nat>, accepted: seq<Item>, taken: seq<Item>)

  const START := World([], 0, map[], map[], {}, {}, [], [])

  /** `wake` is the thread the operation's single notify picks, if any sleeps on that condition. */
  datatype Event =
    | PutArrives(p: nat, item: Item, block: bool, wake: nat)
    | PutResumes(p: nat, wake: nat)
    | PutTimesOut(p: nat, wake: nat)
    | GetArrives(c: nat, block: bool, wake: nat)
    | GetResumes(c: nat, wake: nat)
    | GetTimesOut(c: nat, wake: nat)

  function Appended(w: World, item: Item, wake: nat): World {
    w.(items := w.items + [item], bytes := w.bytes + Size(item), accepted := w.accepted + [item],
       idle := w.idle - {wake}, alerted := if wake in w.idle then w.alerted + {wake} else w.alerted)
  }

  function Popped(w: World, wake: nat): World
    requires w.items != []
  {
    w.(items := w.items[1..], bytes := w.bytes - Size(w.items[0]), taken := w.taken + [w.items[0]],
       blocked := w.blocked - {wake},
       woken := if wake in w.blocked then w.woken[wake := w.blocked[wake]] else w.woken)
  }

  predicate NewThread(w: World, n: nat) {
    n !in w.blocked && n !in w.woken && n !in w.idle && n !in w.alerted
  }

  predicate Room(w: World, b: Bounds, item: Item) {
    RoomFor(b, |w.items|, w.bytes, item)
  }

  /** Notification is not optional: it must pick a sleeper whenever there is one. */
  predicate Allowed(w: World, e: Event) {
    match e
    case PutArrives(p, _, _, wake) => NewThread(w, p) && (w.idle != {} ==> wake in w.idle)
    case PutResumes(p, wake) => p in w.woken && (w.idle != {} ==> wake in w.idle)
    case PutTimesOut(p, wake) => (p in w.blocked || p in w.woken) && (w.idle != {} ==> wake in w.idle)
    case GetArrives(c, _, wake) => NewThread(w, c) && (w.blocked.Keys != {} ==> wake in w.blocked)
    case GetResumes(c, wake) => c in w.alerted && (w.blocked.Keys != {} ==> wake in w.blocked)
    case GetTimesOut(c, wake) => (c in w.idle || c in w.alerted) && (w.blocked.Keys != {} ==> wake in w.blocked)
  }

  function HeldItem(w: World, p: nat): Item
    requires p in w.blocked || p in w.woken
  {
    if p in w.woken then w.woken[p] else w.blocked[p]
  }

  function Step(w: World, e: Event, b: Bounds): World {
    if !Allowed(w, e) then w else
      match e
      case PutArrives(p, item, block, wake) =>
        if Room(w, b, item) then Appended(w, item, wake)
        else if block then w.(blocked := w.blocked[p := item]) else w
      case PutResumes(p, wake) =>
        var (item, left) := (w.woken[p], w.(woken := w.woken - {p}));
        if Room(w, b, item) then Appended(left, item, wake) else left.(blocked := left.blocked[p := item])
      case PutTimesOut(p, wake) =>
        // a producer whose time is up checks the bounds once more, and puts if there is room by now
        var (item, left) := (HeldItem(w, p), w.(blocked := w.blocked - {p}, woken := w.woken - {p}));
        if Room(w, b, item) then Appended(left, item, wake) else left
      case GetArrives(c, block, wake) =>
        if w.items != [] then Popped(w, wake) else if block then w.(idle := w.idle + {c}) else w
      case GetResumes(c, wake) =>
        var left := w.(alerted := w.alerted - {c});
        if w.items != [] then Popped(left, wake) else left.(idle := left.idle + {c})
      case GetTimesOut(c, wake) =>
        var left := w.(idle := w.idle - {c}, alerted := w.alerted - {c});
        if w.items != [] then Popped(left, wake) else left
  }

  function Run(w: World, es: seq<Event>, b: Bounds): World {
    if es == [] then w else Step(Run(w, es[..|es| - 1], b), es[|es| - 1], b)
  }

  // ── accounting ────────────────────────────────────────────────────────────

  predicate Accounted(w: World, b: Bounds) {
    && w.bytes == Total(w.items)
    && (b.count > 0 ==> |w.items| <= b.count)
    && (b.bytes > 0 ==> w.bytes <= b.bytes)
    && w.accepted == w.taken + w.items
  }

  /** There is room for an item exactly when the queue with it keeps both bounds. */
  lemma RoomIff(w: World, b: Bounds, item: Item)
    requires Accounted(w, b)
    ensures Room(w, b, item) <==>
            && (b.count > 0 ==> |w.items + [item]| <= b.count)
            && (b.bytes > 0 ==> Total(w.items + [item]) <= b.bytes)
  {
    TotalGrown(w.items, item);
  }

  /** An item without a length needs room by count only. */
  lemma UnsizedNeedsNoBytes(w: World, b: Bounds)
    requires Accounted(w, b)
    ensures Room(w, b, Unsized) <==> (b.count > 0 ==> |w.items| < b.count)
  {
  }

  /** The item a put event brings. */
  function Brought(w: World, e: Event): Item
    requires Allowed(w, e) && (e.PutArrives? || e.PutResumes? || e.PutTimesOut?)
  {
    if e.PutArrives? then e.item else if e.p in w.woken then w.woken[e.p] else w.blocked[e.p]
  }

  /** A put appends its item and notifies exactly when there is room; otherwise it sleeps if it may. */
  lemma PutLaw(w: World, e: Event, b: Bounds)
    requires Allowed(w, e) && (e.PutArrives? || e.PutResumes? || e.PutTimesOut?) && w.blocked.Keys !! w.woken.Keys
    ensures var (item, w') := (Brought(w, e), Step(w, e, b));
            var sleeps := e.PutResumes? || (e.PutArrives? && e.block);
            && w'.taken == w.taken && w'.woken == w.woken - {e.p}
            && (if Room(w, b, item) then
                  && w'.items == w.items + [item] && w'.accepted == w.accepted + [item]
                  && w'.blocked == w.blocked - {e.p} && w'.idle == w.idle - {e.wake}
                  && w'.alerted == w.alerted + (if e.wake in w.idle then {e.wake} else {})
                else
                  && w'.items == w.items && w'.accepted == w.accepted
                  && w'.idle == w.idle && w'.alerted == w.alerted
                  && w'.blocked == if sleeps then w.blocked[e.p := item] else w.blocked - {e.p})
  {
  }

  /** A get takes the first item and notifies exactly when there is one; otherwise it sleeps if it may. */
  lemma GetLaw(w: World, e: Event, b: Bounds)
    requires Allowed(w, e) && (e.GetArrives? || e.GetResumes? || e.GetTimesOut?) && w.idle !! w.alerted
    ensures var w' := Step(w, e, b);
            var sleeps := e.GetResumes? || (e.GetArrives? && e.block);
            && w'.accepted == w.accepted && w'.alerted == w.alerted - {e.c}
            && (if w.items != [] then
                  && w'.items == w.items[1..] && w'.taken == w.taken + [w.items[0]]
                  && w'.idle == w.idle - {e.c} && w'.blocked == w.blocked - {e.wake}
                  && w'.woken == if e.wake in w.blocked then w.woken[e.wake := w.blocked[e.wake]] else w.woken
                else
                  && w'.items == [] && w'.taken == w.taken && w'.blocked == w.blocked && w'.woken == w.woken
                  && w'.idle == if sleeps then w.idle + {e.c} else w.idle - {e.c})
  {
  }

  lemma AppendedAccounted(w: World, item: Item, wake: nat, b: Bounds)
    requires Accounted(w, b) && Room(w, b, item)
    ensures Accounted(Appended(w, item, wake), b)
  {
    var w' := Appended(w, item, wake);
    TotalGrown(w.items, item);
    assert w'.accepted == w'.taken + w'.items;
  }

  lemma PoppedAccounted(w: World, wake: nat, b: Bounds)
    requires Accounted(w, b) && w.items != []
    ensures Accounted(Popped(w, wake), b)
  {
    TotalSplit(w.items);
    assert w.items == [w.items[0]] + w.items[1..];
  }

  lemma StepKeepsAccounted(w: World, e: Event, b: Bounds)
    requires Accounted(w, b)
    ensures Accounted(Step(w, e, b), b)
  {
    if Allowed(w, e) {
      match e {
        case PutArrives(p, item, block, wake) =>
          if Room(w, b, item) { AppendedAccounted(w, item, wake, b); }
        case PutResumes(p, wake) =>
          if Room(w, b, w.woken[p]) { AppendedAccounted(w.(woken := w.woken - {p}), w.woken[p], wake, b); }
        case GetArrives(c, block, wake) =>
          if w.items != [] { PoppedAccounted(w, wake, b); }
        case GetResumes(c, wake) =>
          if w.items != [] { PoppedAccounted(w.(alerted := w.alerted - {c}), wake, b); }
        case PutTimesOut(p, wake) =>
          if Room(w, b, HeldItem(w, p)) {
            AppendedAccounted(w.(blocked := w.blocked - {p}, woken := w.woken - {p}), HeldItem(w, p), wake, b);
          }
        case GetTimesOut(c, wake) =>
          if w.items != [] {
            PoppedAccounted(w.(idle := w.idle - {c}, alerted := w.alerted - {c}), wake, b);
          }
      }
    }
  }

  /**
   In every interleaving the byte counter is the sum of the queued sizes, both bounds hold, and
   what was taken followed by what is queued is exactly what was accepted, in order.
   */
  lemma {:induction false} AccountingAndFifo(es: seq<Event>, b: Bounds)
    ensures Accounted(Run(START, es, b), b)
  {
    if es != [] {
      AccountingAndFifo(es[..|es| - 1], b);
      StepKeepsAccounted(Run(START, es[..|es| - 1], b), es[|es| - 1], b);
    }
  }

  // ── wakeups ───────────────────────────────────────────────────────────────

  predicate Fits(b: Bounds, item: Item) {
    b.bytes <= 0 || Size(item) <= b.bytes
  }

  predicate AllFit(es: seq<Event>, b: Bounds) {
    forall e | e in es && e.PutArrives? :: Fits(b, e.item)
  }

  /** An empty queue with a sleeping producer has a notified one. */
  predicate ProducersAwake(w: World) {
    w.items == [] && w.blocked.Keys != {} ==> w.woken.Keys != {}
  }

  /** While a consumer sleeps there is an alerted consumer for every queued item. */
  predicate ConsumersAwake(w: World) {
    w.idle !! w.alerted && (w.idle != {} ==> |w.alerted| >= |w.items|)
  }

  predicate HeldFit(w: World, b: Bounds) {
    && (forall p | p in w.blocked :: Fits(b, w.blocked[p]))
    && (forall p | p in w.woken :: Fits(b, w.woken[p]))
  }

  predicate Awake(w: World, b: Bounds) {
    ProducersAwake(w) && ConsumersAwake(w) && HeldFit(w, b)
  }

  lemma EmptyHasRoom(w: World, b: Bounds, item: Item)
    requires Accounted(w, b) && w.items == [] && Fits(b, item)
    ensures Room(w, b, item)
  {
  }

  lemma AppendedAwake(w: World, item: Item, wake: nat, b: Bounds)
    requires ConsumersAwake(w) && HeldFit(w, b) && (w.idle != {} ==> wake in w.idle)
    ensures Awake(Appended(w, item, wake), b)
  {
  }

  lemma PoppedAwake(w: World, wake: nat, b: Bounds)
    requires w.items != [] && w.idle !! w.alerted && HeldFit(w, b)
    requires w.idle != {} ==> |w.alerted| >= |w.items| - 1
    requires w.blocked.Keys != {} ==> wake in w.blocked
    ensures Awake(Popped(w, wake), b)
  {
    var w' := Popped(w, wake);
    if wake in w.blocked {
      assert wake in w'.woken.Keys;
    }
  }

  /** A blocked producer joins only a nonempty queue. */
  lemma BlockedAwake(w: World, p: nat, item: Item, b: Bounds)
    requires Accounted(w, b) && ConsumersAwake(w) && HeldFit(w, b) && Fits(b, item) && !Room(w, b, item)
    ensures Awake(w.(blocked := w.blocked[p := item]), b)
  {
    if w.items == [] {
      EmptyHasRoom(w, b, item);
    }
  }

  lemma PutTimeoutAwake(w: World, p: nat, b: Bounds)
    requires Accounted(w, b) && Awake(w, b) && !(p in w.woken && Room(w, b, w.woken[p]))
    ensures Awake(w.(blocked := w.blocked - {p}, woken := w.woken - {p}), b)
  {
    var w' := w.(blocked := w.blocked - {p}, woken := w.woken - {p});
    if w.items == [] && w'.blocked.Keys != {} {
      assert w.blocked.Keys != {};
      var q :| q in w.woken.Keys;
      EmptyHasRoom(w, b, w.woken[q]);
      assert q in w'.woken.Keys;
    }
  }

  lemma PutKeepsAwake(w: World, e: Event, b: Bounds)
    requires Accounted(w, b) && Awake(w, b) && Allowed(w, e)
    requires (e.PutArrives? && Fits(b, e.item)) || e.PutResumes? || e.PutTimesOut?
    ensures Awake(Step(w, e, b), b)
  {
    match e {
      case PutArrives(p, item, block, wake) =>
        if Room(w, b, item) {
          AppendedAwake(w, item, wake, b);
        } else {
          BlockedAwake(w, p, item, b);
        }
      case PutResumes(p, wake) =>
        var (item, left) := (w.woken[p], w.(woken := w.woken - {p}));
        if Room(w, b, item) {
          AppendedAwake(left, item, wake, b);
        } else {
          BlockedAwake(left, p, item, b);
        }
      case PutTimesOut(p, wake) =>
        if Room(w, b, HeldItem(w, p)) {
          AppendedAwake(w.(blocked := w.blocked - {p}, woken := w.woken - {p}), HeldItem(w, p), wake, b);
        } else {
          PutTimeoutAwake(w, p, b);
        }
    }
  }

  lemma GetTimeoutAwake(w: World, c: nat, wake: nat, b: Bounds)
    requires Awake(w, b) && Allowed(w, GetTimesOut(c, wake))
    ensures Awake(Step(w, GetTimesOut(c, wake), b), b)
  {
    var left := w.(idle := w.idle - {c}, alerted := w.alerted - {c});
    assert |left.alerted| >= |w.alerted| - 1;
    if w.items != [] {
      PoppedAwake(left, wake, b);
    }
  }

  lemma GetKeepsAwake(w: World, e: Event, b: Bounds)
    requires Awake(w, b) && Allowed(w, e) && (e.GetArrives? || e.GetResumes? || e.GetTimesOut?)
    ensures Awake(Step(w, e, b), b)
  {
    match e {
      case GetArrives(c, block, wake) =>
        if w.items != [] { PoppedAwake(w, wake, b); }
      case GetResumes(c, wake) =>
        if w.items != [] { PoppedAwake(w.(alerted := w.alerted - {c}), wake, b); }
      case GetTimesOut(c, wake) => GetTimeoutAwake(w, c, wake, b);
    }
  }

  lemma StepKeepsAwake(w: World, e: Event, b: Bounds)
    requires Accounted(w, b) && Awake(w, b) && (e.PutArrives? ==> Fits(b, e.item))
    ensures Awake(Step(w, e, b), b)
  {
    if Allowed(w, e) {
      if e.PutArrives? || e.PutResumes? || e.PutTimesOut? {
        PutKeepsAwake(w, e, b);
      } else {
        GetKeepsAwake(w, e, b);
      }
    }
  }

  lemma {:induction false} RunKeepsAwake(es: seq<Event>, b: Bounds)
    requires AllFit(es, b)
    ensures Awake(Run(START, es, b), b)
  {
    if es != [] {
      var (init, e) := (es[..|es| - 1], es[|es| - 1]);
      assert e in es;
      RunKeepsAwake(init, b);
      AccountingAndFifo(init, b);
      StepKeepsAwake(Run(START, init, b), e, b);
    }
  }

  /** The lost wakeup: nothing queued, a producer asleep, and nobody on the way to wake up. */
  predicate Stalled(w: World) {
    w.items == [] && w.blocked.Keys != {} && w.woken.Keys == {}
  }

  /**
   If every payload fits the byte bound, no interleaving of puts, gets and timeouts loses a
   wakeup, and producers and consumers are never all asleep together.
   */
  lemma NoLostWakeup(es: seq<Event>, b: Bounds)
    requires AllFit(es, b)
    ensures var w := Run(START, es, b);
            && !Stalled(w)
            && (w.blocked.Keys != {} && w.idle != {} ==> w.woken.Keys != {} || w.alerted != {})
  {
    RunKeepsAwake(es, b);
  }

  /** The condition is exact: one blocking put that does not fit stalls the empty queue for good. */
  lemma OversizedPutStalls(p: nat, item: Item, b: Bounds)
    requires !Fits(b, item)
    ensures Stalled(Run(START, [PutArrives(p, item, true, 0)], b))
    ensures forall w: World :: Accounted(w, b) ==> !Room(w, b, item)
  {
  }
}
