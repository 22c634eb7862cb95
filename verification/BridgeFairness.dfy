/**
 Whom the single notification of a get reaches.  Room in bytes differs from producer to producer,
 so a notification can be spent on one that still does not fit.
 */
module BridgeFairness {
  import opened BridgeQueue

  /** Somebody sleeps whose item there is room for, and no producer is on the way to wake up. */
  ghost predicate Overlooked(w: World, b: Bounds) {
    w.woken.Keys == {} && exists p | p in w.blocked :: Room(w, b, w.blocked[p])
  }

  // ── room that is the same for everybody ───────────────────────────────────

  /** There is no byte bound, or every payload has this size. */
  predicate Uniform(es: seq<Event>, b: Bounds, size: nat) {
    b.bytes <= 0 || forall e | e in es && e.PutArrives? :: Size(e.item) == size
  }

  predicate AllOf(m: map<nat, Item>, size: nat) {
    forall p | p in m :: Size(m[p]) == size
  }

  predicate AllQueued(items: seq<Item>, size: nat) {
    forall i | 0 <= i < |items| :: Size(items[i]) == size
  }

  function Times(size: nat, n: nat): nat {
    if n == 0 then 0 else Times(size, n - 1) + size
  }

  predicate Sizes(w: World, size: nat) {
    AllQueued(w.items, size) && w.bytes == Times(size, |w.items|) && AllOf(w.blocked, size) && AllOf(w.woken, size)
  }

  /** Room for one more, by the number of queued items alone. */
  function RoomBy(b: Bounds, size: nat): nat -> bool {
    (n: nat) => (b.count <= 0 || n < b.count) && (b.bytes <= 0 || Times(size, n) + size <= b.bytes)
  }

  ghost predicate Antitone(room: nat -> bool) {
    forall n, m | n <= m && !room(n) :: !room(m)
  }

  lemma {:induction false} TimesGrows(size: nat, n: nat, m: nat)
    requires n <= m
    ensures Times(size, n) <= Times(size, m)
  {
    if n < m {
      TimesGrows(size, n, m - 1);
    }
  }

  lemma RoomByAntitone(b: Bounds, size: nat)
    ensures Antitone(RoomBy(b, size))
  {
    forall n: nat, m: nat | n <= m && !RoomBy(b, size)(n) ensures !RoomBy(b, size)(m) {
      TimesGrows(size, n, m);
    }
  }

  lemma RoomIsRoomBy(w: World, b: Bounds, size: nat, item: Item)
    requires b.bytes > 0 ==> Sizes(w, size) && Size(item) == size
    ensures Room(w, b, item) <==> RoomBy(b, size)(|w.items|)
  {
  }

  lemma StepKeepsSizes(w: World, e: Event, b: Bounds, size: nat)
    requires Sizes(w, size) && (e.PutArrives? ==> Size(e.item) == size)
    ensures Sizes(Step(w, e, b), size)
  {
  }

  // ── notified producers cover the free room ────────────────────────────────

  /** While a producer sleeps, there is no room left beyond the producers already notified. */
  predicate Covered(w: World, room: nat -> bool) {
    w.blocked.Keys !! w.woken.Keys && (w.blocked.Keys != {} ==> !room(|w.items| + |w.woken|))
  }

  /** Covered but for one producer, who is about to put or to go back to sleep. */
  predicate AlmostCovered(w: World, room: nat -> bool) {
    w.blocked.Keys !! w.woken.Keys && (w.blocked.Keys != {} ==> !room(|w.items| + |w.woken| + 1))
  }

  lemma OneFewer(m: map<nat, Item>, p: nat)
    requires p in m
    ensures |m - {p}| == |m| - 1
  {
    assert (m - {p}).Keys == m.Keys - {p};
  }

  lemma OneMore(m: map<nat, Item>, p: nat, item: Item)
    requires p !in m
    ensures |m[p := item]| == |m| + 1
  {
    assert m[p := item].Keys == m.Keys + {p};
  }

  lemma CoveredIsAlmost(w: World, room: nat -> bool)
    requires Covered(w, room) && Antitone(room)
    ensures AlmostCovered(w, room)
  {
    assert |w.items| + |w.woken| <= |w.items| + |w.woken| + 1;
  }

  lemma AppendedCovered(w: World, item: Item, wake: nat, room: nat -> bool)
    requires AlmostCovered(w, room)
    ensures Covered(Appended(w, item, wake), room)
  {
    assert |Appended(w, item, wake).items| + |w.woken| == |w.items| + |w.woken| + 1;
  }

  lemma FullCovered(w: World, room: nat -> bool)
    requires w.blocked.Keys !! w.woken.Keys && Antitone(room) && !room(|w.items|)
    ensures Covered(w, room)
  {
    assert |w.items| <= |w.items| + |w.woken|;
  }

  lemma PoppedCovered(w: World, wake: nat, room: nat -> bool)
    requires w.items != [] && Covered(w, room) && (w.blocked.Keys != {} ==> wake in w.blocked)
    ensures Covered(Popped(w, wake), room)
  {
    var w' := Popped(w, wake);
    if w.blocked.Keys != {} {
      OneMore(w.woken, wake, w.blocked[wake]);
      assert |w'.items| + |w'.woken| == |w.items| + |w.woken|;
    }
  }

  function Without(w: World, p: nat): World {
    w.(blocked := w.blocked - {p}, woken := w.woken - {p})
  }

  lemma WithoutAlmostCovered(w: World, p: nat, room: nat -> bool)
    requires Covered(w, room) && Antitone(room) && (p in w.blocked || p in w.woken)
    ensures AlmostCovered(Without(w, p), room)
  {
    if p in w.woken {
      OneFewer(w.woken, p);
    } else {
      assert w.woken - {p} == w.woken;
      CoveredIsAlmost(w, room);
    }
  }

  /** The item of a put that finds no room: the queue is full for everybody. */
  lemma NoRoomIsFull(w: World, b: Bounds, size: nat, item: Item, blocked: map<nat, Item>, woken: map<nat, Item>)
    requires (b.bytes > 0 ==> Sizes(w, size) && Size(item) == size) && !Room(w, b, item)
    requires blocked.Keys !! woken.Keys
    ensures Covered(w.(blocked := blocked, woken := woken), RoomBy(b, size))
  {
    RoomByAntitone(b, size);
    RoomIsRoomBy(w, b, size, item);
    FullCovered(w.(blocked := blocked, woken := woken), RoomBy(b, size));
  }

  lemma ArrivalCovered(w: World, p: nat, item: Item, block: bool, wake: nat, b: Bounds, size: nat)
    requires Covered(w, RoomBy(b, size)) && Allowed(w, PutArrives(p, item, block, wake))
    requires b.bytes > 0 ==> Sizes(w, size) && Size(item) == size
    ensures Covered(Step(w, PutArrives(p, item, block, wake), b), RoomBy(b, size))
  {
    if Room(w, b, item) {
      RoomByAntitone(b, size);
      CoveredIsAlmost(w, RoomBy(b, size));
      AppendedCovered(w, item, wake, RoomBy(b, size));
    } else if block {
      NoRoomIsFull(w, b, size, item, w.blocked[p := item], w.woken);
    }
  }

  lemma ResumeCovered(w: World, p: nat, wake: nat, b: Bounds, size: nat)
    requires Covered(w, RoomBy(b, size)) && Allowed(w, PutResumes(p, wake)) && (b.bytes > 0 ==> Sizes(w, size))
    ensures Covered(Step(w, PutResumes(p, wake), b), RoomBy(b, size))
  {
    var item := w.woken[p];
    if Room(w, b, item) {
      RoomByAntitone(b, size);
      WithoutAlmostCovered(w, p, RoomBy(b, size));
      assert w.blocked - {p} == w.blocked;
      AppendedCovered(Without(w, p), item, wake, RoomBy(b, size));
    } else {
      NoRoomIsFull(w, b, size, item, w.blocked[p := item], w.woken - {p});
    }
  }

  lemma TimeoutCovered(w: World, p: nat, wake: nat, b: Bounds, size: nat)
    requires Covered(w, RoomBy(b, size)) && Allowed(w, PutTimesOut(p, wake)) && (b.bytes > 0 ==> Sizes(w, size))
    ensures Covered(Step(w, PutTimesOut(p, wake), b), RoomBy(b, size))
  {
    var item := HeldItem(w, p);
    if Room(w, b, item) {
      RoomByAntitone(b, size);
      WithoutAlmostCovered(w, p, RoomBy(b, size));
      AppendedCovered(Without(w, p), item, wake, RoomBy(b, size));
    } else {
      NoRoomIsFull(w, b, size, item, w.blocked - {p}, w.woken - {p});
    }
  }

  lemma GetCovered(w: World, e: Event, b: Bounds, room: nat -> bool)
    requires Covered(w, room) && Allowed(w, e) && (e.GetArrives? || e.GetResumes? || e.GetTimesOut?)
    ensures Covered(Step(w, e, b), room)
  {
    if w.items != [] {
      var c := e.c;
      var left := if e.GetArrives? then w else if e.GetResumes? then w.(alerted := w.alerted - {c})
                  else w.(idle := w.idle - {c}, alerted := w.alerted - {c});
      assert Covered(left, room);
      assert Step(w, e, b) == Popped(left, e.wake);
      PoppedCovered(left, e.wake, room);
    }
  }

  lemma StepKeepsCovered(w: World, e: Event, b: Bounds, size: nat)
    requires Covered(w, RoomBy(b, size))
    requires b.bytes > 0 ==> Sizes(w, size) && (e.PutArrives? ==> Size(e.item) == size)
    ensures Covered(Step(w, e, b), RoomBy(b, size)) && (b.bytes > 0 ==> Sizes(Step(w, e, b), size))
  {
    if b.bytes > 0 {
      StepKeepsSizes(w, e, b, size);
    }
    if Allowed(w, e) {
      match e {
        case PutArrives(p, item, block, wake) => ArrivalCovered(w, p, item, block, wake, b, size);
        case PutResumes(p, wake) => ResumeCovered(w, p, wake, b, size);
        case PutTimesOut(p, wake) => TimeoutCovered(w, p, wake, b, size);
        case _ => GetCovered(w, e, b, RoomBy(b, size));
      }
    }
  }

  lemma {:induction false} RunKeepsCovered(es: seq<Event>, b: Bounds, size: nat)
    requires Uniform(es, b, size)
    ensures var w := Run(START, es, b); Covered(w, RoomBy(b, size)) && (b.bytes > 0 ==> Sizes(w, size))
  {
    if es != [] {
      var (init, e) := (es[..|es| - 1], es[|es| - 1]);
      assert e in es;
      RunKeepsCovered(init, b, size);
      StepKeepsCovered(Run(START, init, b), e, b, size);
    }
  }

  /** Without a byte bound, or with payloads of one size, no producer that fits is left asleep unnotified. */
  lemma NobodyOverlooked(es: seq<Event>, b: Bounds, size: nat)
    requires Uniform(es, b, size)
    ensures !Overlooked(Run(START, es, b), b)
  {
    RunKeepsCovered(es, b, size);
    var w := Run(START, es, b);
    forall p | p in w.blocked && w.woken.Keys == {} ensures !Room(w, b, w.blocked[p]) {
      assert p in w.blocked.Keys && |w.woken| == |w.woken.Keys| == 0;
      RoomIsRoomBy(w, b, size, w.blocked[p]);
    }
  }

  // ── payloads of different sizes ───────────────────────────────────────────

  /** Two queued items fill the byte bound; a large and a small put sleep; the get notifies the large one. */
  function Mixed(first: Item, second: Item, large: Item, small: Item): seq<Event> {
    [PutArrives(1, first, true, 0)] + [PutArrives(2, second, true, 0)] + [PutArrives(3, large, true, 0)]
    + [PutArrives(4, small, true, 0)] + [GetArrives(5, true, 3)] + [PutResumes(3, 0)]
  }

  lemma RunStep(es: seq<Event>, e: Event, b: Bounds)
    ensures Run(START, es + [e], b) == Step(Run(START, es, b), e, b)
  {
    assert (es + [e])[..|es|] == es;
  }

  lemma MixedQueued(first: Item, second: Item, b: Bounds)
    requires b.count <= 0 && Size(first) + Size(second) <= b.bytes
    ensures Run(START, [PutArrives(1, first, true, 0)] + [PutArrives(2, second, true, 0)], b)
            == World([first, second], Size(first) + Size(second), map[], map[], {}, {}, [first, second], [])
  {
    var (e1, e2) := (PutArrives(1, first, true, 0), PutArrives(2, second, true, 0));
    assert [e1][..0] == [];
    RunStep([e1], e2, b);
    var w1 := Step(START, e1, b);
    assert w1 == World([first], Size(first), map[], map[], {}, {}, [first], []);
    var w2 := Step(w1, e2, b);
    assert w2.items == [first, second] && w2.accepted == [first, second];
  }

  lemma MixedBlocks(first: Item, second: Item, large: Item, small: Item, b: Bounds)
    requires b.count <= 0 < b.bytes && Size(first) + Size(second) <= b.bytes
    requires Size(first) + Size(second) + Size(small) > b.bytes && Size(first) + Size(second) + Size(large) > b.bytes
    ensures Run(START, Mixed(first, second, large, small)[..4], b)
            == World([first, second], Size(first) + Size(second), map[3 := large, 4 := small], map[], {}, {},
                     [first, second], [])
  {
    var es := [PutArrives(1, first, true, 0)] + [PutArrives(2, second, true, 0)];
    var (e3, e4) := (PutArrives(3, large, true, 0), PutArrives(4, small, true, 0));
    assert Mixed(first, second, large, small)[..4] == es + [e3] + [e4];
    MixedQueued(first, second, b);
    RunStep(es, e3, b);
    RunStep(es + [e3], e4, b);
  }

  /**
   With payloads of different sizes it can happen: the freed bytes fit the small put, but the one
   notification went to the large one, which still does not fit and goes back to sleep.
   */
  lemma MixedSizesOverlook(first: Item, second: Item, large: Item, small: Item, b: Bounds)
    requires b.count <= 0 < b.bytes && Size(first) + Size(second) <= b.bytes
    requires Size(first) + Size(second) + Size(small) > b.bytes
    requires Size(second) + Size(small) <= b.bytes < Size(second) + Size(large)
    ensures Overlooked(Run(START, Mixed(first, second, large, small), b), b)
  {
    var es := Mixed(first, second, large, small);
    MixedBlocks(first, second, large, small, b);
    var w := Run(START, es[..4], b);
    assert es == es[..4] + [GetArrives(5, true, 3)] + [PutResumes(3, 0)];
    RunStep(es[..4], GetArrives(5, true, 3), b);
    RunStep(es[..4] + [GetArrives(5, true, 3)], PutResumes(3, 0), b);
    var w1 := Step(w, GetArrives(5, true, 3), b);
    assert w1.items == [second] && w1.bytes == Size(second) && w1.woken == map[3 := large];
    var w2 := Step(w1, PutResumes(3, 0), b);
    assert w2.woken == map[] && w2.blocked[4] == small && Room(w2, b, w2.blocked[4]);
  }

  function OfSize(n: nat): Item {
    Sized(seq(n, _ => 0))
  }

  /** Byte bound 100, queued 60 and 40, waiting 80 and 30. */
  lemma ThirtySleepsThroughRoom()
    ensures var es := Mixed(OfSize(60), OfSize(40), OfSize(80), OfSize(30));
            Overlooked(Run(START, es, Bounds(0, 100)), Bounds(0, 100))
  {
    MixedSizesOverlook(OfSize(60), OfSize(40), OfSize(80), OfSize(30), Bounds(0, 100));
  }
}
