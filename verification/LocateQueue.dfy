// TtWindArcLocateQueue: which route to the APB block answers, and the message
// queue the control block it points at describes.
module LocateQueue {
  import opened Prelude
  import opened Mailbox

  // Probe order of the routes.
  datatype Route = NocLow | NocHigh | Axi

  const ROUTE_ORDER: seq<Route> := [NocLow, NocHigh, Axi]

  const READY_TIMEOUT: int := 500 * 10_000     // 500 ms in units of 100 ns
  const STALL: int := 200 * 10                 // 200 us

  // The interrupt-time clock, query by query: the deadline is computed from
  // query 0, and from query 1 on a stall of full length separates queries.
  ghost predicate Ticks(clock: nat -> nat) {
    && clock(0) <= clock(1)
    && forall k: nat :: 1 <= k ==> clock(k) + STALL <= clock(k + 1)
  }

  lemma {:induction false} TicksBy(clock: nat -> nat, k: nat)
    requires Ticks(clock) && 1 <= k
    ensures clock(0) + STALL * (k - 1) <= clock(k)
  {
    if k > 1 {
      TicksBy(clock, k - 1);
    }
  }

  // What the driver sees of the world while locating: boot status by probe
  // round and route, the control block pointer by route, the words it reads
  // from the NOC at CSM addresses in turn, and the clock.
  datatype World = World(boot: (nat, Route) -> u32, qcbPtr: Route -> u32, csm: (u32, nat) -> u32, clock: nat -> nat)

  // The boot status seen of a route; without an aperture the AXI slot keeps
  // its initial all-1s.
  function Status32(world: World, aperture: bool, round: nat, route: Route): u32 {
    if route.Axi? && !aperture then ALL_ONES else world.boot(round, route)
  }

  predicate Answers(world: World, aperture: bool, round: nat, route: Route) {
    var v := Status32(world, aperture, round, route);
    v != ALL_ONES && v % 2 == 1
  }

  predicate SomeAnswers(world: World, aperture: bool, round: nat) {
    exists i :: 0 <= i < 3 && Answers(world, aperture, round, ROUTE_ORDER[i])
  }

  predicate AllDead(world: World, aperture: bool, round: nat) {
    forall i :: 0 <= i < 3 ==> Status32(world, aperture, round, ROUTE_ORDER[i]) == ALL_ONES
  }

  predicate PastDeadline(world: World, round: nat) {
    world.clock(round + 1) > world.clock(0) + READY_TIMEOUT
  }

  // Nothing to decide on in a round: it is followed by another.
  predicate Undecided(world: World, aperture: bool, round: nat) {
    && !SomeAnswers(world, aperture, round) && !AllDead(world, aperture, round)
    && !PastDeadline(world, round)
  }

  predicate FirstAnswering(world: World, aperture: bool, round: nat, i: nat) {
    && i < 3 && Answers(world, aperture, round, ROUTE_ORDER[i])
    && forall j :: 0 <= j < i ==> !Answers(world, aperture, round, ROUTE_ORDER[j])
  }

  // The route answers and none before it does: the NOC's lower address first,
  // then its upper one, then the aperture.
  predicate FirstUp(world: World, aperture: bool, round: nat, route: Route) {
    && Answers(world, aperture, round, route)
    && (route != NocLow ==> !Answers(world, aperture, round, NocLow))
    && (route == Axi ==> !Answers(world, aperture, round, NocHigh))
  }

  // The route answered in a probe round, and no round before it decided.
  ghost predicate Found(world: World, aperture: bool, route: Route) {
    exists round: nat :: FirstUp(world, aperture, round, route)
                         && forall r :: 0 <= r < round ==> Undecided(world, aperture, r)
  }

  // One probe round: the first route that answers, if any.
  method Probe(world: World, aperture: bool, round: nat) returns (found: bool, at: nat, allDead: bool)
    ensures found <==> SomeAnswers(world, aperture, round)
    ensures found ==> FirstAnswering(world, aperture, round, at)
    ensures !found ==> (allDead <==> AllDead(world, aperture, round))
  {
    found, at, allDead := false, 0, true;
    while at < 3
      invariant at <= 3 && !found
      invariant forall j :: 0 <= j < at ==> !Answers(world, aperture, round, ROUTE_ORDER[j])
      invariant allDead <==> forall j :: 0 <= j < at ==> Status32(world, aperture, round, ROUTE_ORDER[j]) == ALL_ONES
    {
      var route := ROUTE_ORDER[at];
      if route == Axi && !aperture {
        at := at + 1;
        continue;
      }
      var v := world.boot(round, route);
      if v != ALL_ONES {
        allDead := false;
      }
      if v != ALL_ONES && v % 2 == 1 {
        found := true;
        return;
      }
      at := at + 1;
    }
  }

  datatype Located = Located(status: Status, base: u32, entries: nat)

  // The queue a control block at `qcb` describes, or why there is none.
  method ReadControlBlock(world: World, qcb: u32) returns (queue: Located)
    ensures queue.status == Success <==>
              && AddressOk(qcb) && AddressOk(qcb + 4)
              && FitsInCsm(world.csm(qcb, 0), world.csm((qcb + 4) % TWO32, 1) % 0x100)
    ensures queue.status == NotSupported <==>
              && AddressOk(qcb) && AddressOk(qcb + 4) && world.csm((qcb + 4) % TWO32, 1) % 0x100 == 0
    ensures queue.status in {Success, NotSupported, InvalidAddress}
    ensures AddressOk(qcb) && AddressOk(qcb + 4) ==>
              queue.base == world.csm(qcb, 0) && queue.entries == world.csm((qcb + 4) % TWO32, 1) % 0x100
  {
    if !AddressOk(qcb) {
      return Located(InvalidAddress, 0, 0);
    }
    var base := world.csm(qcb, 0);
    if !AddressOk((qcb + 4) % TWO32) {
      return Located(InvalidAddress, 0, 0);
    }
    var entries := world.csm((qcb + 4) % TWO32, 1) % 0x100;
    if entries == 0 {
      return Located(NotSupported, base, entries);
    }
    if base < CSM_BASE || base + HEADER_SIZE + 2 * entries * MSG_SIZE > CSM_BASE + CSM_SIZE {
      return Located(InvalidAddress, base, entries);
    }
    return Located(Success, base, entries);
  }

  // Probe rounds until a route answers, every route is dead, or half a second
  // has passed; then read the control block through the route found.
  method Locate(world: World, aperture: bool, cached: Route) returns (queue: Located, route: Route, rounds: nat)
    requires Ticks(world.clock)
    ensures 1 <= rounds <= 2502
    ensures queue.status in {Success, NotSupported, InvalidAddress, DeviceDoesNotExist, DeviceNotReady}
    ensures forall r :: 0 <= r < rounds - 1 ==> Undecided(world, aperture, r)
    ensures !Undecided(world, aperture, rounds - 1)
    ensures queue.status == DeviceDoesNotExist <==> AllDead(world, aperture, rounds - 1)
    ensures queue.status == DeviceNotReady <==>
              && !SomeAnswers(world, aperture, rounds - 1) && !AllDead(world, aperture, rounds - 1)
              && PastDeadline(world, rounds - 1)
    // Half a second, in units of 100 ns.
    ensures queue.status == DeviceNotReady ==> world.clock(rounds) - world.clock(0) > 5_000_000
    ensures forall k :: 1 <= k < rounds ==> world.clock(k) - world.clock(0) <= 5_000_000
    ensures queue.status !in {DeviceDoesNotExist, DeviceNotReady} <==> SomeAnswers(world, aperture, rounds - 1)
    ensures SomeAnswers(world, aperture, rounds - 1) ==>
              exists i: nat :: FirstAnswering(world, aperture, rounds - 1, i) && route == ROUTE_ORDER[i]
    ensures SomeAnswers(world, aperture, rounds - 1) ==>
              FirstUp(world, aperture, rounds - 1, route) && Found(world, aperture, route)
    ensures !SomeAnswers(world, aperture, rounds - 1) ==> route == cached
    ensures queue.status == Success <==>
              && SomeAnswers(world, aperture, rounds - 1)
              && AddressOk(world.qcbPtr(route)) && AddressOk(world.qcbPtr(route) + 4)
              && FitsInCsm(world.csm(world.qcbPtr(route), 0),
                           world.csm((world.qcbPtr(route) + 4) % TWO32, 1) % 0x100)
    ensures queue.status == Success ==>
              && queue.base == world.csm(world.qcbPtr(route), 0)
              && queue.entries == world.csm((world.qcbPtr(route) + 4) % TWO32, 1) % 0x100
  {
    hide FirstUp, Status32, AddressOk, FitsInCsm;
    rounds, route := 0, cached;
    while true
      invariant rounds <= 2501 && route == cached
      invariant forall r :: 0 <= r < rounds ==> Undecided(world, aperture, r)
      invariant forall k :: 1 <= k <= rounds ==> world.clock(k) - world.clock(0) <= 5_000_000
      decreases 2502 - rounds
    {
      var found, at, allDead := Probe(world, aperture, rounds);
      rounds := rounds + 1;
      if found {
        route := ROUTE_ORDER[at];
        FirstIsFirstUp(world, aperture, rounds - 1, at);
        queue := ReadControlBlock(world, world.qcbPtr(route));
        return;
      }
      if allDead {
        return Located(DeviceDoesNotExist, 0, 0), route, rounds;
      }
      TicksBy(world.clock, rounds);
      if world.clock(rounds) > world.clock(0) + READY_TIMEOUT {
        return Located(DeviceNotReady, 0, 0), route, rounds;
      }
    }
  }

  lemma FirstIsFirstUp(world: World, aperture: bool, round: nat, i: nat)
    requires FirstAnswering(world, aperture, round, i)
    ensures FirstUp(world, aperture, round, ROUTE_ORDER[i])
  {
    assert ROUTE_ORDER[0] == NocLow && ROUTE_ORDER[1] == NocHigh && ROUTE_ORDER[2] == Axi;
  }

  // Finding a route is a matter of boot statuses and clock alone.
  lemma FoundBy(world: World, world': World, aperture: bool, route: Route)
    requires world'.boot == world.boot && world'.clock == world.clock && Found(world', aperture, route)
    ensures Found(world, aperture, route)
  {
    var round: nat :| FirstUp(world', aperture, round, route)
                      && forall r :: 0 <= r < round ==> Undecided(world', aperture, r);
    assert FirstUp(world, aperture, round, route);
    forall r | 0 <= r < round ensures Undecided(world, aperture, r) {
      assert Undecided(world', aperture, r);
    }
  }

  // Some route answers in a round, and no round before it decides.
  ghost predicate AnswersOnce(world: World, aperture: bool) {
    exists round: nat :: SomeAnswers(world, aperture, round)
                         && forall r :: 0 <= r < round ==> Undecided(world, aperture, r)
  }

  // Then the rounds end with one that some route answers.
  lemma AnswersInTime(world: World, world': World, aperture: bool, rounds: nat)
    requires AnswersOnce(world, aperture) && world'.boot == world.boot && world'.clock == world.clock && 1 <= rounds
    requires forall r :: 0 <= r < rounds - 1 ==> Undecided(world', aperture, r)
    requires !Undecided(world', aperture, rounds - 1)
    ensures SomeAnswers(world', aperture, rounds - 1)
  {
    var round: nat :| SomeAnswers(world, aperture, round)
                      && forall r :: 0 <= r < round ==> Undecided(world, aperture, r);
    SameRounds(world, world', aperture, round);
    SameRounds(world, world', aperture, rounds - 1);
    assert !Undecided(world, aperture, rounds - 1) && !Undecided(world', aperture, round);
  }

  lemma SameRounds(world: World, world': World, aperture: bool, round: nat)
    requires world'.boot == world.boot && world'.clock == world.clock
    ensures SomeAnswers(world', aperture, round) <==> SomeAnswers(world, aperture, round)
    ensures Undecided(world', aperture, round) <==> Undecided(world, aperture, round)
  {
    forall route ensures Status32(world', aperture, round, route) == Status32(world, aperture, round, route)
                         && (Answers(world', aperture, round, route) <==> Answers(world, aperture, round, route))
    {
    }
  }

  // Byte k from an address on, and the CSM SRAM, which is half a MiB.
  function ByteFrom(at: u32, k: nat): nat { at + k }

  predicate InSram(b: nat) { 0x1000_0000 <= b < 0x1008_0000 }

  // The range checks refuse nothing that is in the SRAM: an address is accepted
  // exactly if it is word-aligned and all four bytes are there, a queue exactly
  // if it has 1 to 255 entries and its header and both its rings are there.
  lemma AcceptsExactly(at: u32, n: nat)
    ensures AddressOk(at) <==> at % 4 == 0 && forall k: nat :: k < 4 ==> InSram(ByteFrom(at, k))
    ensures FitsInCsm(at, n) <==> 1 <= n <= 255 && forall k: nat :: k < 32 + 64 * n ==> InSram(ByteFrom(at, k))
  {
    if at % 4 == 0 && !AddressOk(at) {
      assert !InSram(ByteFrom(at, 0)) || !InSram(ByteFrom(at, 3));
    }
    if 1 <= n <= 255 && !FitsInCsm(at, n) {
      assert !InSram(ByteFrom(at, 0)) || !InSram(ByteFrom(at, 31 + 64 * n));
    }
  }

  // Byte address of word i of slot s of the request or the response ring.
  function SlotAddress(base: u32, entries: nat, response: bool, s: nat, i: nat): int {
    base + HEADER_SIZE + (if response then entries * MSG_SIZE else 0) + s * MSG_SIZE + 4 * i
  }

  // The range check makes every later access in range - of pointers and of all
  // words of all slots, with no wrap in 32 bits - exactly when the base is
  // word-aligned; otherwise the very first access is refused.
  lemma LocatedRingInRange(base: u32, entries: nat)
    requires FitsInCsm(base, entries)
    ensures forall s, i, response :: 0 <= s < entries && 0 <= i < 8 ==>
              SlotAddress(base, entries, response, s, i) < TWO32
              && (AddressOk(SlotAddress(base, entries, response, s, i)) <==> base % 4 == 0)
    ensures forall offset :: 0 <= offset < HEADER_SIZE && offset % 4 == 0 ==>
              (AddressOk(base + offset) <==> base % 4 == 0)
    ensures forall s, i, t, j, r1, r2 :: 0 <= s < entries && 0 <= t < entries && 0 <= i < 8 && 0 <= j < 8 ==>
              (SlotAddress(base, entries, r1, s, i) == SlotAddress(base, entries, r2, t, j) <==>
                 s == t && i == j && r1 == r2)
  {
  }
}
