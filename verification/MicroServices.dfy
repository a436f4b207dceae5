/** The service table of src/polycall_micro.c: 32 slots, a bit mask of the active ones, a
    count, bounded command queues, and garbage collection by age. */
module MicroServices {
  import opened Bits
  import opened Bytes

  const MAX_SERVICES := 32
  const MAX_COMMANDS := 64
  const COMMAND_BUFFER := 4096
  const TIMEOUT := 3600
  const LONG: nat := 0x1_0000_0000_0000_0000

  datatype Command = Command(id: Word, flags: Word, payloadSize: Word, payload: seq<Byte>)

  datatype Service = Service(id: Word, flags: Word, state: Word, lastUpdate: Long, queue: seq<Command>)

  datatype Registry = Registry(slots: seq<Service>, count: Word, mask: Word, lastGc: Long)

  datatype Status = Success | ServiceError

  /** reset_service_state. */
  const BLANK := Service(0, 0, 0, 0, [])

  predicate Active(r: Registry, i: nat) {
    Bit(r.mask, i)
  }

  predicate Shaped(r: Registry) {
    |r.slots| == MAX_SERVICES
  }

  /** Mask and count agree. */
  ghost predicate Inv(r: Registry) {
    Shaped(r) && r.count == Ones(r.mask, MAX_SERVICES)
  }

  function Initial(now: Long): (r: Registry) {
    Registry(seq(MAX_SERVICES, _ => BLANK), 0, 0, now)
  }

  // ----- Looking slots up

  /** The lowest clear bit at or above `from`, or MAX_SERVICES. */
  function FreeSlot(mask: Word, from: nat): (s: nat)
    requires from <= MAX_SERVICES
    ensures from <= s <= MAX_SERVICES
    ensures s < MAX_SERVICES ==> !Bit(mask, s)
    ensures forall i: nat :: from <= i < s ==> Bit(mask, i)
    decreases MAX_SERVICES - from
  {
    if from == MAX_SERVICES || !Bit(mask, from) then from else FreeSlot(mask, from + 1)
  }

  /** The lowest active slot at or above `from` whose service is called `id`. */
  function SlotOf(r: Registry, id: Word, from: nat): (s: nat)
    requires Shaped(r) && from <= MAX_SERVICES
    ensures from <= s <= MAX_SERVICES
    ensures s < MAX_SERVICES ==> Active(r, s) && r.slots[s].id == id
    ensures forall i: nat :: from <= i < s ==> !(Active(r, i) && r.slots[i].id == id)
    decreases MAX_SERVICES - from
  {
    if from == MAX_SERVICES || (Active(r, from) && r.slots[from].id == id) then from
    else SlotOf(r, id, from + 1)
  }

  lemma FreeSlotExists(r: Registry)
    requires Inv(r)
    ensures FreeSlot(r.mask, 0) < MAX_SERVICES <==> r.count < MAX_SERVICES
  {
    if r.count < MAX_SERVICES {
      var s := SomeBitClear(r.mask, MAX_SERVICES);
    } else {
      AllBitsSet(r.mask, MAX_SERVICES);
    }
  }

  // ----- The calls

  function Created(r: Registry, id: Word, flags: Word, now: Long): (res: (Registry, Status))
    requires Shaped(r)
  {
    var s := FreeSlot(r.mask, 0);
    if r.count >= MAX_SERVICES || s >= MAX_SERVICES then (r, ServiceError)
    else
      (Registry(r.slots[s := Service(id, flags, 0, now, [])], (r.count + 1) % WORD,
                Or32(r.mask, Flag(s)), r.lastGc), Success)
  }

  function Destroyed(r: Registry, id: Word): (res: (Registry, Status))
    requires Shaped(r)
    ensures Shaped(res.0)
  {
    var s := SlotOf(r, id, 0);
    if s == MAX_SERVICES then (r, ServiceError)
    else
      (Registry(r.slots[s := BLANK], (r.count - 1) % WORD,
                And32(r.mask, Not32(Flag(s))), r.lastGc), Success)
  }

  function Updated(r: Registry, id: Word, state: Word, now: Long): (res: (Registry, Status))
    requires Shaped(r)
  {
    var s := SlotOf(r, id, 0);
    if s == MAX_SERVICES then (r, ServiceError)
    else (r.(slots := r.slots[s := r.slots[s].(state := state, lastUpdate := now)]), Success)
  }

  predicate LegalSize(c: Command) {
    c.payloadSize <= COMMAND_BUFFER
  }

  /** Order-preserving filtering. */
  function Filtered(cs: seq<Command>, keep: Command -> bool): (r: seq<Command>)
    ensures |r| <= |cs|
  {
    if cs == [] then []
    else Filtered(cs[..|cs| - 1], keep)
         + (if keep(cs[|cs| - 1]) then [cs[|cs| - 1]] else [])
  }

  /** The first MAX_COMMANDS of a sequence. */
  function Bounded(cs: seq<Command>): (r: seq<Command>) {
    if |cs| <= MAX_COMMANDS then cs else cs[..MAX_COMMANDS]
  }

  function Batched(r: Registry, id: Word, commands: seq<Command>, now: Long): (res: (Registry, Status))
    requires Shaped(r)
  {
    var s := SlotOf(r, id, 0);
    if s == MAX_SERVICES then (r, ServiceError)
    else
      var queue := Bounded(r.slots[s].queue + Filtered(commands, LegalSize));
      (r.(slots := r.slots[s := r.slots[s].(queue := queue, lastUpdate := now)]), Success)
  }

  /** The batch loop at position `i` when the batch is the service's own queue, which grows
      under it. */
  function Echo(queue: seq<Command>, i: nat): (r: seq<Command>)
    requires i <= |queue|
    ensures |queue| <= MAX_COMMANDS ==> |r| <= MAX_COMMANDS
    decreases if |queue| < MAX_COMMANDS then MAX_COMMANDS - |queue| else 0, |queue| - i
  {
    if i == |queue| then queue
    else if LegalSize(queue[i]) && |queue| < MAX_COMMANDS then Echo(queue + [queue[i]], i + 1)
    else Echo(queue, i + 1)
  }

  function SelfBatched(r: Registry, id: Word, now: Long): (res: (Registry, Status))
    requires Shaped(r)
  {
    var s := SlotOf(r, id, 0);
    if s == MAX_SERVICES then (r, ServiceError)
    else
      var queue := Echo(r.slots[s].queue, 0);
      (r.(slots := r.slots[s := r.slots[s].(queue := queue, lastUpdate := now)]), Success)
  }

  /** `current_time - last_update > timeout` on uint64_t. */
  predicate Stale(service: Service, now: Long) {
    (now - service.lastUpdate) % LONG > TIMEOUT
  }

  /** The collector's scan of the slots from `i` on; services are destroyed by id. */
  function Scan(r: Registry, now: Long, i: nat): (r': Registry)
    requires Shaped(r) && i <= MAX_SERVICES
    ensures Shaped(r')
    decreases MAX_SERVICES - i
  {
    if i == MAX_SERVICES then r
    else if Active(r, i) && Stale(r.slots[i], now) then Scan(Destroyed(r, r.slots[i].id).0, now, i + 1)
    else Scan(r, now, i + 1)
  }

  lemma ScanUnfolds(r: Registry, r': Registry, now: Long, i: nat)
    requires Shaped(r) && i < MAX_SERVICES
    requires r' == if Active(r, i) && Stale(r.slots[i], now) then Destroyed(r, r.slots[i].id).0 else r
    ensures Scan(r, now, i) == Scan(r', now, i + 1)
  {
  }

  function Collected(r: Registry, now: Long): (r': Registry)
    requires Shaped(r)
  {
    Scan(r, now, 0).(lastGc := now)
  }

  // ----- Mask and count agree in every run

  lemma SmallMod(x: Word)
    ensures x % WORD == x
  {
  }

  lemma DestroyedCount(r: Registry, id: Word)
    requires Inv(r)
    ensures Inv(Destroyed(r, id).0)
    ensures Destroyed(r, id).0.count == r.count - (if SlotOf(r, id, 0) < MAX_SERVICES then 1 else 0)
  {
    var s := SlotOf(r, id, 0);
    if s < MAX_SERVICES {
      FlagClearedCount(r.mask, s);
      assert r.count - 1 == Ones(And32(r.mask, Not32(Flag(s))), MAX_SERVICES);
      SmallMod(r.count - 1);
    }
  }

  lemma DestroyedSlot(r: Registry, id: Word, i: nat)
    requires Inv(r) && i < MAX_SERVICES
    ensures Active(Destroyed(r, id).0, i) <==> Active(r, i) && i != SlotOf(r, id, 0)
    ensures i != SlotOf(r, id, 0) ==> Destroyed(r, id).0.slots[i] == r.slots[i]
  {
    var s := SlotOf(r, id, 0);
    if s < MAX_SERVICES { FlagCleared(r.mask, s, i); }
  }

  /** What destruction does, in terms of slots: the lowest active slot with the id is
      cleared, all others stay as they were. */
  lemma DestroyedEffect(r: Registry, id: Word)
    requires Inv(r)
    ensures Inv(Destroyed(r, id).0)
    ensures var s := SlotOf(r, id, 0);
            var (r', status) := Destroyed(r, id);
            && (status == Success <==> s < MAX_SERVICES)
            && (forall i: nat :: i < MAX_SERVICES ==> (Active(r', i) <==> Active(r, i) && i != s))
            && (forall i: nat :: i < MAX_SERVICES && i != s ==> r'.slots[i] == r.slots[i])
            && (status == Success ==> r'.slots[s] == Service(0, 0, 0, 0, []))
            && r'.count == r.count - (if status == Success then 1 else 0)
  {
    var s := SlotOf(r, id, 0);
    var (r', status) := Destroyed(r, id);
    DestroyedCount(r, id);
    forall i: nat | i < MAX_SERVICES
      ensures Active(r', i) <==> Active(r, i) && i != s
      ensures i != s ==> r'.slots[i] == r.slots[i]
    {
      DestroyedSlot(r, id, i);
    }
  }

  /** Creation takes the lowest free slot; it fails exactly when all 32 are active. */
  lemma CreatedEffect(r: Registry, id: Word, flags: Word, now: Long)
    requires Inv(r)
    ensures Inv(Created(r, id, flags, now).0)
    ensures var (r', status) := Created(r, id, flags, now);
            && (status == ServiceError <==> forall i: nat :: i < MAX_SERVICES ==> Active(r, i))
            && (status == ServiceError <==> r.count == MAX_SERVICES)
            && (status == Success ==> exists s: nat ::
                  && s < MAX_SERVICES && !Active(r, s)
                  && (forall i: nat :: i < s ==> Active(r, i))
                  && (forall i: nat :: i < MAX_SERVICES ==> (Active(r', i) <==> Active(r, i) || i == s))
                  && r'.slots == r.slots[s := Service(id, flags, 0, now, [])])
  {
    hide Ones, Or32, Flag, Bit, FreeSlot;
    FreeSlotExists(r);
    var s := FreeSlot(r.mask, 0);
    if r.count < MAX_SERVICES {
      FlagSetCount(r.mask, s);
      assert !Active(r, s);
      var r' := Created(r, id, flags, now).0;
      forall i: nat | i < MAX_SERVICES
        ensures Active(r', i) <==> Active(r, i) || i == s
      {
        FlagSet(r.mask, s, i);
      }
    }
  }

  lemma {:induction false} ScanKeepsInv(r: Registry, now: Long, i: nat)
    requires Inv(r) && i <= MAX_SERVICES
    ensures Inv(Scan(r, now, i))
    decreases MAX_SERVICES - i
  {
    if i < MAX_SERVICES {
      if Active(r, i) && Stale(r.slots[i], now) {
        DestroyedEffect(r, r.slots[i].id);
        ScanKeepsInv(Destroyed(r, r.slots[i].id).0, now, i + 1);
      } else {
        ScanKeepsInv(r, now, i + 1);
      }
    }
  }

  datatype Call =
    | Create(id: Word, flags: Word, now: Long)
    | Destroy(id: Word)
    | UpdateState(id: Word, state: Word, now: Long)
    | Batch(id: Word, commands: seq<Command>, now: Long)
    | SelfBatch(id: Word, now: Long)
    | Collect(now: Long)

  function Step(r: Registry, call: Call): (r': Registry)
    requires Shaped(r)
    ensures Shaped(r')
  {
    match call
    case Create(id, flags, now) => Created(r, id, flags, now).0
    case Destroy(id) => Destroyed(r, id).0
    case UpdateState(id, state, now) => Updated(r, id, state, now).0
    case Batch(id, commands, now) => Batched(r, id, commands, now).0
    case SelfBatch(id, now) => SelfBatched(r, id, now).0
    case Collect(now) => Collected(r, now)
  }

  function Run(r: Registry, calls: seq<Call>): (r': Registry)
    requires Shaped(r)
    decreases |calls|
  {
    if calls == [] then r else Run(Step(r, calls[0]), calls[1..])
  }

  /** Every queue stays within its capacity. */
  predicate QueuesBounded(r: Registry) {
    forall s :: s in r.slots ==> |s.queue| <= MAX_COMMANDS
  }

  lemma {:induction false} ScanKeepsQueues(r: Registry, now: Long, i: nat)
    requires Shaped(r) && QueuesBounded(r) && i <= MAX_SERVICES
    ensures QueuesBounded(Scan(r, now, i))
    decreases MAX_SERVICES - i
  {
    if i < MAX_SERVICES {
      if Active(r, i) && Stale(r.slots[i], now) {
        ScanKeepsQueues(Destroyed(r, r.slots[i].id).0, now, i + 1);
      } else {
        ScanKeepsQueues(r, now, i + 1);
      }
    }
  }

  lemma CreatedQueues(r: Registry, id: Word, flags: Word, now: Long)
    requires Shaped(r) && QueuesBounded(r)
    ensures QueuesBounded(Created(r, id, flags, now).0)
  {
  }

  lemma StepKeepsInv(r: Registry, call: Call)
    requires Inv(r) && QueuesBounded(r)
    ensures Inv(Step(r, call)) && QueuesBounded(Step(r, call))
  {
    match call
    case Create(id, flags, now) => CreatedEffect(r, id, flags, now);
    case Destroy(id) => DestroyedEffect(r, id);
    case UpdateState(id, state, now) =>
      var s := SlotOf(r, id, 0);
      if s < MAX_SERVICES { assert r.slots[s] in r.slots; }
    case Batch(id, commands, now) =>
    case SelfBatch(id, now) =>
      var s := SlotOf(r, id, 0);
      if s < MAX_SERVICES { assert r.slots[s] in r.slots; }
    case Collect(now) =>
      ScanKeepsInv(r, now, 0);
      ScanKeepsQueues(r, now, 0);
  }

  /** Slots without a service hold nothing. */
  predicate InactiveBlank(r: Registry)
    requires Shaped(r)
  {
    forall i: nat :: i < MAX_SERVICES && !Active(r, i) ==> r.slots[i] == Service(0, 0, 0, 0, [])
  }

  lemma {:induction false} ScanKeepsBlank(r: Registry, now: Long, i: nat)
    requires Inv(r) && InactiveBlank(r) && i <= MAX_SERVICES
    ensures InactiveBlank(Scan(r, now, i))
    decreases MAX_SERVICES - i
  {
    hide Bit, Ones, Destroyed, Stale;
    if i < MAX_SERVICES {
      if Active(r, i) && Stale(r.slots[i], now) {
        DestroyedEffect(r, r.slots[i].id);
        ScanKeepsBlank(Destroyed(r, r.slots[i].id).0, now, i + 1);
      } else {
        ScanKeepsBlank(r, now, i + 1);
      }
    }
  }

  lemma StepKeepsBlank(r: Registry, call: Call)
    requires Inv(r) && InactiveBlank(r)
    ensures InactiveBlank(Step(r, call))
  {
    hide Bit, Ones, Destroyed, Scan, Filtered, Bounded, Echo;
    match call
    case Create(id, flags, now) => CreatedEffect(r, id, flags, now);
    case Destroy(id) => DestroyedEffect(r, id);
    case Collect(now) => ScanKeepsBlank(r, now, 0);
    case _ =>
  }

  lemma {:induction false} RunKeepsBlank(r: Registry, calls: seq<Call>)
    requires Inv(r) && QueuesBounded(r) && InactiveBlank(r)
    ensures Shaped(Run(r, calls)) && InactiveBlank(Run(r, calls))
    decreases |calls|
  {
    hide Step, InactiveBlank;
    if calls != [] {
      StepKeepsInv(r, calls[0]);
      StepKeepsBlank(r, calls[0]);
      RunKeepsBlank(Step(r, calls[0]), calls[1..]);
    }
  }

  /** In every run a slot that is not active is zero: destruction leaves nothing behind. */
  lemma InactiveSlotsAreBlank(now: Long, calls: seq<Call>)
    ensures Shaped(Run(Initial(now), calls)) && InactiveBlank(Run(Initial(now), calls))
  {
    InitialInv(now);
    RunKeepsInv(Initial(now), calls);
    RunKeepsBlank(Initial(now), calls);
  }

  lemma {:induction false} RunKeepsInv(r: Registry, calls: seq<Call>)
    requires Inv(r) && QueuesBounded(r)
    ensures Inv(Run(r, calls)) && QueuesBounded(Run(r, calls))
    decreases |calls|
  {
    if calls != [] {
      StepKeepsInv(r, calls[0]);
      RunKeepsInv(Step(r, calls[0]), calls[1..]);
    }
  }

  /** In every run `count` is the number of set bits of the mask, so the free-slot search of
      the next creation stops below 32 unless all 32 slots are taken; no queue overflows. */
  lemma CountMatchesMask(now: Long, calls: seq<Call>)
    ensures var r := Run(Initial(now), calls);
            && Shaped(r) && r.count == Ones(r.mask, MAX_SERVICES)
            && (FreeSlot(r.mask, 0) < MAX_SERVICES <==> r.count < MAX_SERVICES)
            && QueuesBounded(r)
  {
    InitialInv(now);
    RunKeepsInv(Initial(now), calls);
    FreeSlotExists(Run(Initial(now), calls));
  }

  lemma {:induction false} NoOnesInZero(n: nat)
    ensures Ones(0, n) == 0
  {
    if n > 0 { NoOnesInZero(n - 1); }
  }

  lemma InitialInv(now: Long)
    ensures Inv(Initial(now)) && QueuesBounded(Initial(now))
  {
    NoOnesInZero(MAX_SERVICES);
  }

  // ----- Garbage collection

  /** The table as its users see it: active slots and their services. */
  function Services(r: Registry): (m: map<nat, Service>)
    requires Shaped(r)
  {
    map i: nat | i < MAX_SERVICES && Active(r, i) :: r.slots[i]
  }

  function FreshServices(r: Registry, now: Long): (m: map<nat, Service>)
    requires Shaped(r)
  {
    map i: nat | i < MAX_SERVICES && Active(r, i) && !Stale(r.slots[i], now) :: r.slots[i]
  }

  /** No fresh service sits in a lower slot than a stale one of the same id. Distinct ids
      are a special case. */
  predicate StaleFirst(r: Registry, now: Long)
    requires Shaped(r)
  {
    forall i: nat, j: nat | i < j < MAX_SERVICES && Active(r, i) && Active(r, j) && r.slots[i].id == r.slots[j].id ::
      Stale(r.slots[j], now) ==> Stale(r.slots[i], now)
  }

  /** How many active slots below `n` hold a service with the id. */
  function Rank(r: Registry, id: Word, n: nat): (k: nat)
    requires Shaped(r) && n <= MAX_SERVICES
  {
    if n == 0 then 0
    else Rank(r, id, n - 1) + (if Active(r, n - 1) && r.slots[n - 1].id == id then 1 else 0)
  }

  /** How many of them are stale. */
  function StaleRank(r: Registry, id: Word, now: Long, n: nat): (k: nat)
    requires Shaped(r) && n <= MAX_SERVICES
  {
    if n == 0 then 0
    else
      StaleRank(r, id, now, n - 1)
      + (if Active(r, n - 1) && r.slots[n - 1].id == id && Stale(r.slots[n - 1], now) then 1 else 0)
  }

  lemma {:induction false} StaleRankBelow(r: Registry, id: Word, now: Long, n: nat)
    requires Shaped(r) && n <= MAX_SERVICES
    ensures StaleRank(r, id, now, n) <= Rank(r, id, n)
  {
    if n > 0 { StaleRankBelow(r, id, now, n - 1); }
  }

  lemma {:induction false} RankGrows(r: Registry, id: Word, i: nat, n: nat)
    requires Shaped(r) && i < n <= MAX_SERVICES && Active(r, i) && r.slots[i].id == id
    ensures Rank(r, id, i) < Rank(r, id, n)
    decreases n
  {
    if i < n - 1 { RankGrows(r, id, i, n - 1); }
  }

  /** The service with the next lower rank. */
  lemma {:induction false} Previous(r: Registry, id: Word, n: nat) returns (p: nat)
    requires Shaped(r) && n <= MAX_SERVICES && Rank(r, id, n) > 0
    ensures p < n && Active(r, p) && r.slots[p].id == id && Rank(r, id, p) == Rank(r, id, n) - 1
  {
    if Active(r, n - 1) && r.slots[n - 1].id == id {
      p := n - 1;
    } else {
      p := Previous(r, id, n - 1);
    }
  }

  /** Whether slot `k` is among those left when of each id the lowest are gone, as many as
      there are stale services of this id below slot `i`. */
  predicate Left(r: Registry, now: Long, i: nat, k: nat)
    requires Shaped(r) && i <= MAX_SERVICES && k < MAX_SERVICES
  {
    Active(r, k) && Rank(r, r.slots[k].id, k) >= StaleRank(r, r.slots[k].id, now, i)
  }

  predicate SweptTo(r0: Registry, r: Registry, now: Long, i: nat)
    requires Shaped(r0) && Shaped(r) && i <= MAX_SERVICES
  {
    forall k: nat :: k < MAX_SERVICES ==>
      && (Active(r, k) <==> Left(r0, now, i, k))
      && (Active(r, k) ==> r.slots[k] == r0.slots[k])
  }

  /** The scan does not pass over a stale slot: what is gone of its id has lower rank. */
  lemma StaleIsStillThere(r0: Registry, r: Registry, now: Long, i: nat)
    requires Shaped(r0) && Shaped(r) && i < MAX_SERVICES && SweptTo(r0, r, now, i)
    ensures Active(r, i) && Stale(r.slots[i], now) <==> Active(r0, i) && Stale(r0.slots[i], now)
  {
    hide Bit, Rank, StaleRank, Stale;
    StaleRankBelow(r0, r0.slots[i].id, now, i);
  }

  /** Destruction by id hits the lowest service that is left. */
  lemma LowestRank(r0: Registry, r: Registry, now: Long, i: nat, id: Word)
    requires Shaped(r0) && Shaped(r) && i <= MAX_SERVICES && SweptTo(r0, r, now, i)
    requires SlotOf(r, id, 0) < MAX_SERVICES
    ensures var s := SlotOf(r, id, 0);
            Active(r0, s) && r0.slots[s].id == id && Rank(r0, id, s) == StaleRank(r0, id, now, i)
  {
    hide Bit, Rank, StaleRank, Stale;
    var s := SlotOf(r, id, 0);
    if Rank(r0, id, s) > StaleRank(r0, id, now, i) {
      var p := Previous(r0, id, s);
      assert false;
    }
  }

  lemma LeftAfter(r0: Registry, now: Long, i: nat, s: nat, k: nat)
    requires Shaped(r0) && i < MAX_SERVICES && s < MAX_SERVICES && k < MAX_SERVICES
    requires Active(r0, i) && Stale(r0.slots[i], now)
    requires Active(r0, s) && r0.slots[s].id == r0.slots[i].id
    requires Rank(r0, r0.slots[i].id, s) == StaleRank(r0, r0.slots[i].id, now, i)
    ensures Left(r0, now, i + 1, k) <==> Left(r0, now, i, k) && k != s
  {
    hide Bit, Rank, Stale;
    var id := r0.slots[i].id;
    if Active(r0, k) && r0.slots[k].id == id {
      if k < s { RankGrows(r0, id, k, s); }
      if s < k { RankGrows(r0, id, s, k); }
    }
  }

  lemma SweepOne(r0: Registry, r: Registry, now: Long, i: nat)
    requires Shaped(r0) && Inv(r) && i < MAX_SERVICES && SweptTo(r0, r, now, i)
    requires Active(r, i) && Stale(r.slots[i], now)
    ensures SweptTo(r0, Destroyed(r, r.slots[i].id).0, now, i + 1)
  {
    hide Bit, Rank, StaleRank, Stale, Left, Destroyed, Ones;
    var id := r.slots[i].id;
    var s := SlotOf(r, id, 0);
    assert s <= i;
    StaleIsStillThere(r0, r, now, i);
    LowestRank(r0, r, now, i, id);
    DestroyedEffect(r, id);
    var r' := Destroyed(r, id).0;
    forall k: nat | k < MAX_SERVICES
      ensures Active(r', k) <==> Left(r0, now, i + 1, k)
      ensures Active(r', k) ==> r'.slots[k] == r0.slots[k]
    {
      LeftAfter(r0, now, i, s, k);
    }
  }

  lemma SweepPasses(r0: Registry, r: Registry, now: Long, i: nat)
    requires Shaped(r0) && Shaped(r) && i < MAX_SERVICES && SweptTo(r0, r, now, i)
    requires !(Active(r, i) && Stale(r.slots[i], now))
    ensures SweptTo(r0, r, now, i + 1)
  {
    hide Bit, Rank, Stale;
    StaleIsStillThere(r0, r, now, i);
  }

  lemma {:induction false} SweepExact(r0: Registry, r: Registry, now: Long, i: nat)
    requires Shaped(r0) && Inv(r) && i <= MAX_SERVICES && SweptTo(r0, r, now, i)
    ensures SweptTo(r0, Scan(r, now, i), now, MAX_SERVICES)
    decreases MAX_SERVICES - i
  {
    hide SweptTo, Destroyed, Ones, Stale;
    if i < MAX_SERVICES {
      if Active(r, i) && Stale(r.slots[i], now) {
        SweepOne(r0, r, now, i);
        DestroyedEffect(r, r.slots[i].id);
        SweepExact(r0, Destroyed(r, r.slots[i].id).0, now, i + 1);
      } else {
        SweepPasses(r0, r, now, i);
        SweepExact(r0, r, now, i + 1);
      }
    }
  }

  /** What collection leaves of any table, shared ids or not: of each id the lowest slots go,
      as many as there are stale services of this id, whichever they are; the others stay
      unchanged in place. */
  lemma CollectionSurvivors(r: Registry, now: Long)
    requires Inv(r)
    ensures Services(Collected(r, now))
         == map k: nat | k < MAX_SERVICES && Left(r, now, MAX_SERVICES, k) :: r.slots[k]
    ensures Collected(r, now).lastGc == now
  {
    hide Ones, StaleRank, Bit;
    assert SweptTo(r, r, now, 0) by { NothingSwept(r, now); }
    SweepExact(r, r, now, 0);
  }

  lemma NothingSwept(r: Registry, now: Long)
    requires Shaped(r)
    ensures SweptTo(r, r, now, 0)
  {
  }

  /** If all services of an id below slot `n` are stale, their two ranks agree. */
  lemma {:induction false} AllStaleBelow(r: Registry, id: Word, now: Long, n: nat)
    requires Shaped(r) && n <= MAX_SERVICES
    requires forall k: nat :: k < n && Active(r, k) && r.slots[k].id == id ==> Stale(r.slots[k], now)
    ensures StaleRank(r, id, now, n) == Rank(r, id, n)
  {
    if n > 0 { AllStaleBelow(r, id, now, n - 1); }
  }

  /** Stale services from slot `i` on add to the stale rank. */
  lemma {:induction false} StaleRankGrows(r: Registry, id: Word, now: Long, i: nat, n: nat)
    requires Shaped(r) && i <= n <= MAX_SERVICES
    ensures StaleRank(r, id, now, i) <= StaleRank(r, id, now, n)
    ensures (forall k: nat :: i <= k < n && Active(r, k) && r.slots[k].id == id ==> !Stale(r.slots[k], now)) ==>
              StaleRank(r, id, now, i) == StaleRank(r, id, now, n)
    decreases n
  {
    if i < n { StaleRankGrows(r, id, now, i, n - 1); }
  }

  lemma FreshIsLeft(r: Registry, now: Long, k: nat)
    requires Shaped(r) && StaleFirst(r, now) && k < MAX_SERVICES && Active(r, k)
    ensures Left(r, now, MAX_SERVICES, k) <==> !Stale(r.slots[k], now)
  {
    hide Bit, Stale, Rank;
    var id := r.slots[k].id;
    if Stale(r.slots[k], now) {
      AllStaleBelow(r, id, now, k);
      StaleRankGrows(r, id, now, k + 1, MAX_SERVICES);
    } else {
      StaleRankBelow(r, id, now, k);
      StaleRankGrows(r, id, now, k, MAX_SERVICES);
    }
  }

  /** Collection keeps exactly the fresh services, unchanged and in their slots, if and only
      if no fresh service sits below a stale one of the same id. */
  lemma CollectionExact(r: Registry, now: Long)
    requires Inv(r)
    ensures Services(Collected(r, now)) == FreshServices(r, now) <==> StaleFirst(r, now)
  {
    hide Ones, Bit, Stale, Rank, StaleRank, Collected;
    CollectionSurvivors(r, now);
    if StaleFirst(r, now) {
      forall k: nat | k < MAX_SERVICES && Active(r, k)
        ensures Left(r, now, MAX_SERVICES, k) <==> !Stale(r.slots[k], now)
      {
        FreshIsLeft(r, now, k);
      }
    } else {
      var f: nat, j: nat :| f < j < MAX_SERVICES && Active(r, f) && Active(r, j)
                            && r.slots[f].id == r.slots[j].id
                            && Stale(r.slots[j], now) && !Stale(r.slots[f], now);
      RankGrows(r, r.slots[f].id, f, j);
      assert f in FreshServices(r, now) && j !in FreshServices(r, now);
    }
  }

  /** No other active service has the id of the one in slot `s`. */
  predicate Alone(r: Registry, s: nat)
    requires Shaped(r) && s < MAX_SERVICES
  {
    forall k: nat :: k < MAX_SERVICES && k != s && Active(r, k) ==> r.slots[k].id != r.slots[s].id
  }

  lemma FreshSurvives(r: Registry, s: nat, now: Long)
    requires Inv(r) && s < MAX_SERVICES && Active(r, s) && Alone(r, s) && !Stale(r.slots[s], now)
    ensures s in Services(Collected(r, now)) && Services(Collected(r, now))[s] == r.slots[s]
  {
    hide Ones, Bit, Stale, Rank, Collected, Services;
    CollectionSurvivors(r, now);
    StaleRankGrows(r, r.slots[s].id, now, 0, MAX_SERVICES);
  }

  lemma NotYetStale(service: Service, now: Long)
    requires service.lastUpdate <= now <= service.lastUpdate + 3600
    ensures !Stale(service, now)
  {
    NoWrap(now - service.lastUpdate);
  }

  /** A state update lets a service live for another 3600 seconds, with the new state. */
  lemma UpdateKeepsAlive(r: Registry, id: Word, state: Word, now: Long, later: Long)
    requires Inv(r) && SlotOf(r, id, 0) < MAX_SERVICES && Alone(r, SlotOf(r, id, 0))
    requires now <= later <= now + 3600
    ensures var s := SlotOf(r, id, 0);
            var m := Services(Collected(Updated(r, id, state, now).0, later));
            && s in m && m[s].id == id && m[s].state == state && m[s].lastUpdate == now
            && m[s].flags == r.slots[s].flags && m[s].queue == r.slots[s].queue
  {
    hide Ones, Bit, Stale, Collected, Services;
    var s := SlotOf(r, id, 0);
    var r' := Updated(r, id, state, now).0;
    NotYetStale(r'.slots[s], later);
    FreshSurvives(r', s, later);
  }

  /** So does a batch, even one of which nothing is queued. */
  lemma BatchKeepsAlive(r: Registry, id: Word, commands: seq<Command>, now: Long, later: Long)
    requires Inv(r) && SlotOf(r, id, 0) < MAX_SERVICES && Alone(r, SlotOf(r, id, 0))
    requires now <= later <= now + 3600
    ensures var s := SlotOf(r, id, 0);
            var r' := Batched(r, id, commands, now).0;
            var m := Services(Collected(r', later));
            && Shaped(r') && s in m && m[s] == r'.slots[s]
            && m[s].id == id && m[s].state == r.slots[s].state && m[s].flags == r.slots[s].flags
            && m[s].lastUpdate == now
  {
    hide Ones, Bit, Stale, Collected, Services, Filtered, Bounded;
    var s := SlotOf(r, id, 0);
    var r' := Batched(r, id, commands, now).0;
    NotYetStale(r'.slots[s], later);
    FreshSurvives(r', s, later);
  }

  /** Distinct ids suffice, and then what is collected is what has been idle for more than
      3600 seconds, as long as the clock is not behind any service. */
  lemma CollectionExactForDistinctIds(r: Registry, now: Long)
    requires Inv(r)
    requires forall i: nat, j: nat :: i < j < MAX_SERVICES && Active(r, i) && Active(r, j)
               ==> r.slots[i].id != r.slots[j].id
    requires forall i: nat :: i < MAX_SERVICES && Active(r, i) ==> r.slots[i].lastUpdate <= now
    ensures Services(Collected(r, now))
         == map i: nat | i < MAX_SERVICES && Active(r, i) && now - r.slots[i].lastUpdate <= TIMEOUT :: r.slots[i]
  {
    hide Bit, Ones, Collected;
    CollectionExact(r, now);
    assert StaleFirst(r, now);
    forall i: nat | i < MAX_SERVICES && Active(r, i)
      ensures Stale(r.slots[i], now) <==> now - r.slots[i].lastUpdate > TIMEOUT
    {
      NoWrap(now - r.slots[i].lastUpdate);
    }
  }

  /** The subtraction is unsigned: a service updated after the collector's clock was read
      counts as stale, up to the last 3600 values before the wrap-around. */
  lemma ClockBehindIsStale(service: Service, now: Long)
    requires service.lastUpdate > now
    ensures Stale(service, now) <==> service.lastUpdate - now < LONG - TIMEOUT
  {
    NoWrap(now - service.lastUpdate + LONG);
  }

  lemma NoWrap(d: int)
    requires 0 <= d < LONG
    ensures d % LONG == d
  {
  }

  /** Two services created under one id, and the lower one updated later. */
  function SharedIdRun(): (calls: seq<Call>) {
    [Create(7, 0, 0), Create(7, 0, 0), UpdateState(7, 0, 5000)]
  }

  /** Slot `s` is the one the next creation takes. */
  lemma CreatedAt(r: Registry, s: nat, id: Word, flags: Word, now: Long)
    requires Inv(r) && s < MAX_SERVICES && !Active(r, s) && forall i: nat :: i < s ==> Active(r, i)
    ensures var r' := Created(r, id, flags, now).0;
            && Inv(r') && r'.slots == r.slots[s := Service(id, flags, 0, now, [])]
            && forall i: nat :: i < MAX_SERVICES ==> (Active(r', i) <==> Active(r, i) || i == s)
  {
    CreatedEffect(r, id, flags, now);
    hide Created, Inv;
    var r' := Created(r, id, flags, now).0;
    var t: nat :| && t < MAX_SERVICES && !Active(r, t) && (forall i: nat :: i < t ==> Active(r, i))
                  && (forall i: nat :: i < MAX_SERVICES ==> (Active(r', i) <==> Active(r, i) || i == t))
                  && r'.slots == r.slots[t := Service(id, flags, 0, now, [])];
    assert t == s;
  }

  /** The lower of two services of one id is fresh, the upper one stale, and there is no other. */
  predicate FreshBelowStale(r: Registry, now: Long) {
    && Shaped(r) && (forall i: nat :: i < MAX_SERVICES ==> (Active(r, i) <==> i < 2))
    && r.slots[0].id == r.slots[1].id
    && !Stale(r.slots[0], now) && Stale(r.slots[1], now)
  }

  lemma RunThree(r: Registry, a: Call, b: Call, c: Call)
    requires Shaped(r)
    ensures Run(r, [a, b, c]) == Step(Step(Step(r, a), b), c)
  {
    hide Step;
    assert [a, b, c][1..] == [b, c] && [b, c][1..] == [c] && [c][1..] == [];
    assert Run(Step(r, a), [b, c]) == Run(Step(Step(r, a), b), [c]);
  }

  lemma SharedIdReached()
    ensures Inv(Run(Initial(0), SharedIdRun())) && FreshBelowStale(Run(Initial(0), SharedIdRun()), 5000)
  {
    hide Created, Ones, Bit;
    var r0 := Initial(0);
    InitialInv(0);
    forall i: nat
      ensures !Active(r0, i)
    {
      BitOfZero(i);
    }
    CreatedAt(r0, 0, 7, 0, 0);
    var r1 := Created(r0, 7, 0, 0).0;
    CreatedAt(r1, 1, 7, 0, 0);
    var r2 := Created(r1, 7, 0, 0).0;
    RunThree(r0, Create(7, 0, 0), Create(7, 0, 0), UpdateState(7, 0, 5000));
    assert SlotOf(r2, 7, 0) == 0;
    var r3 := Updated(r2, 7, 0, 5000).0;
    forall i: nat | i < MAX_SERVICES
      ensures Active(r3, i) <==> i < 2
    {
      assert Active(r2, i) <==> i < 2;
    }
  }

  /** Wherever that happens, the collector destroys the fresh service and keeps the stale one. */
  lemma FreshBelowStaleIsLost(r: Registry, now: Long)
    requires Inv(r) && FreshBelowStale(r, now)
    ensures !Active(Collected(r, now), 0) && Active(Collected(r, now), 1)
  {
    hide Bit, Ones, Stale;
    var id := r.slots[1].id;
    assert SlotOf(r, id, 0) == 0;
    var r' := Destroyed(r, id).0;
    DestroyedEffect(r, id);
    hide Destroyed;
    ScanUnfolds(r, r, now, 0);
    ScanUnfolds(r, r', now, 1);
    ScanLeavesAlone(r', now, 2);
  }

  /** The premise of exact collection matters: there is a run after which it fails. */
  lemma SharedIdLosesFreshService()
    ensures var r := Run(Initial(0), SharedIdRun());
            && FreshBelowStale(r, 5000)
            && !Active(Collected(r, 5000), 0) && Active(Collected(r, 5000), 1)
  {
    hide Run, Collected, FreshBelowStale;
    SharedIdReached();
    FreshBelowStaleIsLost(Run(Initial(0), SharedIdRun()), 5000);
  }

  lemma {:induction false} ScanLeavesAlone(r: Registry, now: Long, i: nat)
    requires Shaped(r) && i <= MAX_SERVICES
    requires forall k: nat :: i <= k < MAX_SERVICES ==> !Active(r, k)
    ensures Scan(r, now, i) == r
    decreases MAX_SERVICES - i
  {
    if i < MAX_SERVICES { ScanLeavesAlone(r, now, i + 1); }
  }

  /** How many active slots from `i` on hold a stale service. */
  function StaleCount(r: Registry, now: Long, i: nat): (n: nat)
    requires Shaped(r) && i <= MAX_SERVICES
    decreases MAX_SERVICES - i
  {
    if i == MAX_SERVICES then 0
    else StaleCount(r, now, i + 1) + (if Active(r, i) && Stale(r.slots[i], now) then 1 else 0)
  }

  lemma {:induction false} StaleCountAbove(r: Registry, r': Registry, now: Long, i: nat)
    requires Shaped(r) && Shaped(r') && i <= MAX_SERVICES
    requires forall k: nat :: i <= k < MAX_SERVICES ==>
               (Active(r', k) <==> Active(r, k)) && r'.slots[k] == r.slots[k]
    ensures StaleCount(r', now, i) == StaleCount(r, now, i)
    decreases MAX_SERVICES - i
  {
    if i < MAX_SERVICES { StaleCountAbove(r, r', now, i + 1); }
  }

  /** Even with shared ids, collection removes exactly as many services as are stale. */
  lemma {:induction false} CollectionCount(r: Registry, now: Long, i: nat)
    requires Inv(r) && i <= MAX_SERVICES
    ensures Scan(r, now, i).count == r.count - StaleCount(r, now, i)
    decreases MAX_SERVICES - i
  {
    if i < MAX_SERVICES {
      if Active(r, i) && Stale(r.slots[i], now) {
        var r' := Destroyed(r, r.slots[i].id).0;
        DestroyedEffect(r, r.slots[i].id);
        assert SlotOf(r, r.slots[i].id, 0) <= i;
        StaleCountAbove(r, r', now, i + 1);
        CollectionCount(r', now, i + 1);
      } else {
        CollectionCount(r, now, i + 1);
      }
    }
  }

  // ----- Queues and filters as sequences

  lemma {:induction false} FilterFuses(cs: seq<Command>, p: Command -> bool, q: Command -> bool)
    ensures Filtered(Filtered(cs, p), q) == Filtered(cs, c => p(c) && q(c))
  {
    if cs != [] {
      var n := |cs| - 1;
      FilterFuses(cs[..n], p, q);
      if p(cs[n]) {
        var f := Filtered(cs[..n], p);
        assert (f + [cs[n]])[..|f|] == f;
        assert Filtered(f + [cs[n]], q) == Filtered(f, q) + (if q(cs[n]) then [cs[n]] else []);
      } else {
        assert Filtered(cs, p) == Filtered(cs[..n], p);
      }
    }
  }

  /** Two batches leave a service as one batch of both does at the later time, and all else too. */
  lemma BatchesConcatenate(r: Registry, id: Word, a: seq<Command>, b: seq<Command>, now: Long, later: Long)
    requires Shaped(r) && QueuesBounded(r)
    ensures Batched(Batched(r, id, a, now).0, id, b, later) == Batched(r, id, a + b, later)
  {
    hide Filtered, Bounded, Bit, SlotOf;
    var s := SlotOf(r, id, 0);
    if s < MAX_SERVICES {
      var r1 := Batched(r, id, a, now).0;
      assert r.slots[s] in r.slots;
      SlotStays(r, r1, id, 0);
      QueueConcatenates(r.slots[s].queue, a, b);
      assert r1.slots[s := Batched(r, id, a + b, later).0.slots[s]] == Batched(r, id, a + b, later).0.slots;
    }
  }

  /** Changes that leave activity and ids alone do not change where a service is found. */
  lemma {:induction false} SlotStays(r: Registry, r': Registry, id: Word, from: nat)
    requires Shaped(r) && Shaped(r') && from <= MAX_SERVICES && r'.mask == r.mask
    requires forall k: nat :: k < MAX_SERVICES ==> r'.slots[k].id == r.slots[k].id
    ensures SlotOf(r', id, from) == SlotOf(r, id, from)
    decreases MAX_SERVICES - from
  {
    if from < MAX_SERVICES { SlotStays(r, r', id, from + 1); }
  }

  /** What a batch of one command does: the service found is touched, the command is queued
      exactly if it has at most 4096 bytes and there is room among the 64. */
  lemma SingleBatch(r: Registry, id: Word, c: Command, now: Long)
    requires Shaped(r) && QueuesBounded(r)
    ensures var s := SlotOf(r, id, 0);
            var (r', status) := Batched(r, id, [c], now);
            if s == MAX_SERVICES then status == ServiceError && r' == r
            else
              && status == Success && |r'.slots| == |r.slots|
              && r'.count == r.count && r'.mask == r.mask && r'.lastGc == r.lastGc
              && (forall k: nat :: k < MAX_SERVICES && k != s ==> r'.slots[k] == r.slots[k])
              && var old_, new_ := r.slots[s], r'.slots[s];
                 && new_.id == id && new_.flags == old_.flags && new_.state == old_.state && new_.lastUpdate == now
                 && new_.queue == if c.payloadSize <= 4096 && |old_.queue| < 64 then old_.queue + [c] else old_.queue
  {
    var s := SlotOf(r, id, 0);
    assert [c][..0] == [];
    assert Filtered([c], LegalSize) == if LegalSize(c) then [c] else [];
    if s < MAX_SERVICES { assert r.slots[s] in r.slots; }
  }

  lemma QueueConcatenates(queue: seq<Command>, a: seq<Command>, b: seq<Command>)
    requires |queue| <= MAX_COMMANDS
    ensures Bounded(Bounded(queue + Filtered(a, LegalSize)) + Filtered(b, LegalSize))
         == Bounded(queue + Filtered(a + b, LegalSize))
  {
    FilteredConcat(a, b, LegalSize);
    var fa, fb := Filtered(a, LegalSize), Filtered(b, LegalSize);
    assert queue + (fa + fb) == (queue + fa) + fb;
    if |queue + fa| > MAX_COMMANDS {
      assert ((queue + fa) + fb)[..MAX_COMMANDS] == (queue + fa)[..MAX_COMMANDS];
      assert Bounded(Bounded(queue + fa) + fb) == Bounded(queue + fa);
    }
  }

  lemma {:induction false} FilteredConcat(a: seq<Command>, b: seq<Command>, p: Command -> bool)
    ensures Filtered(a + b, p) == Filtered(a, p) + Filtered(b, p)
    decreases |b|
  {
    if b == [] {
      assert a + b == a;
    } else {
      var n := |b| - 1;
      FilteredConcat(a, b[..n], p);
      assert (a + b)[..|a + b| - 1] == a + b[..n];
      assert (a + b)[|a + b| - 1] == b[n];
      var last := if p(b[n]) then [b[n]] else [];
      assert Filtered(a + b, p) == Filtered(a + b[..n], p) + last;
      assert Filtered(b, p) == Filtered(b[..n], p) + last;
    }
  }

  predicate AllLegal(cs: seq<Command>) {
    forall c :: c in cs ==> LegalSize(c)
  }

  lemma {:induction false} FilteredLegal(cs: seq<Command>)
    ensures AllLegal(Filtered(cs, LegalSize))
  {
    if cs != [] {
      FilteredLegal(cs[..|cs| - 1]);
    }
  }

  lemma {:induction false} EchoLegal(queue: seq<Command>, i: nat)
    requires i <= |queue| && AllLegal(queue)
    ensures AllLegal(Echo(queue, i))
    decreases if |queue| < MAX_COMMANDS then MAX_COMMANDS - |queue| else 0, |queue| - i
  {
    if i < |queue| {
      assert queue[i] in queue;
      EchoLegal(if |queue| < MAX_COMMANDS then queue + [queue[i]] else queue, i + 1);
    }
  }

  predicate QueuesLegal(r: Registry) {
    forall s :: s in r.slots ==> AllLegal(s.queue)
  }

  lemma {:induction false} ScanKeepsLegal(r: Registry, now: Long, i: nat)
    requires Shaped(r) && QueuesLegal(r) && i <= MAX_SERVICES
    ensures QueuesLegal(Scan(r, now, i))
    decreases MAX_SERVICES - i
  {
    if i < MAX_SERVICES {
      if Active(r, i) && Stale(r.slots[i], now) {
        ScanKeepsLegal(Destroyed(r, r.slots[i].id).0, now, i + 1);
      } else {
        ScanKeepsLegal(r, now, i + 1);
      }
    }
  }

  lemma BatchKeepsLegal(queue: seq<Command>, commands: seq<Command>)
    requires AllLegal(queue)
    ensures AllLegal(Bounded(queue + Filtered(commands, LegalSize))) && AllLegal(Echo(queue, 0))
  {
    FilteredLegal(commands);
    EchoLegal(queue, 0);
  }

  lemma StepKeepsLegal(r: Registry, call: Call)
    requires Shaped(r) && QueuesLegal(r)
    ensures QueuesLegal(Step(r, call))
  {
    hide AllLegal, Echo, Filtered, Bounded, Scan;
    assert AllLegal([]) by { FilteredLegal([]); }
    if call.Collect? {
      ScanKeepsLegal(r, call.now, 0);
    } else if !call.Create? && SlotOf(r, call.id, 0) < MAX_SERVICES {
      var service := r.slots[SlotOf(r, call.id, 0)];
      assert service in r.slots;
      BatchKeepsLegal(service.queue, if call.Batch? then call.commands else []);
    }
  }

  /** In every run the queues hold commands of legal size only. */
  lemma {:induction false} QueuedCommandsAreLegal(r: Registry, calls: seq<Call>)
    requires Shaped(r) && QueuesLegal(r)
    ensures QueuesLegal(Run(r, calls))
    decreases |calls|
  {
    if calls != [] {
      StepKeepsLegal(r, calls[0]);
      QueuedCommandsAreLegal(Step(r, calls[0]), calls[1..]);
    }
  }

  /** `p` is `q` over and over: it begins with `q` and has its length as a period. */
  predicate Repeats(p: seq<Command>, q: seq<Command>) {
    q <= p && forall j :: |q| <= j < |p| ==> p[j] == p[j - |q|]
  }

  lemma {:induction false} EchoRepeatsFrom(q: seq<Command>, p: seq<Command>, i: nat)
    requires q != [] && i <= |p| && AllLegal(p) && Repeats(p, q)
    requires |p| == if i + |q| < MAX_COMMANDS then i + |q| else MAX_COMMANDS
    ensures |Echo(p, i)| == MAX_COMMANDS && Repeats(Echo(p, i), q)
    decreases MAX_COMMANDS - i
  {
    if i < |p| {
      assert p[i] in p;
      if |p| < MAX_COMMANDS {
        EchoRepeatsFrom(q, p + [p[i]], i + 1);
      } else {
        EchoRepeatsFrom(q, p, i + 1);
      }
    }
  }

  lemma EchoFills(q: seq<Command>)
    requires 0 < |q| <= MAX_COMMANDS && AllLegal(q)
    ensures |Echo(q, 0)| == MAX_COMMANDS && Repeats(Echo(q, 0), q)
  {
    EchoRepeatsFrom(q, q, 0);
  }

  /** A batch that is the service's own queue does not append the queue once: it repeats it
      until the queue is full, and touches the service. */
  lemma SelfBatchFills(r: Registry, id: Word, now: Long)
    requires Shaped(r) && QueuesBounded(r) && QueuesLegal(r)
    requires var s := SlotOf(r, id, 0); s < MAX_SERVICES && r.slots[s].queue != []
    ensures var s := SlotOf(r, id, 0);
            var (r', status) := SelfBatched(r, id, now);
            && status == Success && Shaped(r')
            && |r'.slots[s].queue| == 64 && Repeats(r'.slots[s].queue, r.slots[s].queue)
            && r' == r.(slots := r.slots[s := r.slots[s].(queue := r'.slots[s].queue, lastUpdate := now)])
  {
    hide Echo, AllLegal, Repeats;
    assert r.slots[SlotOf(r, id, 0)] in r.slots;
    EchoFills(r.slots[SlotOf(r, id, 0)].queue);
  }

  /** polycall_micro_filter_commands: the kept commands are moved to the front of the buffer
      and the new count is returned. */
  method FilterCommands(commands: array<Command>, count: nat, keep: Command -> bool) returns (kept: nat)
    requires count <= commands.Length
    modifies commands
    ensures kept <= count
    ensures commands[..kept] == Filtered(old(commands[..count]), keep)
    ensures commands[count..] == old(commands[count..])
  {
    ghost var before := commands[..count];
    kept := 0;
    for read := 0 to count
      invariant kept <= read
      invariant commands[..kept] == Filtered(before[..read], keep)
      invariant commands[read..] == old(commands[read..])
    {
      assert before[..read + 1][..read] == before[..read];
      assert commands[read] == commands[read..][0] == before[read];
      if keep(commands[read]) {
        if kept != read {
          commands[kept] := commands[read];
        }
        kept := kept + 1;
      }
      assert commands[read + 1..] == old(commands[read..])[1..];
    }
    assert before[..count] == before;
  }

  // ----- The mutable table

  class ServiceTable {
    const slots: array<Service>
    var count: Word
    var mask: Word
    var lastGc: Long

    ghost predicate Valid()
      reads this, slots
    {
      slots.Length == MAX_SERVICES && Inv(Model()) && QueuesBounded(Model())
    }

    ghost function Model(): (r: Registry)
      reads this, slots
    {
      Registry(slots[..], count, mask, lastGc)
    }

    constructor (now: Long)
      ensures Valid() && Model() == Initial(now) && fresh(slots)
    {
      slots := new Service[MAX_SERVICES](_ => BLANK);
      count, mask, lastGc := 0, 0, now;
      new;
      InitialInv(now);
      assert slots[..] == Initial(now).slots;
    }

    method Create(id: Word, flags: Word, now: Long) returns (status: Status)
      requires Valid()
      modifies this, slots
      ensures Valid()
      ensures (Model(), status) == Created(old(Model()), id, flags, now)
    {
      CreatedEffect(Model(), id, flags, now);
      CreatedQueues(Model(), id, flags, now);
      hide QueuesBounded;
      if count >= MAX_SERVICES {
        return ServiceError;
      }
      FreeSlotExists(Model());
      FlagTest(mask, 0);
      var slot := 0;
      while And32(mask, Flag(slot)) != 0
        invariant slot <= FreeSlot(mask, 0) < MAX_SERVICES
        invariant (And32(mask, Flag(slot)) != 0) == Bit(mask, slot)
        invariant forall i: nat :: i < slot ==> Bit(mask, i)
        decreases MAX_SERVICES - slot
        modifies {}
      {
        slot := slot + 1;
        FlagTest(mask, slot);
      }
      assert slot == FreeSlot(mask, 0);
      slots[slot] := Service(id, flags, 0, now, []);
      assert slots[..] == old(slots[..])[slot := Service(id, flags, 0, now, [])];
      mask := Or32(mask, Flag(slot));
      count := (count + 1) % WORD;
      status := Success;
    }

    /** The search shared by destroy, update and batch. */
    method Find(id: Word) returns (slot: nat)
      requires Valid()
      ensures slot == SlotOf(Model(), id, 0)
    {
      slot := 0;
      while slot < MAX_SERVICES
        invariant slot <= SlotOf(Model(), id, 0)
      {
        FlagTest(mask, slot);
        if And32(mask, Flag(slot)) != 0 && slots[slot].id == id {
          return;
        }
        slot := slot + 1;
      }
    }

    method Destroy(id: Word) returns (status: Status)
      requires Valid()
      modifies this, slots
      ensures Valid()
      ensures (Model(), status) == Destroyed(old(Model()), id)
    {
      StepKeepsInv(Model(), Call.Destroy(id));
      hide Ones, Bit, Flag, And32, Not32, QueuesBounded;
      var slot := Find(id);
      if slot == MAX_SERVICES {
        return ServiceError;
      }
      slots[slot] := BLANK;
      mask := And32(mask, Not32(Flag(slot)));
      count := (count - 1) % WORD;
      status := Success;
    }

    method UpdateState(id: Word, state: Word, now: Long) returns (status: Status)
      requires Valid()
      modifies slots
      ensures Valid()
      ensures (Model(), status) == Updated(old(Model()), id, state, now)
    {
      StepKeepsInv(Model(), Call.UpdateState(id, state, now));
      var slot := Find(id);
      if slot == MAX_SERVICES {
        return ServiceError;
      }
      slots[slot] := slots[slot].(state := state, lastUpdate := now);
      status := Success;
    }

    method BatchProcess(id: Word, commands: seq<Command>, now: Long) returns (status: Status)
      requires Valid()
      modifies slots
      ensures Valid()
      ensures (Model(), status) == Batched(old(Model()), id, commands, now)
    {
      var slot := Find(id);
      if slot == MAX_SERVICES {
        return ServiceError;
      }
      assert slots[slot] in Model().slots;
      var before := slots[slot].queue;
      var queue := before;
      for i := 0 to |commands|
        invariant queue == Bounded(before + Filtered(commands[..i], LegalSize))
        invariant slots[..] == old(slots[..])
      {
        assert commands[..i + 1][..i] == commands[..i];
        assert before + (Filtered(commands[..i], LegalSize) + [commands[i]])
            == (before + Filtered(commands[..i], LegalSize)) + [commands[i]];
        if commands[i].payloadSize <= COMMAND_BUFFER {
          if |queue| < MAX_COMMANDS {
            queue := queue + [commands[i]];
          }
        }
      }
      assert commands[..|commands|] == commands;
      slots[slot] := slots[slot].(queue := queue, lastUpdate := now);
      status := Success;
    }

    /** polycall_micro_batch_process when it is given the service's own queue. */
    method SelfBatchProcess(id: Word, now: Long) returns (status: Status)
      requires Valid()
      modifies slots
      ensures Valid()
      ensures (Model(), status) == SelfBatched(old(Model()), id, now)
    {
      var slot := Find(id);
      if slot == MAX_SERVICES {
        return ServiceError;
      }
      assert slots[slot] in Model().slots;
      ghost var before := slots[slot].queue;
      var queue, i := slots[slot].queue, 0;
      while i < |queue|
        invariant i <= |queue| <= MAX_COMMANDS
        invariant Echo(queue, i) == Echo(before, 0)
        invariant slots[..] == old(slots[..])
        decreases MAX_COMMANDS - i
      {
        if queue[i].payloadSize <= COMMAND_BUFFER {
          if |queue| < MAX_COMMANDS {
            queue := queue + [queue[i]];
          }
        }
        i := i + 1;
      }
      slots[slot] := slots[slot].(queue := queue, lastUpdate := now);
      status := Success;
    }

    method CollectGarbage(now: Long)
      requires Valid()
      modifies this, slots
      ensures Valid()
      ensures Model() == Collected(old(Model()), now)
    {
      ghost var goal := Scan(Model(), now, 0);
      var i := 0;
      while i < MAX_SERVICES
        invariant i <= MAX_SERVICES
        invariant Valid()
        invariant Scan(Model(), now, i) == goal
      {
        FlagTest(mask, i);
        ghost var before := Model();
        if And32(mask, Flag(i)) != 0 {
          if Stale(slots[i], now) {
            var _ := Destroy(slots[i].id);
          }
        }
        ScanUnfolds(before, Model(), now, i);
        i := i + 1;
      }
      lastGc := now;
    }
  }
}
