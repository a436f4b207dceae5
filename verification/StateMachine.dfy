/** The versioned, lockable state machine of src/polycall_state_machine.c.
    `AddedState` ... `Restored` give each call's effect on a machine value; the class at the
    end runs the same calls on mutable fields and is proved against them. */
module StateMachine {
  import opened Bits
  import opened Bytes
  import opened Checksum
  import opened Options

  const MAX_STATES := 32
  const MAX_TRANSITIONS := 64
  const NAME_SIZE := 32

  /** A C string: its terminating zero is not stored. */
  type CString = s: seq<Byte> | 0 !in s

  datatype State = State(
    name: CString, onEnter: Long, onExit: Long, isFinal: bool, id: Word,
    checksum: Word, timestamp: Long, version: Word, locked: bool)

  datatype Transition = Transition(name: CString, from: nat, to: nat, action: Long, guarded: bool)

  datatype Snapshot = Snapshot(state: State, timestamp: Long, checksum: Word)

  datatype Machine = Machine(
    states: seq<State>, transitions: seq<Transition>, current: nat,
    failedTransitions: Word, integrityViolations: Word)

  datatype Status =
    | Success | InvalidState | InvalidTransition | MaxStatesReached | MaxTransitionsReached
    | NotInitialized | IntegrityCheckFailed | StateLocked | VersionMismatch

  // ----- Helpers of the C file

  function Increment(x: Word): (r: Word) {
    (x + 1) % WORD
  }

  /** strncpy into a field of NAME_SIZE bytes. */
  function Clip(name: CString): (r: CString) {
    if |name| < NAME_SIZE then name else name[..NAME_SIZE - 1]
  }

  function Zeros(n: nat): (z: seq<Byte>)
    ensures |z| == n
  {
    seq(n, _ => 0)
  }

  /** The bytes of a state that lie before its checksum field, on an LP64 little-endian
      host: name, both action pointers, is_final with its padding, id. */
  function CoveredBytes(s: State): (bs: seq<Byte>) {
    Clip(s.name) + Zeros(NAME_SIZE - |Clip(s.name)|)
    + Le64(s.onEnter) + Le64(s.onExit)
    + [if s.isFinal then 1 else 0, 0, 0, 0] + Le32(s.id)
  }

  function StateChecksum(s: State): (r: Word) {
    Sum(8, 0, CoveredBytes(s))
  }

  /** update_state_timestamp. */
  function Touch(s: State, now: Long): (r: State) {
    s.(timestamp := now, version := Increment(s.version))
  }

  /** The index of the first transition called `name`, or the table's length. */
  function FirstNamed(ts: seq<Transition>, name: CString): (i: nat)
    ensures i <= |ts|
    ensures i < |ts| ==> ts[i].name == name
    ensures forall j :: 0 <= j < i ==> ts[j].name != name
  {
    if ts == [] || ts[0].name == name then 0 else 1 + FirstNamed(ts[1..], name)
  }

  // ----- The calls

  function NewState(id: Word, name: CString, onEnter: Long, onExit: Long, isFinal: bool, now: Long): (s: State) {
    var s := Touch(State(Clip(name), onEnter, onExit, isFinal, id, 0, 0, 1, false), now);
    s.(checksum := StateChecksum(s))
  }

  function AddedState(m: Machine, name: CString, onEnter: Long, onExit: Long, isFinal: bool, now: Long)
    : (r: (Machine, Status))
  {
    if |m.states| >= MAX_STATES then (m, MaxStatesReached)
    else (m.(states := m.states + [NewState(|m.states|, name, onEnter, onExit, isFinal, now)]), Success)
  }

  function AddedTransition(m: Machine, name: CString, from: nat, to: nat, action: Long, guarded: bool)
    : (r: (Machine, Status))
  {
    if |m.transitions| >= MAX_TRANSITIONS then (m, MaxTransitionsReached)
    else if from >= |m.states| || to >= |m.states| then (m, InvalidState)
    else (m.(transitions := m.transitions + [Transition(Clip(name), from, to, action, guarded)]), Success)
  }

  /** All transition endpoints name registered states. */
  predicate EndpointsInRange(m: Machine) {
    forall t :: t in m.transitions ==> t.from < |m.states| && t.to < |m.states|
  }

  /** `guardAllows` is the verdict of the guard, consulted only if there is one. */
  function Executed(m: Machine, name: CString, guardAllows: bool, now: Long): (r: (Machine, Status))
    requires EndpointsInRange(m)
  {
    var i := FirstNamed(m.transitions, name);
    if i == |m.transitions| then
      (m.(failedTransitions := Increment(m.failedTransitions)), InvalidTransition)
    else
      var t := m.transitions[i];
      if m.states[t.from].locked || m.states[t.to].locked then (m, StateLocked)
      else if t.guarded && !guardAllows then
        (m.(failedTransitions := Increment(m.failedTransitions)), InvalidTransition)
      else
        (m.(current := t.to, states := m.states[t.to := Touch(m.states[t.to], now)]), Success)
  }

  /** `customAccepts` is the verdict of the optional integrity callback. */
  function Verified(m: Machine, id: nat, customAccepts: bool): (r: (Machine, Status)) {
    if id >= |m.states| then (m, InvalidState)
    else if StateChecksum(m.states[id]) != m.states[id].checksum || !customAccepts then
      (m.(integrityViolations := Increment(m.integrityViolations)), IntegrityCheckFailed)
    else (m, Success)
  }

  function SetLock(m: Machine, id: nat, locked: bool, now: Long): (r: (Machine, Status)) {
    if id >= |m.states| then (m, InvalidState)
    else (m.(states := m.states[id := Touch(m.states[id].(locked := locked), now)]), Success)
  }

  /** What polycall_sm_create_state_snapshot copies out of an existing state. */
  function SnapshotOf(m: Machine, id: nat, now: Long): (snapshot: Snapshot)
    requires id < |m.states|
  {
    Snapshot(m.states[id], now, StateChecksum(m.states[id]))
  }

  function Restored(m: Machine, snapshot: Snapshot, now: Long): (r: (Machine, Status)) {
    var id := snapshot.state.id;
    if id >= |m.states| then (m, InvalidState)
    else if m.states[id].locked then (m, StateLocked)
    else if m.states[id].version != snapshot.state.version then (m, VersionMismatch)
    else (m.(states := m.states[id := Touch(snapshot.state, now)]), Success)
  }

  /** The actions a successful execution of `t` calls, in this order: leaving, on the way,
      entering; 0 stands for none. They are called for the registered `from`, whatever state
      is current. */
  function ActionsOf(m: Machine, t: Transition): (actions: seq<Long>)
    requires t.from < |m.states| && t.to < |m.states|
  {
    Present(m.states[t.from].onExit) + Present(t.action) + Present(m.states[t.to].onEnter)
  }

  function Present(action: Long): (actions: seq<Long>) {
    if action == 0 then [] else [action]
  }

  // ----- Runs

  datatype Call =
    | CallAddState(name: CString, onEnter: Long, onExit: Long, isFinal: bool, now: Long)
    | CallAddTransition(name: CString, from: nat, to: nat, action: Long, guarded: bool)
    | CallExecute(name: CString, guardAllows: bool, now: Long)
    | CallVerify(id: nat, customAccepts: bool)
    | CallLock(id: nat, now: Long)
    | CallUnlock(id: nat, now: Long)
    | CallSnapshot(id: nat, now: Long)
    | CallRestore(index: nat, now: Long)

  /** A snapshot together with the number of version bumps its state had seen. */
  datatype Taken = Taken(snapshot: Snapshot, at: nat)

  /** A machine with its history: every snapshot taken so far, and for every state how
      often its version was bumped since it was added, without wrap-around. */
  datatype World = World(machine: Machine, taken: seq<Taken>, bumps: seq<nat>)

  function Initial(): (w: World) {
    World(Machine([], [], 0, 0, 0), [], [])
  }

  predicate Shaped(w: World) {
    |w.bumps| == |w.machine.states| && EndpointsInRange(w.machine)
  }

  function Bump(w: World, m: Machine, id: nat): (r: World)
    requires Shaped(w) && id < |w.bumps|
  {
    World(m, w.taken, w.bumps[id := w.bumps[id] + 1])
  }

  /** The target of the transition a successful execution takes. */
  function TargetOf(m: Machine, name: CString): (id: nat)
    requires EndpointsInRange(m) && FirstNamed(m.transitions, name) < |m.transitions|
    ensures id < |m.states|
  {
    m.transitions[FirstNamed(m.transitions, name)].to
  }

  /** One API call: the next world and the status returned. */
  function Step(w: World, call: Call): (r: (World, Status))
    requires Shaped(w)
    ensures Shaped(r.0)
  {
    var m := w.machine;
    match call
    case CallAddState(name, onEnter, onExit, isFinal, now) =>
      var (m', status) := AddedState(m, name, onEnter, onExit, isFinal, now);
      (World(m', w.taken, if status == Success then w.bumps + [0] else w.bumps), status)
    case CallAddTransition(name, from, to, action, guarded) =>
      var (m', status) := AddedTransition(m, name, from, to, action, guarded);
      (w.(machine := m'), status)
    case CallExecute(name, guardAllows, now) =>
      var (m', status) := Executed(m, name, guardAllows, now);
      (if status == Success then Bump(w, m', TargetOf(m, name)) else w.(machine := m'), status)
    case CallVerify(id, customAccepts) =>
      var (m', status) := Verified(m, id, customAccepts);
      (w.(machine := m'), status)
    case CallLock(id, now) =>
      var (m', status) := SetLock(m, id, true, now);
      (if status == Success then Bump(w, m', id) else w, status)
    case CallUnlock(id, now) =>
      var (m', status) := SetLock(m, id, false, now);
      (if status == Success then Bump(w, m', id) else w, status)
    case CallSnapshot(id, now) =>
      if id >= |m.states| then (w, InvalidState)
      else
        (w.(taken := w.taken + [Taken(SnapshotOf(m, id, now), w.bumps[id])]), Success)
    case CallRestore(index, now) =>
      if index >= |w.taken| then (w, NotInitialized)
      else
        var snapshot := w.taken[index].snapshot;
        var (m', status) := Restored(m, snapshot, now);
        (if status == Success then Bump(w, m', snapshot.state.id) else w, status)
  }

  /** The world after a whole run. */
  function Run(w: World, calls: seq<Call>): (r: World)
    requires Shaped(w)
    ensures Shaped(r)
    decreases |calls|
  {
    if calls == [] then w else Run(Step(w, calls[0]).0, calls[1..])
  }

  // ----- The invariant of every run

  /** What never changes about a state. */
  predicate SameIdentity(s: State, t: State) {
    && s.name == t.name && s.onEnter == t.onEnter && s.onExit == t.onExit
    && s.isFinal == t.isFinal && s.id == t.id && s.checksum == t.checksum
  }

  predicate StateOk(s: State, id: nat, bumps: nat) {
    && s.id == id
    && s.checksum == StateChecksum(s)
    && s.version == (2 + bumps) % WORD
  }

  /** A snapshot agrees with its state on everything permanent, and on everything as long
      as the state has not been bumped since. */
  predicate TakenOk(w: World, t: Taken)
    requires Shaped(w)
  {
    var id := t.snapshot.state.id;
    && id < |w.bumps|
    && t.at <= w.bumps[id]
    && t.snapshot.state.version == (2 + t.at) % WORD
    && SameIdentity(t.snapshot.state, w.machine.states[id])
    && (t.at == w.bumps[id] ==> t.snapshot.state == w.machine.states[id])
  }

  ghost predicate Inv(w: World) {
    && Shaped(w)
    && |w.machine.states| <= MAX_STATES
    && |w.machine.transitions| <= MAX_TRANSITIONS
    && (w.machine.current == 0 || w.machine.current < |w.machine.states|)
    && (forall i :: 0 <= i < |w.bumps| ==> StateOk(w.machine.states[i], i, w.bumps[i]))
    && (forall k :: 0 <= k < |w.taken| ==> TakenOk(w, w.taken[k]))
  }

  lemma NextVersion(s: State, t: State, id: nat, bumps: nat)
    requires StateOk(t, id, bumps) && SameIdentity(s, t) && s.version == Increment(t.version)
    ensures StateOk(s, id, bumps + 1)
  {
    hide StateChecksum;
    SameChecksum(s, t);
  }

  lemma SameChecksum(s: State, t: State)
    requires SameIdentity(s, t)
    ensures StateChecksum(s) == StateChecksum(t)
  {
    assert CoveredBytes(s) == CoveredBytes(t);
  }

  lemma TakenStaysOk(w: World, w': World, t: Taken)
    requires Shaped(w) && Shaped(w') && |w.bumps| <= |w'.bumps| && TakenOk(w, t)
    requires var id := t.snapshot.state.id;
             if w'.bumps[id] == w.bumps[id] then w'.machine.states[id] == w.machine.states[id]
             else w'.bumps[id] > w.bumps[id] && SameIdentity(w'.machine.states[id], w.machine.states[id])
    ensures TakenOk(w', t)
  {
  }

  /** The one place where state contents change: the identity stays, the version moves on. */
  lemma BumpKeepsInv(w: World, m: Machine, id: nat, s: State)
    requires Inv(w) && id < |w.bumps|
    requires m.states == w.machine.states[id := s] && m.transitions == w.machine.transitions
    requires m.current == w.machine.current || m.current < |m.states|
    requires SameIdentity(s, w.machine.states[id])
    requires s.version == Increment(w.machine.states[id].version)
    ensures Inv(Bump(w, m, id))
  {
    hide StateOk, SameIdentity, Increment;
    var w' := Bump(w, m, id);
    NextVersion(s, w.machine.states[id], id, w.bumps[id]);
    forall k | 0 <= k < |w'.taken|
      ensures TakenOk(w', w'.taken[k])
    {
      TakenStaysOk(w, w', w.taken[k]);
    }
  }

  lemma FramesKeepInv(w: World, m: Machine)
    requires Inv(w)
    requires m.states == w.machine.states && m.current == w.machine.current
    requires EndpointsInRange(m) && |m.transitions| <= MAX_TRANSITIONS
    ensures Inv(w.(machine := m))
  {
    var w' := w.(machine := m);
    forall k | 0 <= k < |w'.taken|
      ensures TakenOk(w', w'.taken[k])
    {
      assert TakenOk(w, w.taken[k]);
    }
  }

  lemma NewStateOk(id: Word, name: CString, onEnter: Long, onExit: Long, isFinal: bool, now: Long)
    ensures StateOk(NewState(id, name, onEnter, onExit, isFinal, now), id, 0)
  {
    var s := NewState(id, name, onEnter, onExit, isFinal, now);
    assert CoveredBytes(s) == CoveredBytes(s.(checksum := 0));
  }

  lemma AddStateKeepsInv(w: World, name: CString, onEnter: Long, onExit: Long, isFinal: bool, now: Long)
    requires Inv(w)
    ensures Inv(Step(w, CallAddState(name, onEnter, onExit, isFinal, now)).0)
  {
    if |w.machine.states| < MAX_STATES {
      var w' := Step(w, CallAddState(name, onEnter, onExit, isFinal, now)).0;
      var n := |w.bumps|;
      var s := NewState(n, name, onEnter, onExit, isFinal, now);
      NewStateOk(n, name, onEnter, onExit, isFinal, now);
      hide NewState, StateOk;
      forall i | 0 <= i < |w'.bumps|
        ensures StateOk(w'.machine.states[i], i, w'.bumps[i])
      {
        if i < n { assert StateOk(w.machine.states[i], i, w.bumps[i]); }
      }
      forall k | 0 <= k < |w'.taken|
        ensures TakenOk(w', w'.taken[k])
      {
        assert TakenOk(w, w.taken[k]);
      }
    }
  }

  lemma SnapshotKeepsInv(w: World, id: nat, now: Long)
    requires Inv(w)
    ensures Inv(Step(w, CallSnapshot(id, now)).0)
  {
    if id < |w.machine.states| {
      var w' := Step(w, CallSnapshot(id, now)).0;
      assert StateOk(w.machine.states[id], id, w.bumps[id]);
      forall k | 0 <= k < |w'.taken|
        ensures TakenOk(w', w'.taken[k])
      {
        if k < |w.taken| { assert TakenOk(w, w.taken[k]); }
      }
    }
  }

  lemma ExecuteKeepsInv(w: World, name: CString, guardAllows: bool, now: Long)
    requires Inv(w)
    ensures Inv(Step(w, CallExecute(name, guardAllows, now)).0)
  {
    var m := w.machine;
    var (w', status) := Step(w, CallExecute(name, guardAllows, now));
    if status == Success {
      var id := TargetOf(m, name);
      BumpKeepsInv(w, w'.machine, id, Touch(m.states[id], now));
    } else {
      FramesKeepInv(w, w'.machine);
    }
  }

  lemma SetLockKeepsInv(w: World, id: nat, locked: bool, now: Long)
    requires Inv(w) && id < |w.bumps|
    ensures Inv(Bump(w, SetLock(w.machine, id, locked, now).0, id))
  {
    BumpKeepsInv(w, SetLock(w.machine, id, locked, now).0, id,
                 Touch(w.machine.states[id].(locked := locked), now));
  }

  lemma RestoreKeepsInv(w: World, index: nat, now: Long)
    requires Inv(w)
    ensures Inv(Step(w, CallRestore(index, now)).0)
  {
    var (w', status) := Step(w, CallRestore(index, now));
    if status == Success {
      var s := w.taken[index].snapshot.state;
      assert TakenOk(w, w.taken[index]);
      BumpKeepsInv(w, w'.machine, s.id, Touch(s, now));
    }
  }

  lemma StepKeepsInv(w: World, call: Call)
    requires Inv(w)
    ensures Inv(Step(w, call).0)
  {
    match call
    case CallAddState(name, onEnter, onExit, isFinal, now) =>
      AddStateKeepsInv(w, name, onEnter, onExit, isFinal, now);
    case CallSnapshot(id, now) => SnapshotKeepsInv(w, id, now);
    case CallAddTransition(_, _, _, _, _) => FramesKeepInv(w, Step(w, call).0.machine);
    case CallVerify(_, _) => FramesKeepInv(w, Step(w, call).0.machine);
    case CallExecute(name, guardAllows, now) => ExecuteKeepsInv(w, name, guardAllows, now);
    case CallLock(id, now) => if id < |w.bumps| { SetLockKeepsInv(w, id, true, now); }
    case CallUnlock(id, now) => if id < |w.bumps| { SetLockKeepsInv(w, id, false, now); }
    case CallRestore(index, now) => RestoreKeepsInv(w, index, now);
  }

  lemma {:induction false} RunKeepsInv(w: World, calls: seq<Call>)
    requires Inv(w)
    ensures Inv(Run(w, calls))
    decreases |calls|
  {
    if calls != [] {
      StepKeepsInv(w, calls[0]);
      RunKeepsInv(Step(w, calls[0]).0, calls[1..]);
    }
  }

  // ----- Versions only grow, and nothing about the past is forgotten

  ghost predicate Later(w: World, w': World) {
    && Shaped(w) && Shaped(w')
    && |w.bumps| <= |w'.bumps| && w.taken <= w'.taken
    && (forall i :: 0 <= i < |w.bumps| ==>
          w.bumps[i] <= w'.bumps[i] && SameIdentity(w.machine.states[i], w'.machine.states[i]))
  }

  lemma BumpIsLater(w: World, m: Machine, id: nat, s: State)
    requires Shaped(w) && id < |w.bumps|
    requires m.states == w.machine.states[id := s] && m.transitions == w.machine.transitions
    requires SameIdentity(s, w.machine.states[id])
    ensures Later(w, Bump(w, m, id))
  {
  }

  lemma QuietIsLater(w: World, w': World)
    requires Shaped(w) && Shaped(w')
    requires w.machine.states <= w'.machine.states && w.bumps <= w'.bumps && w.taken <= w'.taken
    ensures Later(w, w')
  {
  }

  lemma StepIsLater(w: World, call: Call)
    requires Inv(w)
    ensures Later(w, Step(w, call).0)
  {
    hide NewState, StateChecksum, Clip;
    var m := w.machine;
    var (w', status) := Step(w, call);
    if status != Success {
      FailedCallsChangeNothing(w, call);
      QuietIsLater(w, w');
    } else {
      match call
      case CallExecute(name, _, now) =>
        BumpIsLater(w, w'.machine, TargetOf(m, name), Touch(m.states[TargetOf(m, name)], now));
      case CallLock(id, now) =>
        BumpIsLater(w, w'.machine, id, w'.machine.states[id]);
      case CallUnlock(id, now) =>
        BumpIsLater(w, w'.machine, id, w'.machine.states[id]);
      case CallRestore(index, now) =>
        assert TakenOk(w, w.taken[index]);
        BumpIsLater(w, w'.machine, w.taken[index].snapshot.state.id, Touch(w.taken[index].snapshot.state, now));
      case _ =>
        QuietIsLater(w, w');
    }
  }

  lemma {:induction false} RunIsLater(w: World, calls: seq<Call>)
    requires Inv(w)
    ensures Later(w, Run(w, calls))
    decreases |calls|
  {
    if calls != [] {
      var w1 := Step(w, calls[0]).0;
      StepKeepsInv(w, calls[0]);
      StepIsLater(w, calls[0]);
      RunIsLater(w1, calls[1..]);
      var w2 := Run(w1, calls[1..]);
      forall i | 0 <= i < |w.bumps|
        ensures w.bumps[i] <= w2.bumps[i] && SameIdentity(w.machine.states[i], w2.machine.states[i])
      {
        assert w1.bumps[i] <= w2.bumps[i];
      }
    }
  }

  // ----- Restore

  lemma SameVersion(a: nat, b: nat)
    requires a <= b
    ensures (2 + a) % WORD == (2 + b) % WORD <==> (b - a) % WORD == 0
  {
  }

  /** The number of version bumps between the taking of a snapshot and now. */
  function Age(w: World, t: Taken): (n: int)
    requires t.snapshot.state.id < |w.bumps|
  {
    w.bumps[t.snapshot.state.id] - t.at
  }

  /** The condition under which a restore goes through. */
  predicate Restorable(w: World, t: Taken) {
    && t.snapshot.state.id < |w.bumps| == |w.machine.states|
    && !w.machine.states[t.snapshot.state.id].locked
    && Age(w, t) % WORD == 0
  }

  lemma RestoreStatus(w: World, index: nat, now: Long)
    requires Inv(w) && index < |w.taken|
    ensures var t := w.taken[index];
            && t.snapshot.state.id < |w.bumps| && 0 <= Age(w, t)
            && (Step(w, CallRestore(index, now)).1 == Success <==> Restorable(w, t))
  {
    var t := w.taken[index];
    assert TakenOk(w, t);
    var id := t.snapshot.state.id;
    assert StateOk(w.machine.states[id], id, w.bumps[id]);
    SameVersion(t.at, w.bumps[id]);
  }

  lemma RestoreEffect(w: World, index: nat, now: Long)
    requires Inv(w) && index < |w.taken| && Step(w, CallRestore(index, now)).1 == Success
    ensures var t := w.taken[index];
            var id := t.snapshot.state.id;
            && id < |w.bumps|
            && Age(Step(w, CallRestore(index, now)).0, t) == Age(w, t) + 1
            && (Age(w, t) < WORD ==>
                  && t.snapshot.state == w.machine.states[id]
                  && Step(w, CallRestore(index, now)).0.machine
                     == w.machine.(states := w.machine.states[id := Touch(w.machine.states[id], now)]))
  {
    RestoreStatus(w, index, now);
    var t := w.taken[index];
    assert TakenOk(w, t);
    if Age(w, t) < WORD { NoMultipleBelow(Age(w, t)); }
  }

  lemma NoMultipleBelow(n: nat)
    requires n < WORD
    ensures n % WORD == 0 <==> n == 0
  {
  }

  /** After any run: a restore is accepted exactly when the state is unlocked and has been
      bumped a multiple of 2^32 times since the snapshot. */
  lemma RestoreAcceptedExactly(calls: seq<Call>, index: nat, now: Long)
    requires index < |Run(Initial(), calls).taken|
    ensures var w := Run(Initial(), calls);
            var t := w.taken[index];
            && t.snapshot.state.id < |w.bumps| && 0 <= Age(w, t)
            && (Step(w, CallRestore(index, now)).1 == Success <==> Restorable(w, t))
  {
    RunKeepsInv(Initial(), calls);
    RestoreStatus(Run(Initial(), calls), index, now);
  }

  /** With fewer than 2^32 bumps since the snapshot, an accepted restore changes nothing but
      that state's timestamp and version: equal versions mean equal contents. */
  lemma RestoreIsHarmless(calls: seq<Call>, index: nat, now: Long)
    requires index < |Run(Initial(), calls).taken|
    requires Step(Run(Initial(), calls), CallRestore(index, now)).1 == Success
    ensures var w := Run(Initial(), calls);
            var t := w.taken[index];
            var id := t.snapshot.state.id;
            && id < |w.bumps|
            && (Age(w, t) < WORD ==>
                  && t.snapshot.state == w.machine.states[id]
                  && Step(w, CallRestore(index, now)).0.machine
                     == w.machine.(states := w.machine.states[id := Touch(w.machine.states[id], now)]))
  {
    RunKeepsInv(Initial(), calls);
    RestoreEffect(Run(Initial(), calls), index, now);
  }

  lemma AgeGrows(w: World, w': World, index: nat)
    requires Inv(w) && Inv(w') && Later(w, w') && index < |w.taken|
    ensures var t := w.taken[index];
            && w'.taken[index] == t
            && t.snapshot.state.id < |w.bumps| <= |w'.bumps| && Age(w, t) <= Age(w', t)
  {
    assert TakenOk(w, w.taken[index]);
  }

  /** Until a state has been bumped 2^32 times since a snapshot, that snapshot is restored
      at most once: whatever calls follow a successful restore, a second one is refused. */
  lemma RestoresAtMostOnce(before: seq<Call>, index: nat, now: Long, after: seq<Call>, later: Long)
    requires index < |Run(Initial(), before).taken|
    requires Step(Run(Initial(), before), CallRestore(index, now)).1 == Success
    ensures var w := Run(Initial(), before);
            var w2 := Run(Step(w, CallRestore(index, now)).0, after);
            var t := w.taken[index];
            && t.snapshot.state.id < |w2.bumps|
            && (Age(w2, t) < WORD ==> Step(w2, CallRestore(index, later)).1 != Success)
  {
    RunKeepsInv(Initial(), before);
    RestoredThenRefused(Run(Initial(), before), index, now, after, later);
  }

  lemma RestoredThenRefused(w: World, index: nat, now: Long, after: seq<Call>, later: Long)
    requires Inv(w) && index < |w.taken| && Step(w, CallRestore(index, now)).1 == Success
    ensures var w2 := Run(Step(w, CallRestore(index, now)).0, after);
            var t := w.taken[index];
            && t.snapshot.state.id < |w2.bumps|
            && (Age(w2, t) < WORD ==> Step(w2, CallRestore(index, later)).1 != Success)
  {
    var call, t := CallRestore(index, now), w.taken[index];
    RestoreStatus(w, index, now);
    RestoreEffect(w, index, now);
    var w1 := Step(w, call).0;
    StepKeepsInv(w, call);
    RunKeepsInv(w1, after);
    RunIsLater(w1, after);
    var w2 := Run(w1, after);
    AgeGrows(w1, w2, index);
    RestoreStatus(w2, index, later);
    if Age(w2, t) < WORD { NoMultipleBelow(Age(w2, t)); }
  }

  /** A snapshot taken while the state was locked is dead for the next 2^32 bumps. */
  lemma LockedSnapshotIsDead(calls: seq<Call>, index: nat, now: Long)
    requires index < |Run(Initial(), calls).taken|
    requires Run(Initial(), calls).taken[index].snapshot.state.locked
    ensures var w := Run(Initial(), calls);
            var t := w.taken[index];
            && t.snapshot.state.id < |w.bumps|
            && (Age(w, t) < WORD ==> Step(w, CallRestore(index, now)).1 != Success)
  {
    RestoreAcceptedExactly(calls, index, now);
    if Step(Run(Initial(), calls), CallRestore(index, now)).1 == Success {
      RestoreIsHarmless(calls, index, now);
    }
  }

  // ----- ... and exactly 2^32 bumps defeat the version check

  function Unlocks(n: nat): (calls: seq<Call>) {
    if n == 0 then [] else Unlocks(n - 1) + [CallUnlock(0, 0)]
  }

  lemma {:induction false} RunConcat(w: World, a: seq<Call>, b: seq<Call>)
    requires Shaped(w)
    ensures Run(w, a + b) == Run(Run(w, a), b)
    decreases |a|
  {
    if a == [] {
      assert a + b == b;
    } else {
      assert (a + b)[1..] == a[1..] + b;
      RunConcat(Step(w, a[0]).0, a[1..], b);
    }
  }

  lemma {:induction false} RunUnlocks(w: World, n: nat)
    requires Shaped(w) && |w.bumps| > 0
    ensures var r := Run(w, Unlocks(n));
            && |r.bumps| == |w.bumps| && r.taken == w.taken
            && r.bumps[0] == w.bumps[0] + n
            && (n > 0 ==> !r.machine.states[0].locked)
  {
    if n > 0 {
      RunUnlocks(w, n - 1);
      RunConcat(w, Unlocks(n - 1), [CallUnlock(0, 0)]);
      var r := Run(w, Unlocks(n - 1));
      assert Run(r, [CallUnlock(0, 0)]) == Step(r, CallUnlock(0, 0)).0;
    }
  }

  function LockedSnapshotRun(name: CString, unlocks: nat): (calls: seq<Call>) {
    [CallAddState(name, 0, 0, false, 0), CallLock(0, 0), CallSnapshot(0, 0)] + Unlocks(unlocks)
  }

  lemma AfterPrefix(name: CString)
    ensures var w := Run(Initial(), LockedSnapshotRun(name, 0));
            && |w.taken| == 1 && |w.bumps| == 1 && w.taken[0].at == w.bumps[0]
            && w.taken[0].snapshot.state.id == 0 && w.taken[0].snapshot.state.locked
  {
    var a, b, c := CallAddState(name, 0, 0, false, 0), CallLock(0, 0), CallSnapshot(0, 0);
    var w1 := Step(Initial(), a).0;
    var w2 := Step(w1, b).0;
    var w3 := Step(w2, c).0;
    assert LockedSnapshotRun(name, 0) == [a, b, c];
    assert [a, b, c][1..] == [b, c] && [b, c][1..] == [c] && [c][1..] == [];
    assert Run(w2, [c]) == w3;
    assert Run(w1, [b, c]) == Run(w2, [c]);
  }

  lemma RestoreWritesSnapshot(w: World, index: nat, now: Long)
    requires Shaped(w) && index < |w.taken|
    requires Step(w, CallRestore(index, now)).1 == Success
    ensures var s := w.taken[index].snapshot.state;
            && s.id < |w.bumps|
            && Step(w, CallRestore(index, now)).0.machine.states[s.id] == Touch(s, now)
  {
  }

  lemma WrapFrom(w: World, unlocks: nat)
    requires Inv(w) && |w.taken| == 1 && |w.bumps| == 1 && w.taken[0].at == w.bumps[0]
    requires w.taken[0].snapshot.state.id == 0
    requires unlocks > 0 && unlocks % WORD == 0
    ensures var w' := Run(w, Unlocks(unlocks));
            && w'.taken == w.taken && |w'.bumps| == 1 && !w'.machine.states[0].locked
            && Step(w', CallRestore(0, 0)).1 == Success
  {
    RunUnlocks(w, unlocks);
    RunKeepsInv(w, Unlocks(unlocks));
    var w' := Run(w, Unlocks(unlocks));
    assert Age(w', w'.taken[0]) == unlocks;
    assert Restorable(w', w'.taken[0]);
    RestoreStatus(w', 0, 0);
  }

  /** The version field is 32 bits wide: a run that unlocks a state a multiple of 2^32 times
      brings the version of a locked snapshot back, and restoring it locks the state again. */
  lemma WrapAroundRevivesLockedSnapshot(name: CString, unlocks: nat)
    requires unlocks > 0 && unlocks % WORD == 0
    ensures var w := Run(Initial(), LockedSnapshotRun(name, unlocks));
            && |w.taken| == 1 && |w.bumps| == 1
            && !w.machine.states[0].locked
            && Step(w, CallRestore(0, 0)).1 == Success
            && Step(w, CallRestore(0, 0)).0.machine.states[0].locked
  {
    var prefix := LockedSnapshotRun(name, 0);
    var w := Run(Initial(), prefix);
    AfterPrefix(name);
    RunKeepsInv(Initial(), prefix);
    assert LockedSnapshotRun(name, unlocks) == prefix + Unlocks(unlocks);
    RunConcat(Initial(), prefix, Unlocks(unlocks));
    WrapFrom(w, unlocks);
    RestoreWritesSnapshot(Run(w, Unlocks(unlocks)), 0, 0);
  }

  // ----- Integrity

  /** After any run, verification of a registered state succeeds exactly when the custom
      check accepts, and never blames the checksum. */
  lemma IntegrityNeverBreaks(calls: seq<Call>, id: nat, customAccepts: bool)
    requires id < |Run(Initial(), calls).machine.states|
    ensures Verified(Run(Initial(), calls).machine, id, customAccepts).1
         == if customAccepts then Success else IntegrityCheckFailed
  {
    RunKeepsInv(Initial(), calls);
    var w := Run(Initial(), calls);
    assert StateOk(w.machine.states[id], id, w.bumps[id]);
  }

  /** ... while any one byte of the covered memory changing behind the API's back would be
      noticed. */
  lemma IntegrityDetectsOneByte(calls: seq<Call>, id: nat, p: nat, b: Byte)
    requires id < |Run(Initial(), calls).machine.states|
    requires p < |CoveredBytes(Run(Initial(), calls).machine.states[id])|
    requires b != CoveredBytes(Run(Initial(), calls).machine.states[id])[p]
    ensures var s := Run(Initial(), calls).machine.states[id];
            Sum(8, 0, CoveredBytes(s)[p := b]) != s.checksum
  {
    RunKeepsInv(Initial(), calls);
    var w := Run(Initial(), calls);
    var s := w.machine.states[id];
    assert StateOk(s, id, w.bumps[id]);
    OneByteChangesSum(8, 0, CoveredBytes(s), p, b);
  }

  /** Two byte sequences of one length that differ in exactly one place. */
  ghost predicate OneByteApart(a: seq<Byte>, b: seq<Byte>) {
    |a| == |b| && exists p :: 0 <= p < |a| && a[p] != b[p] && b == a[p := b[p]]
  }

  lemma UpdateInside(pre: seq<Byte>, a: seq<Byte>, post: seq<Byte>, p: nat, v: Byte)
    requires p < |a|
    ensures (pre + a + post)[|pre| + p := v] == pre + a[p := v] + post
    ensures (pre + a + post)[|pre| + p] == a[p]
  {
  }

  lemma ApartInside(pre: seq<Byte>, a: seq<Byte>, b: seq<Byte>, post: seq<Byte>)
    requires OneByteApart(a, b)
    ensures OneByteApart(pre + a + post, pre + b + post)
  {
    var p :| 0 <= p < |a| && a[p] != b[p] && b == a[p := b[p]];
    UpdateInside(pre, a, post, p, b[p]);
    assert (pre + b + post)[|pre| + p] == b[p] by { UpdateInside(pre, b, post, p, b[p]); }
  }

  lemma ApartSums(a: seq<Byte>, b: seq<Byte>)
    requires OneByteApart(a, b)
    ensures Sum(8, 0, a) != Sum(8, 0, b)
  {
    var p :| 0 <= p < |a| && a[p] != b[p] && b == a[p := b[p]];
    OneByteChangesSum(8, 0, a, p, b[p]);
  }

  /** The 32 bytes of the name field. */
  function NameField(name: CString): (bs: seq<Byte>)
    requires |name| < 32
  {
    name + Zeros(32 - |name|)
  }

  /** `t` is `s` with one byte of one of its permanent fields changed in memory: name, either
      action, final flag or id, each seen as the bytes that hold it. */
  ghost predicate Damaged(s: State, t: State) {
    || (|s.name| < 32 && |t.name| < 32 && OneByteApart(NameField(s.name), NameField(t.name)) && t == s.(name := t.name))
    || (OneByteApart(Le64(s.onEnter), Le64(t.onEnter)) && t == s.(onEnter := t.onEnter))
    || (OneByteApart(Le64(s.onExit), Le64(t.onExit)) && t == s.(onExit := t.onExit))
    || (t.isFinal != s.isFinal && t == s.(isFinal := t.isFinal))
    || (OneByteApart(Le32(s.id), Le32(t.id)) && t == s.(id := t.id))
  }

  lemma CoveredParts(s: State)
    ensures CoveredBytes(s)
         == NameField(Clip(s.name)) + Le64(s.onEnter) + Le64(s.onExit)
            + [if s.isFinal then 1 else 0, 0, 0, 0] + Le32(s.id)
  {
  }

  lemma DamageIsCovered(s: State, t: State)
    requires Damaged(s, t)
    ensures OneByteApart(CoveredBytes(s), CoveredBytes(t))
  {
    hide CoveredBytes, NameField, Le64, Le32, OneByteApart;
    CoveredParts(s);
    CoveredParts(t);
    var n, e, x, f, i := NameField(Clip(s.name)), Le64(s.onEnter), Le64(s.onExit), FinalField(s.isFinal), Le32(s.id);
    assert CoveredBytes(s) == n + e + x + f + i;
    if t == s.(isFinal := t.isFinal) && t.isFinal != s.isFinal {
      FlagApart(s.isFinal, t.isFinal);
      ApartInside(n + e + x, f, FinalField(t.isFinal), i);
    } else if t == s.(id := t.id) && OneByteApart(i, Le32(t.id)) {
      ApartInside(n + e + x + f, i, Le32(t.id), []);
      NothingBehind(n + e + x + f, i);
      NothingBehind(n + e + x + f, Le32(t.id));
    } else if t == s.(onExit := t.onExit) && OneByteApart(x, Le64(t.onExit)) {
      ApartInside(n + e, x, Le64(t.onExit), f + i);
      Behind(n + e, x, f, i);
      Behind(n + e, Le64(t.onExit), f, i);
    } else if t == s.(onEnter := t.onEnter) && OneByteApart(e, Le64(t.onEnter)) {
      ApartInside(n, e, Le64(t.onEnter), x + f + i);
      Behind(n, e, x + f, i);
      Behind(n, Le64(t.onEnter), x + f, i);
      Behind(n, e, x, f);
      Behind(n, Le64(t.onEnter), x, f);
    } else {
      ApartInside([], n, NameField(t.name), e + x + f + i);
      FieldsBehind(n, e, x, f, i);
      FieldsBehind(NameField(t.name), e, x, f, i);
    }
  }

  function FinalField(isFinal: bool): (bs: seq<Byte>) {
    [if isFinal then 1 else 0, 0, 0, 0]
  }

  lemma FlagApart(a: bool, b: bool)
    requires a != b
    ensures OneByteApart(FinalField(a), FinalField(b))
  {
    assert FinalField(b) == FinalField(a)[0 := FinalField(b)[0]];
  }

  lemma NothingBehind(a: seq<Byte>, b: seq<Byte>)
    ensures a + b + [] == a + b
  {
  }

  lemma Behind(a: seq<Byte>, b: seq<Byte>, c: seq<Byte>, d: seq<Byte>)
    ensures a + b + (c + d) == a + b + c + d
  {
  }

  lemma FieldsBehind(n: seq<Byte>, e: seq<Byte>, x: seq<Byte>, f: seq<Byte>, i: seq<Byte>)
    ensures [] + n + (e + x + f + i) == n + e + x + f + i
  {
  }

  /** Names are stored clipped. */
  lemma {:induction false} NamesFit(w: World, calls: seq<Call>)
    requires Inv(w) && forall s :: s in w.machine.states ==> |s.name| < 32
    ensures forall s :: s in Run(w, calls).machine.states ==> |s.name| < 32
    decreases |calls|
  {
    hide Step, StateOk, TakenOk;
    if calls != [] {
      StepKeepsInv(w, calls[0]);
      NamesStayShort(w, calls[0]);
      NamesFit(Step(w, calls[0]).0, calls[1..]);
    }
  }

  lemma NamesStayShort(w: World, call: Call)
    requires Inv(w) && forall s :: s in w.machine.states ==> |s.name| < 32
    ensures forall s :: s in Step(w, call).0.machine.states ==> |s.name| < 32
  {
    hide StateChecksum, Increment, FirstNamed, StateOk;
    if call.CallRestore? && call.index < |w.taken| {
      assert TakenOk(w, w.taken[call.index]);
    }
  }

  /** After every run: one changed byte in any permanent field of any state is reported by the
      next verification of that state, whatever the custom check says. */
  lemma DamageIsReported(calls: seq<Call>, id: nat, t: State, customAccepts: bool)
    requires id < |Run(Initial(), calls).machine.states|
    requires Damaged(Run(Initial(), calls).machine.states[id], t)
    ensures var m := Run(Initial(), calls).machine;
            Verified(m.(states := m.states[id := t]), id, customAccepts).1 == IntegrityCheckFailed
  {
    hide CoveredBytes;
    RunKeepsInv(Initial(), calls);
    var w := Run(Initial(), calls);
    var s := w.machine.states[id];
    assert StateOk(s, id, w.bumps[id]);
    DamageIsCovered(s, t);
    ApartSums(CoveredBytes(s), CoveredBytes(t));
  }

  // ----- Locks

  /** A failed call leaves every state, the tables and the current state alone. */
  lemma FailedCallsChangeNothing(w: World, call: Call)
    requires Shaped(w) && Step(w, call).1 != Success
    ensures var w' := Step(w, call).0;
            && w'.machine.states == w.machine.states && w'.machine.transitions == w.machine.transitions
            && w'.machine.current == w.machine.current && w'.bumps == w.bumps && w'.taken == w.taken
  {
  }

  /** Whether `call`, made in `w`, is a transition that goes through with endpoint `id`. */
  ghost predicate Passes(w: World, call: Call, id: nat)
    requires Shaped(w)
  {
    && call.CallExecute?
    && Step(w, call).1 == Success
    && FirstNamed(w.machine.transitions, call.name) < |w.machine.transitions|
    && var t := w.machine.transitions[FirstNamed(w.machine.transitions, call.name)];
       t.from == id || t.to == id
  }

  lemma LockHolds(w: World, call: Call, id: nat)
    requires Inv(w) && id < |w.machine.states| && w.machine.states[id].locked
    requires !(call.CallUnlock? && call.id == id)
    ensures id < |Step(w, call).0.machine.states| && Step(w, call).0.machine.states[id].locked
    ensures !Passes(w, call, id)
    ensures Step(w, call).0.machine.current == id ==> w.machine.current == id
  {
    hide NewState, StateChecksum, StateOk, Clip, Increment, FirstNamed;
    if call.CallRestore? && call.index < |w.taken| {
      assert TakenOk(w, w.taken[call.index]);
    }
  }

  /** From a lock to the next unlock of the same state, over any calls in between: the lock
      stays, no transition with that endpoint goes through, the machine does not enter it. */
  lemma {:induction false} LockSafety(w: World, calls: seq<Call>, id: nat, n: nat)
    requires Inv(w) && id < |w.machine.states| && w.machine.states[id].locked
    requires forall c :: c in calls ==> !(c.CallUnlock? && c.id == id)
    requires n <= |calls|
    ensures var w' := Run(w, calls[..n]);
            && id < |w'.machine.states| && w'.machine.states[id].locked
            && (n < |calls| ==> !Passes(w', calls[n], id))
            && (w'.machine.current == id ==> w.machine.current == id)
    decreases n
  {
    hide Step, Passes, StateOk, TakenOk;
    if n == 0 {
      if |calls| > 0 { LockHolds(w, calls[0], id); }
    } else {
      LockHolds(w, calls[0], id);
      StepKeepsInv(w, calls[0]);
      LockSafety(Step(w, calls[0]).0, calls[1..], id, n - 1);
      assert calls[..n][1..] == calls[1..][..n - 1];
      if n < |calls| { assert calls[1..][n - 1] == calls[n]; }
    }
  }

  /** The same, for the calls that follow a successful lock in a run of the whole API. */
  lemma LockedUntilUnlocked(before: seq<Call>, id: nat, now: Long, after: seq<Call>, n: nat)
    requires id < |Run(Initial(), before).machine.states|
    requires forall c :: c in after ==> !(c.CallUnlock? && c.id == id)
    requires n <= |after|
    ensures var locked := Step(Run(Initial(), before), CallLock(id, now)).0;
            var w := Run(locked, after[..n]);
            && id < |w.machine.states| && w.machine.states[id].locked
            && (n < |after| ==> !Passes(w, after[n], id))
            && (w.machine.current == id ==> locked.machine.current == id)
  {
    RunKeepsInv(Initial(), before);
    var w := Run(Initial(), before);
    StepKeepsInv(w, CallLock(id, now));
    LockSafety(Step(w, CallLock(id, now)).0, after, id, n);
  }

  /** In every run the tables stay bounded and everything they point to exists. */
  lemma TablesStayInRange(calls: seq<Call>)
    ensures var m := Run(Initial(), calls).machine;
            && |m.states| <= MAX_STATES && |m.transitions| <= MAX_TRANSITIONS
            && EndpointsInRange(m)
            && (m.current == 0 || m.current < |m.states|)
  {
    RunKeepsInv(Initial(), calls);
  }

  // ----- Names

  /** A registered transition can be executed under its own name exactly if the name fits the
      name field: longer names are clipped when stored but not when looked up. */
  lemma AddedTransitionIsFound(m: Machine, name: CString, from: nat, to: nat, action: Long, guarded: bool)
    requires AddedTransition(m, name, from, to, action, guarded).1 == Success
    requires FirstNamed(m.transitions, name) == |m.transitions|
    ensures var m' := AddedTransition(m, name, from, to, action, guarded).0;
            FirstNamed(m'.transitions, name) == |m.transitions| <==> |name| < NAME_SIZE
  {
    hide FirstNamed;
    ClipKeeps(name);
    hide Clip;
    FirstNamedAppended(m.transitions, Transition(Clip(name), from, to, action, guarded), name);
  }

  lemma ClipKeeps(name: CString)
    ensures Clip(name) == name <==> |name| < NAME_SIZE
  {
  }

  lemma {:induction false} FirstNamedAppended(ts: seq<Transition>, t: Transition, name: CString)
    requires FirstNamed(ts, name) == |ts|
    ensures FirstNamed(ts + [t], name) == if t.name == name then |ts| else |ts| + 1
    decreases |ts|
  {
    if ts != [] {
      assert (ts + [t])[1..] == ts[1..] + [t];
      FirstNamedAppended(ts[1..], t, name);
    }
  }

  /** ... and then it goes to the state it was registered with: it is refused exactly if one
      of its two states is locked or its guard objects, and otherwise `to` is current. */
  lemma AddedTransitionTakesEffect(
    m: Machine, name: CString, from: nat, to: nat, action: Long, guarded: bool, guardAllows: bool, now: Long)
    requires EndpointsInRange(m) && AddedTransition(m, name, from, to, action, guarded).1 == Success
    requires FirstNamed(m.transitions, name) == |m.transitions| && |name| < NAME_SIZE
    ensures var m' := AddedTransition(m, name, from, to, action, guarded).0;
            && EndpointsInRange(m')
            && var (m2, status) := Executed(m', name, guardAllows, now);
               && (status == StateLocked <==> m.states[from].locked || m.states[to].locked)
               && (status == Success <==> status != StateLocked && (guarded ==> guardAllows))
               && (status == Success ==>
                     && m2.current == to
                     && m2.states == m.states[to := Touch(m.states[to], now)])
  {
    hide FirstNamed, Touch, Executed, AddedTransition, EndpointsInRange, Clip;
    AddedTransitionIsFound(m, name, from, to, action, guarded);
    AddedTransitionIs(m, name, from, to, action, guarded);
    ExecutesFirstNamed(AddedTransition(m, name, from, to, action, guarded).0, name, guardAllows, now);
  }

  lemma AddedTransitionIs(m: Machine, name: CString, from: nat, to: nat, action: Long, guarded: bool)
    requires EndpointsInRange(m) && AddedTransition(m, name, from, to, action, guarded).1 == Success
    requires |name| < NAME_SIZE
    ensures var m' := AddedTransition(m, name, from, to, action, guarded).0;
            && EndpointsInRange(m') && m'.states == m.states && from < |m.states| && to < |m.states|
            && m'.transitions == m.transitions + [Transition(name, from, to, action, guarded)]
  {
  }

  lemma ExecutesFirstNamed(m: Machine, name: CString, guardAllows: bool, now: Long)
    requires EndpointsInRange(m) && FirstNamed(m.transitions, name) < |m.transitions|
    ensures var t := m.transitions[FirstNamed(m.transitions, name)];
            var (m2, status) := Executed(m, name, guardAllows, now);
            && t.from < |m.states| && t.to < |m.states|
            && (status == StateLocked <==> m.states[t.from].locked || m.states[t.to].locked)
            && (status == Success <==> status != StateLocked && (t.guarded ==> guardAllows))
            && (status == Success ==>
                  m2.current == t.to && m2.states == m.states[t.to := Touch(m.states[t.to], now)])
  {
    hide FirstNamed, Touch;
    assert m.transitions[FirstNamed(m.transitions, name)] in m.transitions;
  }

  /** ... and under which name it is found: its own, or the first 31 bytes of it. */
  lemma AddedTransitionIsFoundAs(
    m: Machine, name: CString, from: nat, to: nat, action: Long, guarded: bool, lookup: CString)
    requires AddedTransition(m, name, from, to, action, guarded).1 == Success
    requires FirstNamed(m.transitions, lookup) == |m.transitions|
    ensures var m' := AddedTransition(m, name, from, to, action, guarded).0;
            FirstNamed(m'.transitions, lookup) == |m.transitions|
            <==> lookup == if |name| <= 31 then name else name[..31]
  {
    hide FirstNamed;
    FirstNamedAppended(m.transitions, Transition(Clip(name), from, to, action, guarded), lookup);
  }

  // ----- What was registered is what is used

  /** A state keeps, through everything that follows, what it was registered with; it starts
      unlocked at version 2. */
  lemma RegisteredStateLasts(
    before: seq<Call>, name: CString, onEnter: Long, onExit: Long, isFinal: bool, now: Long, after: seq<Call>)
    requires |Run(Initial(), before).machine.states| < 32
    ensures var n := |Run(Initial(), before).machine.states|;
            var w := Step(Run(Initial(), before), CallAddState(name, onEnter, onExit, isFinal, now)).0;
            var w' := Run(w, after);
            && n < |w.machine.states| <= |w'.machine.states|
            && !w.machine.states[n].locked && w.machine.states[n].version == 2
            && w.machine.states[n].timestamp == now
            && var s := w'.machine.states[n];
               && s.name == (if |name| <= 31 then name else name[..31])
               && s.onEnter == onEnter && s.onExit == onExit && s.isFinal == isFinal && s.id == n
  {
    hide StateChecksum, CoveredBytes;
    RunKeepsInv(Initial(), before);
    var w0 := Run(Initial(), before);
    var call := CallAddState(name, onEnter, onExit, isFinal, now);
    StepKeepsInv(w0, call);
    var w := Step(w0, call).0;
    RunIsLater(w, after);
    hide Inv, Run;
    assert SameIdentity(w.machine.states[|w0.machine.states|], Run(w, after).machine.states[|w0.machine.states|]);
  }

  lemma StepKeepsTransitions(w: World, call: Call)
    requires Shaped(w)
    ensures w.machine.transitions <= Step(w, call).0.machine.transitions
  {
    hide NewState, Touch, FirstNamed, StateChecksum, Clip;
  }

  lemma {:induction false} RunKeepsTransitions(w: World, calls: seq<Call>)
    requires Shaped(w)
    ensures w.machine.transitions <= Run(w, calls).machine.transitions
    decreases |calls|
  {
    hide Step;
    if calls != [] {
      StepKeepsTransitions(w, calls[0]);
      RunKeepsTransitions(Step(w, calls[0]).0, calls[1..]);
    }
  }

  lemma FirstNamedInPrefix(ts: seq<Transition>, all: seq<Transition>, name: CString)
    requires ts <= all && FirstNamed(ts, name) < |ts|
    ensures FirstNamed(all, name) == FirstNamed(ts, name)
  {
    hide FirstNamed;
    var i := FirstNamed(ts, name);
    assert all[i] == ts[i];
    assert forall j :: 0 <= j < i ==> all[j] == ts[j];
  }

  /** A transition registered under a new name that fits: whatever is called in between, its
      execution calls the action with which the source was registered for leaving, its own, and
      the one with which the target was registered for entering, in this order. */
  lemma RegisteredActionsAreCalled(
    before: seq<Call>, name: CString, from: nat, to: nat, action: Long, guarded: bool, after: seq<Call>)
    requires var m := Run(Initial(), before).machine;
             && AddedTransition(m, name, from, to, action, guarded).1 == Success
             && FirstNamed(m.transitions, name) == |m.transitions| && |name| < NAME_SIZE
    ensures var m := Run(Initial(), before).machine;
            var w := Step(Run(Initial(), before), CallAddTransition(name, from, to, action, guarded)).0;
            var m' := Run(w, after).machine;
            && FirstNamed(m'.transitions, name) == |m.transitions| < |m'.transitions|
            && var t := m'.transitions[|m.transitions|];
               && t == Transition(name, from, to, action, guarded)
               && from < |m.states| <= |m'.states| && to < |m.states|
               && var leave, enter := m.states[from].onExit, m.states[to].onEnter;
                  ActionsOf(m', t)
                  == (if leave == 0 then [] else [leave])
                     + (if action == 0 then [] else [action])
                     + (if enter == 0 then [] else [enter])
  {
    hide StateChecksum, FirstNamed, Clip, AddedTransition;
    var w0 := Run(Initial(), before);
    var call := CallAddTransition(name, from, to, action, guarded);
    RunKeepsInv(Initial(), before);
    StepKeepsInv(w0, call);
    var w := Step(w0, call).0;
    AddedTransitionIsFound(w0.machine, name, from, to, action, guarded);
    AddedTransitionIs(w0.machine, name, from, to, action, guarded);
    RunIsLater(w, after);
    RunKeepsTransitions(w, after);
    FirstNamedInPrefix(w.machine.transitions, Run(w, after).machine.transitions, name);
    hide Inv, Run, Step;
    var w' := Run(w, after);
    assert SameIdentity(w.machine.states[from], w'.machine.states[from]);
    assert SameIdentity(w.machine.states[to], w'.machine.states[to]);
  }

  /** After every run a snapshot holds the state as it is, the time and the stored checksum,
      and restoring it at once is refused only for a lock. */
  lemma SnapshotIsExact(calls: seq<Call>, id: nat, now: Long, later: Long)
    requires id < |Run(Initial(), calls).machine.states|
    ensures var m := Run(Initial(), calls).machine;
            var snapshot := SnapshotOf(m, id, now);
            && snapshot.state == m.states[id] && snapshot.timestamp == now
            && snapshot.checksum == m.states[id].checksum
            && Restored(m, snapshot, later).1 == if m.states[id].locked then StateLocked else Success
  {
    hide StateChecksum;
    RunKeepsInv(Initial(), calls);
    var w := Run(Initial(), calls);
    assert StateOk(w.machine.states[id], id, w.bumps[id]);
  }

  /** How many states a run tries to add. */
  function StatesTried(calls: seq<Call>): (n: nat) {
    if calls == [] then 0 else (if calls[0].CallAddState? then 1 else 0) + StatesTried(calls[1..])
  }

  lemma StepCountsStates(w: World, call: Call)
    requires Shaped(w)
    ensures |Step(w, call).0.machine.states|
         == |w.machine.states| + if call.CallAddState? && |w.machine.states| < 32 then 1 else 0
  {
    hide NewState, Touch, FirstNamed, StateChecksum;
  }

  /** A run adds every state it tries to, up to 32 in all. */
  lemma {:induction false} StatesCounted(w: World, calls: seq<Call>)
    requires Shaped(w) && |w.machine.states| <= 32
    ensures var all := |w.machine.states| + StatesTried(calls);
            |Run(w, calls).machine.states| == if all <= 32 then all else 32
    decreases |calls|
  {
    hide Step;
    if calls != [] {
      StepCountsStates(w, calls[0]);
      StatesCounted(Step(w, calls[0]).0, calls[1..]);
    }
  }

  /** A transition is taken in if and only if there are fewer than 64 and both its states
      exist; nothing else adds or removes one. */
  lemma TransitionsCounted(w: World, call: Call)
    requires Shaped(w)
    ensures var (w', status) := Step(w, call);
            if call.CallAddTransition? then
              && (status == Success <==>
                    |w.machine.transitions| < 64 && call.from < |w.machine.states| && call.to < |w.machine.states|)
              && |w'.machine.transitions| == |w.machine.transitions| + (if status == Success then 1 else 0)
            else w'.machine.transitions == w.machine.transitions
  {
    hide NewState, Touch, FirstNamed, StateChecksum, Clip;
  }

  // ----- Diagnostics

  /** How many calls of a run return the given status from the given operation. */
  function Count(w: World, calls: seq<Call>, counts: (Call, Status) -> bool): (n: nat)
    requires Shaped(w)
    decreases |calls|
  {
    if calls == [] then 0
    else
      (if counts(calls[0], Step(w, calls[0]).1) then 1 else 0) + Count(Step(w, calls[0]).0, calls[1..], counts)
  }

  function FailedExecution(): (counts: (Call, Status) -> bool) {
    (call: Call, status: Status) => call.CallExecute? && status == InvalidTransition
  }

  function Violation(): (counts: (Call, Status) -> bool) {
    (call: Call, status: Status) => call.CallVerify? && status == IntegrityCheckFailed
  }

  lemma StepCounts(w: World, call: Call)
    requires Shaped(w)
    ensures var (w', status) := Step(w, call);
            && w'.machine.failedTransitions
               == (w.machine.failedTransitions + if FailedExecution()(call, status) then 1 else 0) % WORD
            && w'.machine.integrityViolations
               == (w.machine.integrityViolations + if Violation()(call, status) then 1 else 0) % WORD
  {
    hide NewState, Touch, FirstNamed, StateChecksum, Clip;
  }

  lemma AddTwice(a: Word, n: nat, m: nat)
    ensures ((a + n) % WORD + m) % WORD == (a + (n + m)) % WORD
  {
  }

  /** Over every run the diagnostics count, modulo 2^32, the executions of unknown or guarded
      off transitions and the failed verifications; a locked state is not counted. */
  lemma {:induction false} DiagnosticsCount(w: World, calls: seq<Call>)
    requires Shaped(w)
    ensures var m, m' := w.machine, Run(w, calls).machine;
            && m'.failedTransitions == (m.failedTransitions + Count(w, calls, FailedExecution())) % WORD
            && m'.integrityViolations == (m.integrityViolations + Count(w, calls, Violation())) % WORD
    decreases |calls|
  {
    hide Step, FailedExecution, Violation;
    if calls != [] {
      var w1 := Step(w, calls[0]).0;
      StepCounts(w, calls[0]);
      DiagnosticsCount(w1, calls[1..]);
      var m := w.machine;
      var f := if FailedExecution()(calls[0], Step(w, calls[0]).1) then 1 else 0;
      var v := if Violation()(calls[0], Step(w, calls[0]).1) then 1 else 0;
      AddTwice(m.failedTransitions, f, Count(w1, calls[1..], FailedExecution()));
      AddTwice(m.integrityViolations, v, Count(w1, calls[1..], Violation()));
    }
  }

  /** Why an execution fails with this status: no such transition, or both ends unlocked and the
      guard against it. */
  lemma FailedExecutionExactly(w: World, name: CString, guardAllows: bool, now: Long)
    requires Shaped(w)
    ensures var m := w.machine;
            var i := FirstNamed(m.transitions, name);
            Step(w, CallExecute(name, guardAllows, now)).1 == InvalidTransition
            <==> || (forall t :: t in m.transitions ==> t.name != name)
                 || (i < |m.transitions|
                     && !m.states[m.transitions[i].from].locked && !m.states[m.transitions[i].to].locked
                     && m.transitions[i].guarded && !guardAllows)
  {
    hide FirstNamed, Touch;
    var ts := w.machine.transitions;
    var i := FirstNamed(ts, name);
    if i < |ts| {
      assert ts[i] in ts;
    } else {
      assert ts[..i] == ts;
    }
  }

  /** Lock, version and timestamp are not part of what is verified. */
  lemma VolatileFieldsPass(m: Machine, id: nat, t: State, customAccepts: bool)
    requires id < |m.states| && SameIdentity(m.states[id], t)
    ensures Verified(m.(states := m.states[id := t]), id, customAccepts).1 == Verified(m, id, customAccepts).1
  {
    hide StateChecksum;
    SameChecksum(m.states[id], t);
  }

  // ----- Registered edges

  predicate Edge(m: Machine, a: nat, b: nat) {
    exists t :: t in m.transitions && t.from == a && t.to == b
  }

  /** The first transition of its name; the others are never taken. */
  predicate Callable(m: Machine, t: Transition) {
    var i := FirstNamed(m.transitions, t.name);
    i < |m.transitions| && m.transitions[i] == t
  }

  predicate NoneLocked(m: Machine) {
    forall s :: s in m.states ==> !s.locked
  }

  /** The call, if it is an execution that succeeds, goes along a registered edge. */
  predicate FollowsEdge(w: World, call: Call)
    requires Shaped(w)
  {
    call.CallExecute? && Step(w, call).1 == Success ==>
      Edge(w.machine, w.machine.current, Step(w, call).0.machine.current)
  }

  /** The guards of a registration: `allows(c, t)` is whether the guard of `t` may let it
      through while state `c` is current. A steady guard always does then; others may refuse
      all the same. Transitions without a guard are not concerned. */
  datatype Guards = Guards(allows: (nat, Transition) -> bool, steady: bool)

  /** The verdict in the call is one these guards can give; the registration of transitions
      is over. */
  predicate Heeds(g: Guards, w: World, call: Call) {
    var m := w.machine;
    && !call.CallAddTransition?
    && (call.CallExecute? ==>
          var i := FirstNamed(m.transitions, call.name);
          i < |m.transitions| ==>
            && (call.guardAllows ==> g.allows(m.current, m.transitions[i]))
            && (g.steady && g.allows(m.current, m.transitions[i]) ==> call.guardAllows))
  }

  ghost predicate Obeys(g: Guards, w: World, calls: seq<Call>)
    requires Shaped(w)
  {
    forall n :: 0 <= n < |calls| ==> Heeds(g, Run(w, calls[..n]), calls[n])
  }

  lemma ObeysAppend(g: Guards, w: World, calls: seq<Call>, call: Call)
    requires Shaped(w)
    ensures Obeys(g, w, calls + [call]) <==> Obeys(g, w, calls) && Heeds(g, Run(w, calls), call)
  {
    hide Heeds, Run;
    var all := calls + [call];
    assert all[..|calls|] == calls && all[|calls|] == call;
    assert forall n :: 0 <= n < |calls| ==> all[..n] == calls[..n] && all[n] == calls[n];
  }

  lemma NothingDisobeys(g: Guards, w: World)
    requires Shaped(w)
    ensures Obeys(g, w, [])
  {
  }

  lemma RunAppend(w: World, calls: seq<Call>, call: Call)
    requires Shaped(w)
    ensures Run(w, calls + [call]) == Step(Run(w, calls), call).0
  {
    hide Step;
    RunConcat(w, calls, [call]);
    assert [call][1..] == [];
  }

  /** With these guards `t` can be taken while `c` is current. */
  predicate Passable(m: Machine, g: Guards, c: nat, t: Transition) {
    Callable(m, t) && (t.guarded ==> g.allows(c, t))
  }

  function End(path: seq<Transition>): (c: nat) {
    if path == [] then 0 else path[|path| - 1].to
  }

  predicate Walk(m: Machine, g: Guards, path: seq<Transition>) {
    path == [] ||
    var n := |path| - 1; Walk(m, g, path[..n]) && Passable(m, g, End(path[..n]), path[n])
  }

  /** Passable transitions lead from state 0, in which a machine starts, to `c`. */
  ghost predicate Reached(m: Machine, g: Guards, c: nat) {
    exists path :: Walk(m, g, path) && End(path) == c
  }

  lemma StartReached(m: Machine, g: Guards)
    ensures Reached(m, g, 0)
  {
    assert Walk(m, g, []) && End([]) == 0;
  }

  lemma NextReached(m: Machine, g: Guards, c: nat, t: Transition)
    requires Reached(m, g, c) && Passable(m, g, c, t)
    ensures Reached(m, g, t.to)
  {
    hide Passable;
    var path :| Walk(m, g, path) && End(path) == c;
    var longer := path + [t];
    assert longer[..|path|] == path;
    assert Walk(m, g, longer) && End(longer) == t.to;
  }

  /** A call keeps the current state or takes a passable transition to another. */
  lemma CallMoves(m: Machine, g: Guards, w: World, call: Call) returns (t: Option<Transition>)
    requires Shaped(w) && w.machine.transitions == m.transitions && Heeds(g, w, call)
    ensures Step(w, call).0.machine.transitions == m.transitions
    ensures t.Some? <==> call.CallExecute? && Step(w, call).1 == Success
    ensures Step(w, call).0.machine.current == if t.Some? then t.value.to else w.machine.current
    ensures t.Some? ==> Passable(m, g, w.machine.current, t.value)
  {
    hide StateChecksum, NewState, Touch, FirstNamed;
    t := None;
    if call.CallExecute? && Step(w, call).1 == Success {
      var i := FirstNamed(m.transitions, call.name);
      t := Some(m.transitions[i]);
      assert m.transitions[i].name == call.name;
    }
  }

  lemma {:induction false} RunIsReached(w: World, g: Guards, calls: seq<Call>)
    requires Shaped(w) && w.machine.current == 0 && Obeys(g, w, calls)
    ensures var m' := Run(w, calls).machine;
            m'.transitions == w.machine.transitions && Reached(w.machine, g, m'.current)
    decreases |calls|
  {
    hide Step, Heeds, Passable, Reached, Obeys;
    if calls == [] {
      StartReached(w.machine, g);
    } else {
      var n := |calls| - 1;
      var before, last := calls[..n], calls[n];
      assert calls == before + [last];
      ObeysAppend(g, w, before, last);
      RunIsReached(w, g, before);
      RunAppend(w, before, last);
      var w1 := Run(w, before);
      var t := CallMoves(w.machine, g, w1, last);
      if t.Some? { NextReached(w.machine, g, w1.machine.current, t.value); }
    }
  }

  /** A passable transition of an unlocked machine is taken. */
  lemma PassableIsTaken(m: Machine, g: Guards, w: World, t: Transition)
    requires Shaped(w) && w.machine.transitions == m.transitions && NoneLocked(w.machine)
    requires Passable(m, g, w.machine.current, t)
    ensures var call := CallExecute(t.name, g.allows(w.machine.current, t), 0);
            && Heeds(g, w, call)
            && var (w', status) := Step(w, call);
               && status == Success && w'.machine.current == t.to
               && NoneLocked(w'.machine) && w'.machine.transitions == m.transitions
  {
    hide FirstNamed;
    assert t in w.machine.transitions;
    assert w.machine.states[t.from] in w.machine.states && w.machine.states[t.to] in w.machine.states;
  }

  /** Every walk is the course of some run, with verdicts that even steady guards give. */
  lemma {:induction false} WalkIsRun(w: World, g: Guards, path: seq<Transition>) returns (calls: seq<Call>)
    requires Shaped(w) && NoneLocked(w.machine) && w.machine.current == 0 && Walk(w.machine, g, path)
    ensures Obeys(g, w, calls)
    ensures var m' := Run(w, calls).machine;
            m'.transitions == w.machine.transitions && m'.current == End(path) && NoneLocked(m')
    decreases |path|
  {
    hide Step, Heeds, Passable, Obeys, NoneLocked;
    calls := [];
    if path == [] {
      NothingDisobeys(g, w);
    } else {
      var n := |path| - 1;
      var before := WalkIsRun(w, g, path[..n]);
      var w1 := Run(w, before);
      PassableIsTaken(w.machine, g, w1, path[n]);
      var call := CallExecute(path[n].name, g.allows(w1.machine.current, path[n]), 0);
      ObeysAppend(g, w, before, call);
      RunAppend(w, before, call);
      calls := before + [call];
    }
  }

  /** Every transition that the guards let through, in a state the machine can get to, is
      along an edge. */
  ghost predicate EdgesAlong(m: Machine, g: Guards) {
    forall c, t :: Reached(m, g, c) && Passable(m, g, c, t) ==> Edge(m, c, t.to)
  }

  /** A missing edge shows in a run. */
  lemma EdgeMissed(w: World, g: Guards) returns (calls: seq<Call>, call: Call)
    requires Shaped(w) && NoneLocked(w.machine) && w.machine.current == 0 && !EdgesAlong(w.machine, g)
    ensures Obeys(g, w, calls) && Heeds(g, Run(w, calls), call) && !FollowsEdge(Run(w, calls), call)
  {
    hide Step, Heeds, Obeys, Passable, NoneLocked;
    var c, t :| Reached(w.machine, g, c) && Passable(w.machine, g, c, t) && !Edge(w.machine, c, t.to);
    var path :| Walk(w.machine, g, path) && End(path) == c;
    calls := WalkIsRun(w, g, path);
    call := CallExecute(t.name, g.allows(c, t), 0);
    PassableIsTaken(w.machine, g, Run(w, calls), t);
    assert !Edge(Run(w, calls).machine, c, t.to);
  }

  lemma EdgeFollowed(w: World, g: Guards, calls: seq<Call>, call: Call)
    requires Shaped(w) && w.machine.current == 0 && EdgesAlong(w.machine, g)
    requires Obeys(g, w, calls) && Heeds(g, Run(w, calls), call)
    ensures FollowsEdge(Run(w, calls), call)
  {
    hide Step, Heeds, Obeys, Passable, Reached;
    RunIsReached(w, g, calls);
    var t := CallMoves(w.machine, g, Run(w, calls), call);
    if t.Some? {
      assert Edge(w.machine, Run(w, calls).machine.current, t.value.to);
    }
  }

  /** Executing a transition does not ask whether the machine is in its `from` state. For every
      registered machine and all guards: every step of every run with these guards is along a
      registered edge if and only if each transition that they let through is. */
  lemma EdgesFollowedExactly(w: World, g: Guards)
    requires Shaped(w) && NoneLocked(w.machine) && w.machine.current == 0
    ensures (forall calls, call :: Obeys(g, w, calls) && Heeds(g, Run(w, calls), call) ==>
               FollowsEdge(Run(w, calls), call))
       <==> EdgesAlong(w.machine, g)
  {
    hide Heeds, Obeys, EdgesAlong, FollowsEdge, Run, NoneLocked;
    if EdgesAlong(w.machine, g) {
      forall calls, call | Obeys(g, w, calls) && Heeds(g, Run(w, calls), call)
        ensures FollowsEdge(Run(w, calls), call)
      {
        EdgeFollowed(w, g, calls, call);
      }
    } else {
      var calls, call := EdgeMissed(w, g);
    }
  }

  /** State 0 or the target of a callable transition. */
  ghost predicate Standing(m: Machine, c: nat) {
    c == 0 || exists t :: Callable(m, t) && t.to == c
  }

  /** From every standing state there is an edge to the target of every callable transition. */
  ghost predicate Saturated(m: Machine) {
    forall c, t :: Standing(m, c) && Callable(m, t) ==> Edge(m, c, t.to)
  }

  lemma ReachedStands(m: Machine, g: Guards, c: nat)
    requires Reached(m, g, c)
    ensures Standing(m, c)
  {
    hide Callable;
    var path :| Walk(m, g, path) && End(path) == c;
    if path != [] { assert Callable(m, path[|path| - 1]); }
  }

  /** If no guard ever refuses, or there is none, only a saturated registration will do; it
      does under all guards. */
  lemma SaturatedExactly(m: Machine, g: Guards)
    ensures Saturated(m) ==> EdgesAlong(m, g)
    ensures (forall c, t :: Callable(m, t) ==> Passable(m, g, c, t)) ==> (EdgesAlong(m, g) <==> Saturated(m))
  {
    hide Callable, Edge;
    if Saturated(m) {
      forall c, t | Reached(m, g, c) && Passable(m, g, c, t)
        ensures Edge(m, c, t.to)
      {
        ReachedStands(m, g, c);
      }
    }
    if EdgesAlong(m, g) && forall c, t :: Callable(m, t) ==> Passable(m, g, c, t) {
      forall c, t | Standing(m, c) && Callable(m, t)
        ensures Edge(m, c, t.to)
      {
        StartReached(m, g);
        if c != 0 {
          var u :| Callable(m, u) && u.to == c;
          NextReached(m, g, 0, u);
        }
        assert Passable(m, g, c, t);
      }
    }
  }

  /** Guards that compare the current state with the transition's source. */
  function SourceGuards(steady: bool): (g: Guards) {
    Guards((c: nat, t: Transition) => c == t.from, steady)
  }

  /** Under such guards only transitions without one can leave the edges. */
  lemma SourceGuardsExactly(m: Machine, steady: bool)
    ensures EdgesAlong(m, SourceGuards(steady))
       <==> forall c, t :: Reached(m, SourceGuards(steady), c) && Callable(m, t) && !t.guarded ==> Edge(m, c, t.to)
  {
    var g := SourceGuards(steady);
    forall c, t | Callable(m, t) && t.guarded && Passable(m, g, c, t)
      ensures Edge(m, c, t.to)
    {
      assert t in m.transitions;
    }
    hide Callable, Edge, Reached;
    assert forall c, t :: Callable(m, t) && !t.guarded ==> Passable(m, g, c, t);
  }

  // ----- The mutable machine

  class PolycallStateMachine {
    var states: seq<State>
    var transitions: seq<Transition>
    var current: nat
    var failedTransitions: Word
    var integrityViolations: Word

    ghost function Model(): (m: Machine)
      reads this
    {
      Machine(states, transitions, current, failedTransitions, integrityViolations)
    }

    ghost predicate Valid()
      reads this
    {
      EndpointsInRange(Model())
    }

    constructor ()
      ensures Valid() && Model() == Initial().machine
    {
      states, transitions, current := [], [], 0;
      failedTransitions, integrityViolations := 0, 0;
    }

    method AddState(name: CString, onEnter: Long, onExit: Long, isFinal: bool, now: Long) returns (status: Status)
      requires Valid()
      modifies this
      ensures Valid()
      ensures (Model(), status) == AddedState(old(Model()), name, onEnter, onExit, isFinal, now)
    {
      if |states| >= MAX_STATES {
        return MaxStatesReached;
      }
      var state := State(Clip(name), onEnter, onExit, isFinal, |states|, 0, 0, 1, false);
      state := Touch(state, now);
      var checksum := CalculateStateChecksum(CoveredBytes(state));
      states := states + [state.(checksum := checksum)];
      status := Success;
    }

    method AddTransition(name: CString, from: nat, to: nat, action: Long, guarded: bool) returns (status: Status)
      requires Valid()
      modifies this
      ensures Valid()
      ensures (Model(), status) == AddedTransition(old(Model()), name, from, to, action, guarded)
    {
      if |transitions| >= MAX_TRANSITIONS {
        return MaxTransitionsReached;
      }
      if from >= |states| || to >= |states| {
        return InvalidState;
      }
      transitions := transitions + [Transition(Clip(name), from, to, action, guarded)];
      status := Success;
    }

    method FindTransition(name: CString) returns (i: nat)
      ensures i == FirstNamed(transitions, name)
    {
      i := 0;
      while i < |transitions| && transitions[i].name != name
        invariant i <= |transitions|
        invariant forall j :: 0 <= j < i ==> transitions[j].name != name
      {
        i := i + 1;
      }
    }

    method Execute(name: CString, guardAllows: bool, now: Long) returns (status: Status, called: seq<Long>)
      requires Valid()
      modifies this
      ensures Valid()
      ensures (Model(), status) == Executed(old(Model()), name, guardAllows, now)
      ensures status != Success ==> called == []
      ensures status == Success ==>
                called == ActionsOf(old(Model()), transitions[FirstNamed(transitions, name)])
    {
      called := [];
      var i := FindTransition(name);
      if i == |transitions| {
        failedTransitions := Increment(failedTransitions);
        return InvalidTransition, called;
      }
      var t := transitions[i];
      if states[t.from].locked || states[t.to].locked {
        return StateLocked, called;
      }
      if t.guarded && !guardAllows {
        failedTransitions := Increment(failedTransitions);
        return InvalidTransition, called;
      }
      if states[t.from].onExit != 0 {
        called := called + [states[t.from].onExit];
      }
      if t.action != 0 {
        called := called + [t.action];
      }
      if states[t.to].onEnter != 0 {
        called := called + [states[t.to].onEnter];
      }
      current := t.to;
      states := states[t.to := Touch(states[t.to], now)];
      status := Success;
    }

    method Verify(id: nat, customAccepts: bool) returns (status: Status)
      requires Valid()
      modifies this`integrityViolations
      ensures Valid()
      ensures (Model(), status) == Verified(old(Model()), id, customAccepts)
    {
      if id >= |states| {
        return InvalidState;
      }
      var checksum := CalculateStateChecksum(CoveredBytes(states[id]));
      if checksum != states[id].checksum {
        integrityViolations := Increment(integrityViolations);
        return IntegrityCheckFailed;
      }
      if !customAccepts {
        integrityViolations := Increment(integrityViolations);
        return IntegrityCheckFailed;
      }
      status := Success;
    }

    method Lock(id: nat, now: Long) returns (status: Status)
      requires Valid()
      modifies this`states
      ensures Valid()
      ensures (Model(), status) == SetLock(old(Model()), id, true, now)
    {
      if id >= |states| {
        return InvalidState;
      }
      states := states[id := states[id].(locked := true)];
      states := states[id := Touch(states[id], now)];
      assert states == old(states)[id := states[id]];
      status := Success;
    }

    method Unlock(id: nat, now: Long) returns (status: Status)
      requires Valid()
      modifies this`states
      ensures Valid()
      ensures (Model(), status) == SetLock(old(Model()), id, false, now)
    {
      if id >= |states| {
        return InvalidState;
      }
      states := states[id := states[id].(locked := false)];
      states := states[id := Touch(states[id], now)];
      assert states == old(states)[id := states[id]];
      status := Success;
    }

    method CreateSnapshot(id: nat, now: Long) returns (status: Status, snapshot: Option<Snapshot>)
      ensures status == if id < |states| then Success else InvalidState
      ensures snapshot == if id < |states| then Some(SnapshotOf(Model(), id, now)) else None
    {
      if id >= |states| {
        return InvalidState, None;
      }
      var checksum := CalculateStateChecksum(CoveredBytes(states[id]));
      return Success, Some(Snapshot(states[id], now, checksum));
    }

    method Restore(snapshot: Snapshot, now: Long) returns (status: Status)
      requires Valid()
      modifies this`states
      ensures Valid()
      ensures (Model(), status) == Restored(old(Model()), snapshot, now)
    {
      var id := snapshot.state.id;
      if id >= |states| {
        return InvalidState;
      }
      if states[id].locked {
        return StateLocked;
      }
      if states[id].version != snapshot.state.version {
        return VersionMismatch;
      }
      states := states[id := snapshot.state];
      states := states[id := Touch(states[id], now)];
      assert states == old(states)[id := states[id]];
      status := Success;
    }
  }
}
