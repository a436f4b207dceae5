/** Protocol sessions of src/polycall_protocol.c: sending, processing, and the walk through
    the protocol states in step with a state machine that the embedder has filled. */
module Session {
  import opened Bits
  import opened Bytes
  import opened Checksum
  import opened Frames
  import opened Options
  import SM = StateMachine

  datatype Phase = Init | Handshake | Auth | Ready | Error | Closed

  /** The value of polycall_protocol_state_t. */
  function Code(p: Phase): (n: nat) {
    match p
    case Init => 0
    case Handshake => 1
    case Auth => 2
    case Ready => 3
    case Error => 4
    case Closed => 5
  }

  /** The transition that leads to a phase: "to_handshake", "to_auth", "to_ready",
      "to_error", "to_closed"; none leads back to Init. */
  function TransitionTo(p: Phase): (name: SM.CString)
    requires p != Init
  {
    match p
    case Handshake => [116, 111, 95, 104, 97, 110, 100, 115, 104, 97, 107, 101]
    case Auth => [116, 111, 95, 97, 117, 116, 104]
    case Ready => [116, 111, 95, 114, 101, 97, 100, 121]
    case Error => [116, 111, 95, 101, 114, 114, 111, 114]
    case Closed => [116, 111, 95, 99, 108, 111, 115, 101, 100]
  }

  datatype Notice = Notice(from: Phase, to: Phase)

  /** A call of one of the embedder's message callbacks. Handshakes pass nothing on, and
      credentials and errors pass a pointer without a length, which gives the bytes before
      the first zero; without a zero it has no end in the payload, written `None`. */
  datatype Delivery =
    | HandshakeCalled
    | AuthRequested(credentials: Option<SM.CString>)
    | CommandCalled(payload: seq<Byte>)
    | ErrorCalled(error: Option<SM.CString>)

  /** `notices` and `delivered` are what the embedder's callbacks have been told;
      `callbacks` are the message types with a callback, `observed` whether state changes
      have one. `wire` is what has been handed to the network. */
  datatype State = State(
    phase: Phase, nextSequence: Word, machine: SM.Machine,
    callbacks: set<Byte>, observed: bool,
    wire: seq<seq<Byte>>, delivered: seq<Delivery>, notices: seq<Notice>)

  function Start(m: SM.Machine, callbacks: set<Byte>, observed: bool): (s: State) {
    State(Init, 1, m, callbacks, observed, [], [], [])
  }

  /** The embedder's registration is the same. */
  predicate SameTables(s: State, s': State) {
    s'.machine.transitions == s.machine.transitions && |s'.machine.states| == |s.machine.states|
  }

  // ----- The operations

  /** polycall_protocol_send. The sequence number is used up even if the message turns out
      too large. `network` is whether the network took the whole packet. */
  function Sent(s: State, kind: Byte, payload: seq<Byte>, flags: Half, network: bool): (r: (State, bool)) {
    if payload == [] then (s, false)
    else
      var s' := s.(nextSequence := SM.Increment(s.nextSequence));
      if !CanSend(payload) then (s', false)
      else (s'.(wire := s.wire + [CFrame(kind, payload, flags, s.nextSequence)]), network)
  }

  /** transition_protocol_state. */
  function Moved(s: State, target: Phase, guardAllows: bool, now: Long): (r: (State, bool))
    requires SM.EndpointsInRange(s.machine)
    ensures SameTables(s, r.0)
  {
    if target == Init then (s, false)
    else
      var (m, status) := SM.Executed(s.machine, TransitionTo(target), guardAllows, now);
      if status != SM.Success then (s.(machine := m), false)
      else
        (s.(machine := m, phase := target,
            notices := if target != s.phase && s.observed then s.notices + [Notice(s.phase, target)] else s.notices),
         true)
  }

  /** polycall_protocol_process. */
  function Processed(s: State, data: seq<Byte>): (r: (State, bool)) {
    if !CAccepts(data) then (s, false)
    else if data[1] in s.callbacks && data[1] != HEARTBEAT then
      (s.(delivered := s.delivered + [DeliveryOf(data[1], data[HEADER_SIZE..])]), true)
    else (s, true)
  }

  /** The C string at the start of a payload. */
  function TextAt(payload: seq<Byte>): (text: Option<SM.CString>)
    decreases |payload|
  {
    if payload == [] then None
    else if payload[0] == 0 then Some([])
    else
      var rest := TextAt(payload[1..]);
      if rest.None? then None else Some([payload[0]] + rest.value)
  }

  function DeliveryOf(kind: Byte, payload: seq<Byte>): (d: Delivery)
    requires kind in {HANDSHAKE, AUTH, COMMAND, ERROR}
  {
    if kind == HANDSHAKE then HandshakeCalled
    else if kind == AUTH then AuthRequested(TextAt(payload))
    else if kind == COMMAND then CommandCalled(payload)
    else ErrorCalled(TextAt(payload))
  }

  predicate CanTransition(from: Phase, to: Phase) {
    match from
    case Init => to == Handshake
    case Handshake => to == Auth
    case Auth => to == Ready
    case Ready => to == Error || to == Closed
    case Error => to == Closed
    case Closed => false
  }

  /** Magic number, version, padding, flags; the padding byte is unspecified. */
  function HandshakePayload(pad: Byte): (payload: seq<Byte>) {
    [0x43, 0x4C, 0x50, 0, VERSION, pad, 0, 0]
  }

  const RELIABLE: Half := 8
  const ENCRYPTED_RELIABLE: Half := 9

  function HandshakeStarted(s: State, pad: Byte, network: bool, guardAllows: bool, now: Long): (r: (State, bool))
    requires SM.EndpointsInRange(s.machine)
    ensures SameTables(s, r.0)
  {
    if s.phase != Init then (s, false)
    else
      var (s', ok) := Sent(s, HANDSHAKE, HandshakePayload(pad), RELIABLE, network);
      if !ok then (s', false) else Moved(s', Handshake, guardAllows, now)
  }

  function HandshakeCompleted(s: State, guardAllows: bool, now: Long): (r: (State, bool))
    requires SM.EndpointsInRange(s.machine)
    ensures SameTables(s, r.0)
  {
    if s.phase != Handshake then (s, false) else Moved(s, Auth, guardAllows, now)
  }

  /** The current phase is not consulted. */
  function Authenticated(s: State, credentials: seq<Byte>, network: bool, guardAllows: bool, now: Long)
    : (r: (State, bool))
    requires SM.EndpointsInRange(s.machine)
    ensures SameTables(s, r.0)
  {
    if credentials == [] then (s, false)
    else
      var (s', ok) := Sent(s, AUTH, credentials, ENCRYPTED_RELIABLE, network);
      if !ok then (s', false) else Moved(s', Ready, guardAllows, now)
  }

  function Updated(s: State, pad: Byte, network: bool, guardAllows: bool, now: Long): (s': State)
    requires SM.EndpointsInRange(s.machine)
    ensures SameTables(s, s')
  {
    match s.phase
    case Init => HandshakeStarted(s, pad, network, guardAllows, now).0
    case Handshake => Moved(s, Auth, guardAllows, now).0
    case Auth => Moved(s, Ready, guardAllows, now).0
    case _ => s
  }

  // ----- Runs

  datatype Call =
    | Send(kind: Byte, payload: seq<Byte>, flags: Half, network: bool)
    | Process(data: seq<Byte>)
    | Update(pad: Byte, network: bool, guardAllows: bool, now: Long)
    | StartHandshake(pad: Byte, network: bool, guardAllows: bool, now: Long)
    | CompleteHandshake(guardAllows: bool, now: Long)
    | Authenticate(credentials: seq<Byte>, network: bool, guardAllows: bool, now: Long)
    | SetError(guardAllows: bool, now: Long)
    | LockState(id: nat, now: Long)
    | UnlockState(id: nat, now: Long)

  function Step(s: State, call: Call): (s': State)
    requires SM.EndpointsInRange(s.machine)
    ensures SameTables(s, s') && SM.EndpointsInRange(s'.machine)
  {
    match call
    case Send(kind, payload, flags, network) => Sent(s, kind, payload, flags, network).0
    case Process(data) => Processed(s, data).0
    case Update(pad, network, guardAllows, now) => Updated(s, pad, network, guardAllows, now)
    case StartHandshake(pad, network, guardAllows, now) => HandshakeStarted(s, pad, network, guardAllows, now).0
    case CompleteHandshake(guardAllows, now) => HandshakeCompleted(s, guardAllows, now).0
    case Authenticate(credentials, network, guardAllows, now) =>
      Authenticated(s, credentials, network, guardAllows, now).0
    case SetError(guardAllows, now) => Moved(s, Error, guardAllows, now).0
    case LockState(id, now) => s.(machine := SM.SetLock(s.machine, id, true, now).0)
    case UnlockState(id, now) => s.(machine := SM.SetLock(s.machine, id, false, now).0)
  }

  function Run(s: State, calls: seq<Call>): (s': State)
    requires SM.EndpointsInRange(s.machine)
    ensures SM.EndpointsInRange(s'.machine)
    decreases |calls|
  {
    if calls == [] then s else Run(Step(s, calls[0]), calls[1..])
  }

  // ----- What moves a session

  predicate Registered(m: SM.Machine, target: Phase)
    requires target != Init
  {
    SM.FirstNamed(m.transitions, TransitionTo(target)) < |m.transitions|
  }

  /** The transition the machine would take towards `target`. */
  function Chosen(m: SM.Machine, target: Phase): (t: SM.Transition)
    requires target != Init && Registered(m, target)
  {
    m.transitions[SM.FirstNamed(m.transitions, TransitionTo(target))]
  }

  /** The transition towards `target` exists, neither of its states is locked, and its guard,
      if it has one, allows it. */
  predicate Goes(m: SM.Machine, target: Phase, guardAllows: bool)
    requires SM.EndpointsInRange(m) && target != Init
  {
    && Registered(m, target)
    && var t := Chosen(m, target);
       !m.states[t.from].locked && !m.states[t.to].locked && (t.guarded ==> guardAllows)
  }

  predicate AllUnlocked(s: State) {
    forall st :: st in s.machine.states ==> !st.locked
  }

  lemma MoveEffect(s: State, target: Phase, guardAllows: bool, now: Long)
    requires SM.EndpointsInRange(s.machine) && target != Init
    ensures var (s', ok) := Moved(s, target, guardAllows, now);
            && (ok <==> Goes(s.machine, target, guardAllows))
            && s'.phase == (if ok then target else s.phase)
            && s'.machine.current == (if ok then Chosen(s.machine, target).to else s.machine.current)
            && (AllUnlocked(s) ==> AllUnlocked(s'))
  {
    hide TransitionTo, SM.FirstNamed;
  }

  /** With everything unlocked and the guard allowing it, a registered transition is taken. */
  lemma UnlockedGoes(s: State, target: Phase, guardAllows: bool)
    requires SM.EndpointsInRange(s.machine) && AllUnlocked(s) && target != Init
    ensures Goes(s.machine, target, guardAllows)
       <==> Registered(s.machine, target) && (Chosen(s.machine, target).guarded ==> guardAllows)
  {
    hide TransitionTo, SM.FirstNamed;
    if Registered(s.machine, target) {
      var t := Chosen(s.machine, target);
      assert t in s.machine.transitions;
      assert s.machine.states[t.from] in s.machine.states && s.machine.states[t.to] in s.machine.states;
    }
  }

  /** Some call made in phase `p` heads for `t`. */
  predicate Heads(p: Phase, t: Phase) {
    match t
    case Handshake => p == Init
    case Auth => p == Handshake
    case Ready => true
    case Error => true
    case _ => false
  }

  /** The phase a call heads for when it is made in phase `p`. */
  function Target(p: Phase, call: Call): (t: Option<Phase>)
    ensures t.Some? ==> Heads(p, t.value)
  {
    match call
    case Update(_, _, _, _) =>
      if p == Init then Some(Handshake)
      else if p == Handshake then Some(Auth)
      else if p == Auth then Some(Ready)
      else None
    case StartHandshake(_, _, _, _) => if p == Init then Some(Handshake) else None
    case CompleteHandshake(_, _) => if p == Handshake then Some(Auth) else None
    case Authenticate(_, _, _, _) => Some(Ready)
    case SetError(_, _) => Some(Error)
    case _ => None
  }

  /** The message that comes before the move, if there is one, can be sent and is taken by
      the network. */
  predicate MessageOut(p: Phase, call: Call) {
    match call
    case Update(_, network, _, _) => p == Init ==> network
    case StartHandshake(_, network, _, _) => network
    case Authenticate(credentials, network, _, _) => CanSend(credentials) && network
    case _ => true
  }

  /** What the guard answers during the call. */
  predicate Verdict(call: Call) {
    match call
    case Update(_, _, guardAllows, _) => guardAllows
    case StartHandshake(_, _, guardAllows, _) => guardAllows
    case CompleteHandshake(guardAllows, _) => guardAllows
    case Authenticate(_, _, guardAllows, _) => guardAllows
    case SetError(guardAllows, _) => guardAllows
    case _ => false
  }

  /** What has to be the case before a call for it to move the session. */
  predicate GoesThrough(s: State, call: Call): (through: bool)
    requires SM.EndpointsInRange(s.machine)
    ensures through ==> Target(s.phase, call).Some?
  {
    var t := Target(s.phase, call);
    t.Some? && MessageOut(s.phase, call) && Goes(s.machine, t.value, Verdict(call))
  }

  /** A call moves session and machine exactly if it goes through. */
  lemma StepEffect(s: State, call: Call)
    requires SM.EndpointsInRange(s.machine)
    ensures var s' := Step(s, call);
            if GoesThrough(s, call) then
              var t := Target(s.phase, call).value;
              s'.phase == t && s'.machine.current == Chosen(s.machine, t).to
            else s'.phase == s.phase && s'.machine.current == s.machine.current
    ensures Target(s.phase, call).Some? && AllUnlocked(s) ==> AllUnlocked(Step(s, call))
  {
    hide Moved, Goes, Chosen, Registered, TransitionTo, CFrame, CAccepts, DeliveryOf, AllUnlocked;
    match call
    case Update(pad, network, guardAllows, now) =>
      if s.phase == Init {
        HandshakeMoves(s, pad, network, guardAllows, now);
      } else if Target(s.phase, call).Some? {
        MoveEffect(s, Target(s.phase, call).value, guardAllows, now);
      }
    case StartHandshake(pad, network, guardAllows, now) =>
      if s.phase == Init { HandshakeMoves(s, pad, network, guardAllows, now); }
    case CompleteHandshake(guardAllows, now) =>
      if s.phase == Handshake { MoveEffect(s, Auth, guardAllows, now); }
    case Authenticate(credentials, network, guardAllows, now) =>
      var s1 := Sent(s, AUTH, credentials, ENCRYPTED_RELIABLE, network).0;
      SameMachine(s, s1);
      MoveEffect(s1, Ready, guardAllows, now);
    case SetError(guardAllows, now) => MoveEffect(s, Error, guardAllows, now);
    case _ =>
  }

  lemma HandshakeMoves(s: State, pad: Byte, network: bool, guardAllows: bool, now: Long)
    requires SM.EndpointsInRange(s.machine) && s.phase == Init
    ensures var s' := HandshakeStarted(s, pad, network, guardAllows, now).0;
            && (if network && Goes(s.machine, Handshake, guardAllows)
                then s'.phase == Handshake && s'.machine.current == Chosen(s.machine, Handshake).to
                else s'.phase == Init && s'.machine.current == s.machine.current)
            && (AllUnlocked(s) ==> AllUnlocked(s'))
  {
    hide Moved, Goes, Chosen, Registered, TransitionTo, CFrame, AllUnlocked;
    var s1 := Sent(s, HANDSHAKE, HandshakePayload(pad), RELIABLE, network).0;
    SameMachine(s, s1);
    MoveEffect(s1, Handshake, guardAllows, now);
  }

  lemma SameMachine(s: State, s': State)
    requires s'.machine == s.machine
    ensures AllUnlocked(s') == AllUnlocked(s)
  {
  }

  // ----- The order of phases

  /** Calls that follow the protocol: everything but authenticate and set_error. */
  predicate Orderly(call: Call) {
    !call.Authenticate? && !call.SetError?
  }

  lemma OrderlyStep(s: State, call: Call)
    requires SM.EndpointsInRange(s.machine) && Orderly(call) && Code(s.phase) <= 3
    ensures Code(s.phase) <= Code(Step(s, call).phase) <= Code(s.phase) + 1
    ensures Code(Step(s, call).phase) <= 3
  {
    hide Step, Goes, MessageOut;
    StepEffect(s, call);
  }

  /** Whatever phase an orderly run ends in, it has been through every phase before it:
      READY is reached only by way of HANDSHAKE and AUTH, and ERROR and CLOSED never. */
  lemma {:induction false} PhasesInOrder(s: State, calls: seq<Call>, p: Phase) returns (n: nat)
    requires SM.EndpointsInRange(s.machine) && Code(s.phase) <= 3
    requires forall c :: c in calls ==> Orderly(c)
    requires Code(s.phase) <= Code(p) <= Code(Run(s, calls).phase)
    ensures n <= |calls| && Run(s, calls[..n]).phase == p
    ensures Code(Run(s, calls).phase) <= 3
    decreases |calls|
  {
    if calls == [] {
      n := 0;
    } else {
      OrderlyStep(s, calls[0]);
      var s1, rest := Step(s, calls[0]), calls[1..];
      if Code(s1.phase) <= Code(p) {
        var k := PhasesInOrder(s1, rest, p);
        n := k + 1;
        assert calls[..n][1..] == rest[..k] && calls[..n][0] == calls[0];
      } else {
        OrderlyRun(s1, rest);
        n := 0;
        assert Code(s.phase) == Code(p);
      }
    }
  }

  lemma {:induction false} OrderlyRun(s: State, calls: seq<Call>)
    requires SM.EndpointsInRange(s.machine) && Code(s.phase) <= 3
    requires forall c :: c in calls ==> Orderly(c)
    ensures Code(s.phase) <= Code(Run(s, calls).phase) <= 3
    decreases |calls|
  {
    if calls != [] {
      OrderlyStep(s, calls[0]);
      OrderlyRun(Step(s, calls[0]), calls[1..]);
    }
  }

  /** Authentication is the exception: from any phase, INIT, ERROR and CLOSED included, one
      call leads straight to READY. */
  lemma AuthenticateSkipsAhead(s: State, credentials: seq<Byte>, now: Long)
    requires SM.EndpointsInRange(s.machine) && Registered(s.machine, Ready)
    requires forall st :: st in s.machine.states ==> !st.locked
    requires CanSend(credentials)
    ensures Authenticated(s, credentials, true, true, now).1
    ensures Authenticated(s, credentials, true, true, now).0.phase == Ready
  {
    hide TransitionTo, Moved, CFrame;
    var s1 := Sent(s, AUTH, credentials, ENCRYPTED_RELIABLE, true).0;
    UnlockedGoes(s1, Ready, true);
    MoveEffect(s1, Ready, true, now);
  }

  /** So does set_error to ERROR, also from INIT, which the table of transitions forbids. */
  lemma SetErrorSkipsAhead(s: State, now: Long)
    requires SM.EndpointsInRange(s.machine) && Registered(s.machine, Error)
    requires forall st :: st in s.machine.states ==> !st.locked
    ensures Moved(s, Error, true, now).1 && Moved(s, Error, true, now).0.phase == Error
    ensures !CanTransition(Init, Error)
  {
    hide TransitionTo, Moved;
    UnlockedGoes(s, Error, true);
    MoveEffect(s, Error, true, now);
  }

  /** The phase stays or takes a step of the table of transitions. */
  predicate FollowsTable(s: State, call: Call)
    requires SM.EndpointsInRange(s.machine)
  {
    Step(s, call).phase == s.phase || CanTransition(s.phase, Step(s, call).phase)
  }

  /** The call is not an authentication outside AUTH and READY that would go through, nor such
      an error report outside READY and ERROR. */
  predicate InTurn(s: State, call: Call)
    requires SM.EndpointsInRange(s.machine)
  {
    && (call.Authenticate? && GoesThrough(s, call) ==> s.phase in {Auth, Ready})
    && (call.SetError? && GoesThrough(s, call) ==> s.phase in {Ready, Error})
  }

  /** The table leads from each phase to the next one, and from READY to CLOSED as well. */
  lemma TableIsForward(p: Phase, t: Phase)
    ensures CanTransition(p, t) <==> Code(t) == Code(p) + 1 || (p == Ready && t == Closed)
  {
  }

  lemma TableFollowedExactly(s: State, call: Call)
    requires SM.EndpointsInRange(s.machine)
    ensures FollowsTable(s, call) <==> InTurn(s, call)
  {
    hide Step, Goes, MessageOut;
    StepEffect(s, call);
  }

  lemma {:induction false} RunAppend(s: State, calls: seq<Call>, call: Call)
    requires SM.EndpointsInRange(s.machine)
    ensures Run(s, calls + [call]) == Step(Run(s, calls), call)
    decreases |calls|
  {
    hide Step;
    if calls == [] {
      assert [] + [call] == [call] && [call][1..] == [];
    } else {
      assert (calls + [call])[1..] == calls[1..] + [call];
      RunAppend(Step(s, calls[0]), calls[1..], call);
    }
  }

  predicate TableNotices(s: State) {
    forall n :: n in s.notices ==> CanTransition(n.from, n.to)
  }

  /** An observer, if there is one, is told of every change of phase, and of nothing else. */
  lemma NoticeOfStep(s: State, call: Call)
    requires SM.EndpointsInRange(s.machine)
    ensures var s' := Step(s, call);
            && s'.observed == s.observed
            && s'.notices
               == s.notices + if s'.phase == s.phase || !s.observed then [] else [Notice(s.phase, s'.phase)]
  {
    hide SM.Executed, SM.SetLock, TransitionTo, CFrame, CAccepts, HandshakePayload, CanSend, DeliveryOf;
  }

  lemma TableNoticesStep(s: State, call: Call)
    requires SM.EndpointsInRange(s.machine) && s.observed
    ensures TableNotices(Step(s, call)) <==> TableNotices(s) && InTurn(s, call)
  {
    hide Step, InTurn, CanTransition;
    NoticeOfStep(s, call);
    TableFollowedExactly(s, call);
    var s' := Step(s, call);
    if s'.phase != s.phase {
      assert Notice(s.phase, s'.phase) in s'.notices;
    }
    assert forall n :: n in s.notices ==> n in s'.notices;
  }

  ghost predicate AllInTurn(s: State, calls: seq<Call>)
    requires SM.EndpointsInRange(s.machine)
  {
    forall n :: 0 <= n < |calls| ==> InTurn(Run(s, calls[..n]), calls[n])
  }

  lemma AllInTurnAppend(s: State, calls: seq<Call>, call: Call)
    requires SM.EndpointsInRange(s.machine)
    ensures AllInTurn(s, calls + [call]) <==> AllInTurn(s, calls) && InTurn(Run(s, calls), call)
  {
    hide InTurn, Run;
    var all := calls + [call];
    assert all[..|calls|] == calls && all[|calls|] == call;
    assert forall n :: 0 <= n < |calls| ==> all[..n] == calls[..n] && all[n] == calls[n];
  }

  /** Over every run: the phases the observer is told of follow the table of transitions if
      and only if every call is made in turn, which the caller can read off the phase. */
  lemma {:induction false} PhaseOrderExactly(s: State, calls: seq<Call>)
    requires SM.EndpointsInRange(s.machine) && s.observed && TableNotices(s)
    ensures Run(s, calls).observed
    ensures TableNotices(Run(s, calls)) <==> AllInTurn(s, calls)
    decreases |calls|
  {
    hide Step, InTurn, CanTransition, TableNotices, AllInTurn;
    if calls == [] {
      assert AllInTurn(s, []) by { NothingInTurn(s); }
    } else {
      var n := |calls| - 1;
      var before, last := calls[..n], calls[n];
      assert calls == before + [last];
      PhaseOrderExactly(s, before);
      RunAppend(s, before, last);
      AllInTurnAppend(s, before, last);
      NoticeOfStep(Run(s, before), last);
      TableNoticesStep(Run(s, before), last);
    }
  }

  lemma NothingInTurn(s: State)
    requires SM.EndpointsInRange(s.machine)
    ensures AllInTurn(s, [])
  {
  }

  // ----- Guards

  /** The guards of a registration: `allows(p, t)` is whether a session in phase `p` may be let
      through towards phase `t`. A steady guard always lets it through then; others may refuse
      all the same. Transitions without a guard are not concerned. */
  datatype Guards = Guards(allows: (Phase, Phase) -> bool, steady: bool)

  /** The verdict in the call is one these guards can give. */
  predicate Heeds(g: Guards, s: State, call: Call) {
    var t := Target(s.phase, call);
    t.Some? ==>
      && (Verdict(call) ==> g.allows(s.phase, t.value))
      && (g.steady && g.allows(s.phase, t.value) ==> Verdict(call))
  }

  ghost predicate Obeys(g: Guards, s: State, calls: seq<Call>)
    requires SM.EndpointsInRange(s.machine)
  {
    forall n :: 0 <= n < |calls| ==> Heeds(g, Run(s, calls[..n]), calls[n])
  }

  lemma ObeysAppend(g: Guards, s: State, calls: seq<Call>, call: Call)
    requires SM.EndpointsInRange(s.machine)
    ensures Obeys(g, s, calls + [call]) <==> Obeys(g, s, calls) && Heeds(g, Run(s, calls), call)
  {
    hide Heeds, Run;
    var all := calls + [call];
    assert all[..|calls|] == calls && all[|calls|] == call;
    assert forall n :: 0 <= n < |calls| ==> all[..n] == calls[..n] && all[n] == calls[n];
  }

  lemma ObeysPrefix(g: Guards, s: State, calls: seq<Call>, n: nat)
    requires SM.EndpointsInRange(s.machine) && Obeys(g, s, calls) && n <= |calls|
    ensures Obeys(g, s, calls[..n])
  {
    hide Heeds, Run;
    assert forall k :: 0 <= k < n ==> calls[..n][..k] == calls[..k] && calls[..n][k] == calls[k];
  }

  // ----- The graph of phases

  /** With these guards the step from `p` to `t` can be made. */
  predicate Passable(m: SM.Machine, g: Guards, p: Phase, t: Phase) {
    Heads(p, t) && Registered(m, t) && (Chosen(m, t).guarded ==> g.allows(p, t))
  }

  function End(path: seq<Phase>): (p: Phase) {
    if path == [] then Init else path[|path| - 1]
  }

  predicate Walk(m: SM.Machine, g: Guards, path: seq<Phase>) {
    path == [] ||
    var n := |path| - 1; Walk(m, g, path[..n]) && Passable(m, g, End(path[..n]), path[n])
  }

  /** Passable steps lead from INIT to `p`. */
  ghost predicate Reached(m: SM.Machine, g: Guards, p: Phase) {
    exists path :: Walk(m, g, path) && End(path) == p
  }

  lemma InitReached(m: SM.Machine, g: Guards)
    ensures Reached(m, g, Init)
  {
    assert Walk(m, g, []) && End([]) == Init;
  }

  lemma NextReached(m: SM.Machine, g: Guards, p: Phase, t: Phase)
    requires Reached(m, g, p) && Passable(m, g, p, t)
    ensures Reached(m, g, t)
  {
    hide Passable;
    var path :| Walk(m, g, path) && End(path) == p;
    var longer := path + [t];
    assert longer[..|path|] == path;
    assert Walk(m, g, longer) && End(longer) == t;
  }

  /** A call that moves the session takes a passable step. */
  lemma MoveIsPassable(m: SM.Machine, g: Guards, s: State, call: Call)
    requires SM.EndpointsInRange(s.machine) && s.machine.transitions == m.transitions
    requires Heeds(g, s, call) && GoesThrough(s, call)
    ensures Passable(m, g, s.phase, Target(s.phase, call).value)
    ensures Chosen(m, Target(s.phase, call).value) == Chosen(s.machine, Target(s.phase, call).value)
  {
    hide TransitionTo, SM.FirstNamed, Target, Verdict, MessageOut;
  }

  lemma {:induction false} RunIsReached(
    m: SM.Machine, g: Guards, callbacks: set<Byte>, observed: bool, calls: seq<Call>)
    requires SM.EndpointsInRange(m) && Obeys(g, Start(m, callbacks, observed), calls)
    ensures var s := Run(Start(m, callbacks, observed), calls);
            s.machine.transitions == m.transitions && Reached(m, g, s.phase)
    decreases |calls|
  {
    hide Step, Heeds, GoesThrough, Passable, Reached, Obeys, Target, Chosen, Registered;
    var s0 := Start(m, callbacks, observed);
    if calls == [] {
      InitReached(m, g);
    } else {
      var n := |calls| - 1;
      var before, last := calls[..n], calls[n];
      assert calls == before + [last];
      ObeysAppend(g, s0, before, last);
      RunIsReached(m, g, callbacks, observed, before);
      RunAppend(s0, before, last);
      var s := Run(s0, before);
      StepEffect(s, last);
      if GoesThrough(s, last) {
        MoveIsPassable(m, g, s, last);
        NextReached(m, g, s.phase, Target(s.phase, last).value);
      }
    }
  }

  /** A call that heads for `t`. */
  function CallTo(t: Phase, guardAllows: bool): (call: Call) {
    match t
    case Handshake => StartHandshake(0, true, guardAllows, 0)
    case Auth => CompleteHandshake(guardAllows, 0)
    case Ready => Authenticate([1], true, guardAllows, 0)
    case _ => SetError(guardAllows, 0)
  }

  lemma PassableIsTaken(m: SM.Machine, g: Guards, s: State, t: Phase)
    requires SM.EndpointsInRange(s.machine) && s.machine.transitions == m.transitions && AllUnlocked(s)
    requires Passable(m, g, s.phase, t)
    ensures var call := CallTo(t, g.allows(s.phase, t));
            && Heeds(g, s, call)
            && var s' := Step(s, call);
               s'.phase == t && s'.machine.current == Chosen(m, t).to && AllUnlocked(s')
  {
    hide TransitionTo, SM.FirstNamed, Step, AllUnlocked, Goes;
    var call := CallTo(t, g.allows(s.phase, t));
    assert Target(s.phase, call) == Some(t);
    UnlockedGoes(s, t, g.allows(s.phase, t));
    StepEffect(s, call);
  }

  /** Every walk is the course of some run, with verdicts that even steady guards give. */
  lemma {:induction false} WalkIsRun(m: SM.Machine, g: Guards, callbacks: set<Byte>, observed: bool, path: seq<Phase>)
    returns (calls: seq<Call>)
    requires Fresh(m) && Walk(m, g, path)
    ensures Obeys(g, Start(m, callbacks, observed), calls)
    ensures var s := Run(Start(m, callbacks, observed), calls);
            s.machine.transitions == m.transitions && s.phase == End(path) && AllUnlocked(s)
    decreases |path|
  {
    hide Step, Heeds, Passable, Obeys, Chosen, Registered, CallTo;
    var s0 := Start(m, callbacks, observed);
    calls := [];
    if path == [] {
      assert Obeys(g, s0, []) by { NothingDisobeys(g, s0); }
    } else {
      var n := |path| - 1;
      var before := WalkIsRun(m, g, callbacks, observed, path[..n]);
      var s := Run(s0, before);
      PassableIsTaken(m, g, s, path[n]);
      var call := CallTo(path[n], g.allows(s.phase, path[n]));
      ObeysAppend(g, s0, before, call);
      RunAppend(s0, before, call);
      calls := before + [call];
    }
  }

  lemma NothingDisobeys(g: Guards, s: State)
    requires SM.EndpointsInRange(s.machine)
    ensures Obeys(g, s, [])
  {
  }

  /** A run that ends with a given passable step out of a reached phase. */
  lemma ReachedStepIsRun(m: SM.Machine, g: Guards, callbacks: set<Byte>, observed: bool, p: Phase, t: Phase)
    returns (calls: seq<Call>, call: Call)
    requires Fresh(m) && Reached(m, g, p) && Passable(m, g, p, t)
    ensures Obeys(g, Start(m, callbacks, observed), calls + [call])
    ensures Run(Start(m, callbacks, observed), calls).phase == p
    ensures var s' := Run(Start(m, callbacks, observed), calls + [call]);
            s'.phase == t && s'.machine.current == Chosen(m, t).to
    ensures Run(Start(m, callbacks, observed), calls + [call]) == Step(Run(Start(m, callbacks, observed), calls), call)
  {
    hide Step, Heeds, Obeys, CallTo, Passable;
    var s0 := Start(m, callbacks, observed);
    var path :| Walk(m, g, path) && End(path) == p;
    calls := WalkIsRun(m, g, callbacks, observed, path);
    call := CallTo(t, g.allows(p, t));
    PassableIsTaken(m, g, Run(s0, calls), t);
    ObeysAppend(g, s0, calls, call);
    RunAppend(s0, calls, call);
  }

  // ----- Lockstep

  predicate Lockstep(s: State) {
    Code(s.phase) == s.machine.current
  }

  /** The embedder has registered its states and transitions and nothing has run yet. */
  predicate Fresh(m: SM.Machine) {
    SM.EndpointsInRange(m) && m.current == 0 && forall s :: s in m.states ==> !s.locked
  }

  /** If there is a transition under the name that leads to `target`, the first one has
      the state numbered like `target` as its target. */
  predicate Leads(m: SM.Machine, target: Phase)
    requires target != Init
  {
    Registered(m, target) ==> Chosen(m, target).to == Code(target)
  }

  /** Every step the guards let through has its target right. */
  ghost predicate LeadsAlong(m: SM.Machine, g: Guards) {
    forall p, t :: Reached(m, g, p) && Passable(m, g, p, t) ==> Leads(m, t)
  }

  lemma {:induction false} LockstepKept(
    m: SM.Machine, g: Guards, callbacks: set<Byte>, observed: bool, calls: seq<Call>)
    requires Fresh(m) && LeadsAlong(m, g) && Obeys(g, Start(m, callbacks, observed), calls)
    ensures Lockstep(Run(Start(m, callbacks, observed), calls))
    decreases |calls|
  {
    hide Step, Heeds, GoesThrough, Reached, Obeys, Target, Chosen, Registered;
    var s0 := Start(m, callbacks, observed);
    if calls != [] {
      var n := |calls| - 1;
      var before, last := calls[..n], calls[n];
      assert calls == before + [last];
      ObeysAppend(g, s0, before, last);
      LockstepKept(m, g, callbacks, observed, before);
      RunIsReached(m, g, callbacks, observed, before);
      RunAppend(s0, before, last);
      var s := Run(s0, before);
      StepEffect(s, last);
      if GoesThrough(s, last) {
        MoveIsPassable(m, g, s, last);
        assert Leads(m, Target(s.phase, last).value);
      }
    }
  }

  /** A registration with a wrong target that its guards let through is found out. */
  lemma MisregistrationBreaksLockstep(m: SM.Machine, g: Guards, callbacks: set<Byte>, observed: bool)
    returns (calls: seq<Call>)
    requires Fresh(m) && !LeadsAlong(m, g)
    ensures Obeys(g, Start(m, callbacks, observed), calls)
    ensures !Lockstep(Run(Start(m, callbacks, observed), calls))
  {
    hide Step, Obeys, Reached, TransitionTo, SM.FirstNamed;
    var p, t :| Reached(m, g, p) && Passable(m, g, p, t) && !Leads(m, t);
    var before, call := ReachedStepIsRun(m, g, callbacks, observed, p, t);
    calls := before + [call];
  }

  /** For every registration and all guards: the protocol state equals the machine's current
      state after every run with these guards if and only if each transition that they let
      through in a phase the session can get to has its target right. */
  lemma LockstepExactly(m: SM.Machine, g: Guards, callbacks: set<Byte>, observed: bool)
    requires Fresh(m)
    ensures (forall calls :: Obeys(g, Start(m, callbacks, observed), calls) ==>
               Lockstep(Run(Start(m, callbacks, observed), calls)))
       <==> LeadsAlong(m, g)
  {
    hide Obeys, LeadsAlong, Lockstep, Run;
    var s0 := Start(m, callbacks, observed);
    if LeadsAlong(m, g) {
      forall calls | Obeys(g, s0, calls)
        ensures Lockstep(Run(s0, calls))
      {
        LockstepKept(m, g, callbacks, observed, calls);
      }
    } else {
      var calls := MisregistrationBreaksLockstep(m, g, callbacks, observed);
    }
  }

  /** What the embedder has to get right if no guard can be relied on. */
  predicate Conforming(m: SM.Machine) {
    && Leads(m, Handshake) && Leads(m, Ready) && Leads(m, Error)
    && (Registered(m, Handshake) ==> Leads(m, Auth))
  }

  lemma HandshakeReached(m: SM.Machine, g: Guards)
    ensures Reached(m, g, Handshake) <==> Passable(m, g, Init, Handshake)
  {
    hide Registered, Chosen;
    if path :| Walk(m, g, path) && End(path) == Handshake {
      assert Heads(End(path[..|path| - 1]), Handshake);
    }
    if Passable(m, g, Init, Handshake) {
      InitReached(m, g);
      NextReached(m, g, Init, Handshake);
    }
  }

  /** A conforming registration keeps lockstep under all guards; if no guard ever refuses, or
      there is none, nothing less does. */
  lemma ConformingExactly(m: SM.Machine, g: Guards)
    ensures Conforming(m) ==> LeadsAlong(m, g)
    ensures (forall p, t :: Heads(p, t) && Registered(m, t) ==> Passable(m, g, p, t)) ==>
              (LeadsAlong(m, g) <==> Conforming(m))
  {
    hide Registered, Chosen, Reached;
    HandshakeReached(m, g);
    InitReached(m, g);
    if LeadsAlong(m, g) && (forall p, t :: Heads(p, t) && Registered(m, t) ==> Passable(m, g, p, t)) {
      assert Registered(m, Handshake) ==> Passable(m, g, Init, Handshake);
      assert Registered(m, Ready) ==> Passable(m, g, Init, Ready);
      assert Registered(m, Error) ==> Passable(m, g, Init, Error);
      assert Registered(m, Auth) ==> Passable(m, g, Handshake, Auth);
    }
  }

  // ----- Which registrations enforce the order of phases

  /** Every step the guards let through is one of the table of transitions. */
  ghost predicate OrderAlong(m: SM.Machine, g: Guards) {
    forall p, t :: Reached(m, g, p) && Passable(m, g, p, t) ==> p == t || CanTransition(p, t)
  }

  lemma OrderKept(m: SM.Machine, g: Guards, callbacks: set<Byte>, calls: seq<Call>, n: nat)
    requires SM.EndpointsInRange(m) && OrderAlong(m, g)
    requires Obeys(g, Start(m, callbacks, true), calls) && n < |calls|
    ensures InTurn(Run(Start(m, callbacks, true), calls[..n]), calls[n])
  {
    hide Run, Goes, MessageOut, Verdict, Passable, Reached;
    var s0 := Start(m, callbacks, true);
    ObeysPrefix(g, s0, calls, n);
    RunIsReached(m, g, callbacks, true, calls[..n]);
    var s := Run(s0, calls[..n]);
    if GoesThrough(s, calls[n]) {
      MoveIsPassable(m, g, s, calls[n]);
    }
  }

  lemma OrderBroken(m: SM.Machine, g: Guards, callbacks: set<Byte>) returns (calls: seq<Call>)
    requires Fresh(m) && !OrderAlong(m, g)
    ensures Obeys(g, Start(m, callbacks, true), calls)
    ensures !TableNotices(Run(Start(m, callbacks, true), calls))
  {
    hide Step, Obeys, Reached, Passable, CanTransition, InTurn, AllInTurn, TableNotices;
    var s0 := Start(m, callbacks, true);
    var p, t :| Reached(m, g, p) && Passable(m, g, p, t) && !(p == t || CanTransition(p, t));
    var before, call := ReachedStepIsRun(m, g, callbacks, true, p, t);
    calls := before + [call];
    TableFollowedExactly(Run(s0, before), call);
    AllInTurnAppend(s0, before, call);
    assert TableNotices(s0) by { NoNotices(m, callbacks); }
    PhaseOrderExactly(s0, calls);
  }

  lemma NoNotices(m: SM.Machine, callbacks: set<Byte>)
    ensures TableNotices(Start(m, callbacks, true))
  {
  }

  /** For every registration and all guards: all runs keep the order if and only if the
      guards let through, in the phases a session can get to, nothing but the table. */
  lemma OrderEnforcedExactly(m: SM.Machine, g: Guards, callbacks: set<Byte>)
    requires Fresh(m)
    ensures (forall calls :: Obeys(g, Start(m, callbacks, true), calls) ==>
               TableNotices(Run(Start(m, callbacks, true), calls)))
       <==> OrderAlong(m, g)
  {
    hide Obeys, OrderAlong, TableNotices, Run, InTurn;
    var s0 := Start(m, callbacks, true);
    if OrderAlong(m, g) {
      forall calls | Obeys(g, s0, calls)
        ensures TableNotices(Run(s0, calls))
      {
        forall n | 0 <= n < |calls|
          ensures InTurn(Run(s0, calls[..n]), calls[n])
        {
          OrderKept(m, g, callbacks, calls, n);
        }
        NoNotices(m, callbacks);
        PhaseOrderExactly(s0, calls);
      }
    } else {
      var calls := OrderBroken(m, g, callbacks);
    }
  }

  /** Guards that let sessions through to READY from AUTH and READY only, and to ERROR from
      READY and ERROR only. */
  function TurnGuards(steady: bool): (g: Guards) {
    Guards((p: Phase, t: Phase) => (t == Ready ==> p in {Auth, Ready}) && (t == Error ==> p in {Ready, Error}), steady)
  }

  /** Such guards enforce the order exactly if the two transitions have them, or are missing. */
  lemma TurnGuardsEnforceOrder(m: SM.Machine, steady: bool)
    ensures OrderAlong(m, TurnGuards(steady))
       <==> && (Registered(m, Ready) ==> Chosen(m, Ready).guarded)
            && (Registered(m, Error) ==> Chosen(m, Error).guarded)
  {
    hide Registered, Chosen, Reached;
    var g := TurnGuards(steady);
    InitReached(m, g);
    if OrderAlong(m, g) {
      assert !Passable(m, g, Init, Ready) && !Passable(m, g, Init, Error);
    }
  }

  /** And they do not shut sessions out: with everything registered READY is reached. */
  lemma TurnGuardsLetThrough(m: SM.Machine, steady: bool)
    requires Registered(m, Handshake) && Registered(m, Auth) && Registered(m, Ready) && Registered(m, Error)
    ensures forall p :: Reached(m, TurnGuards(steady), p) <==> p != Closed
  {
    hide Registered, Chosen, Reached;
    var g := TurnGuards(steady);
    InitReached(m, g);
    NextReached(m, g, Init, Handshake);
    NextReached(m, g, Handshake, Auth);
    NextReached(m, g, Auth, Ready);
    NextReached(m, g, Ready, Error);
    ClosedNotReached(m, g);
  }

  lemma ClosedNotReached(m: SM.Machine, g: Guards)
    ensures !Reached(m, g, Closed)
  {
    hide Registered, Chosen;
    if path :| Walk(m, g, path) && End(path) == Closed {
      assert false;
    }
  }

  // ----- Observers see a connected path

  /** The notices form a path from the initial phase to the current one. */
  ghost predicate NoticesConnected(s: State) {
    && (forall i :: 0 <= i < |s.notices| ==> s.notices[i].from != s.notices[i].to)
    && (forall i :: 0 <= i < |s.notices| - 1 ==> s.notices[i].to == s.notices[i + 1].from)
    && (s.notices != [] ==> s.notices[0].from == Init)
    && s.phase == if s.notices == [] then Init else s.notices[|s.notices| - 1].to
  }

  lemma StepKeepsNotices(s: State, call: Call)
    requires SM.EndpointsInRange(s.machine) && NoticesConnected(s) && s.observed
    ensures NoticesConnected(Step(s, call)) && Step(s, call).observed
  {
    hide Step;
    NoticeOfStep(s, call);
  }

  /** In every run, over any registration, what the observer was told is exactly the path the
      session took. */
  lemma {:induction false} ObserverSeesPath(s: State, calls: seq<Call>)
    requires SM.EndpointsInRange(s.machine) && NoticesConnected(s) && s.observed
    ensures NoticesConnected(Run(s, calls))
    decreases |calls|
  {
    if calls != [] {
      StepKeepsNotices(s, calls[0]);
      ObserverSeesPath(Step(s, calls[0]), calls[1..]);
    }
  }

  // ----- Sequence numbers

  /** The message that a call made in phase `p` tries to send, if it tries. */
  function Message(p: Phase, call: Call): (payload: Option<seq<Byte>>) {
    match call
    case Send(_, payload, _, _) => if payload == [] then None else Some(payload)
    case Update(pad, _, _, _) => if p == Init then Some(HandshakePayload(pad)) else None
    case StartHandshake(pad, _, _, _) => if p == Init then Some(HandshakePayload(pad)) else None
    case Authenticate(credentials, _, _, _) => if credentials == [] then None else Some(credentials)
    case _ => None
  }

  /** Every attempt at a message uses up a number, whether it fits or not and whether or not
      the network takes it; what fits goes out under the number used up. */
  lemma StepNumbers(s: State, call: Call)
    requires SM.EndpointsInRange(s.machine)
    ensures var s' := Step(s, call);
            match Message(s.phase, call)
            case None => s'.nextSequence == s.nextSequence && s'.wire == s.wire
            case Some(payload) =>
              && s'.nextSequence == (s.nextSequence + 1) % WORD
              && if 16 + |payload| <= 4096
                 then && |s'.wire| == |s.wire| + 1 && s'.wire[..|s.wire|] == s.wire
                      && |s'.wire[|s.wire|]| == 16 + |payload|
                      && WordAt(s'.wire[|s.wire|], 4) == s.nextSequence && s'.wire[|s.wire|][16..] == payload
                 else s'.wire == s.wire
  {
    hide SM.Executed, SM.SetLock, TransitionTo, CFrame, CAccepts, HandshakePayload, DeliveryOf, WordAt;
    var message := Message(s.phase, call);
    if message.Some? && CanSend(message.value) {
      var payload := message.value;
      forall kind: Byte, flags: Half
        ensures var frame := CFrame(kind, payload, flags, s.nextSequence);
                |frame| == 16 + |payload| && WordAt(frame, 4) == s.nextSequence && frame[16..] == payload
      {
        NumberOfFrame(kind, payload, flags, s.nextSequence);
      }
    }
    LengthOfHandshake(call);
  }

  lemma LengthOfHandshake(call: Call)
    ensures call.Update? || call.StartHandshake? ==> |HandshakePayload(call.pad)| == 8
  {
  }

  lemma NumberOfFrame(kind: Byte, payload: seq<Byte>, flags: Half, sequence: Word)
    requires CanSend(payload)
    ensures var frame := CFrame(kind, payload, flags, sequence);
            |frame| == 16 + |payload| && WordAt(frame, 4) == sequence && frame[16..] == payload
  {
    HeaderRoundTrip(Header(VERSION, kind, flags, sequence, |payload|, FrameChecksum(payload)), payload);
  }

  /** How many messages a run tries to send. */
  function Messages(s: State, calls: seq<Call>): (n: nat)
    requires SM.EndpointsInRange(s.machine)
    decreases |calls|
  {
    if calls == [] then 0
    else (if Message(s.phase, calls[0]).Some? then 1 else 0) + Messages(Step(s, calls[0]), calls[1..])
  }

  lemma AddTwice(a: Word, n: nat, m: nat)
    ensures ((a + n) % WORD + m) % WORD == (a + (n + m)) % WORD
  {
  }

  /** Over every run of a new session the counter is one more than the messages tried. */
  lemma {:induction false} RunNumbers(s: State, calls: seq<Call>)
    requires SM.EndpointsInRange(s.machine)
    ensures Run(s, calls).nextSequence == (s.nextSequence + Messages(s, calls)) % WORD
    decreases |calls|
  {
    hide Step, Message;
    if calls != [] {
      StepNumbers(s, calls[0]);
      RunNumbers(Step(s, calls[0]), calls[1..]);
      var here := if Message(s.phase, calls[0]).Some? then 1 else 0;
      AddTwice(s.nextSequence, here, Messages(Step(s, calls[0]), calls[1..]));
    }
  }

  lemma NewSessionNumbers(m: SM.Machine, callbacks: set<Byte>, observed: bool, calls: seq<Call>)
    requires SM.EndpointsInRange(m)
    ensures var s := Start(m, callbacks, observed);
            Run(s, calls).nextSequence == (1 + Messages(s, calls)) % WORD
  {
    RunNumbers(Start(m, callbacks, observed), calls);
  }

  // ----- Delivery

  /** A command framed by Node is delivered unchanged; the session does not move. */
  lemma NodeCommandIsDelivered(s: State, payload: seq<Byte>, flags: int, sequence: int)
    requires NodeCanCreate(VERSION, COMMAND, payload, flags, sequence) && payload != []
    requires COMMAND in s.callbacks
    ensures Processed(s, NodeFrame(VERSION, COMMAND, payload, flags, sequence))
         == (s.(delivered := s.delivered + [CommandCalled(payload)]), true)
  {
    NodeFrameReachesC(VERSION, COMMAND, payload, flags, sequence);
  }

  /** What a session makes of every frame that another one can send. */
  lemma FrameIsDelivered(r: State, kind: Byte, payload: seq<Byte>, flags: Half, sequence: Word)
    requires CanSend(payload)
    ensures var (r', ok) := Processed(r, CFrame(kind, payload, flags, sequence));
            && (ok <==> kind == 1 || kind == 2 || kind == 3 || kind == 5 || kind == 6)
            && r' == r.(delivered := r.delivered +
                          if kind !in r.callbacks then []
                          else if kind == 1 then [HandshakeCalled]
                          else if kind == 2 then [AuthRequested(TextAt(payload))]
                          else if kind == 3 then [CommandCalled(payload)]
                          else if kind == 5 then [ErrorCalled(TextAt(payload))]
                          else [])
  {
    CFrameReachesC(kind, payload, flags, sequence);
    KindOfFrame(kind, payload, flags, sequence);
    hide CFrame, CAccepts, TextAt;
    assert r.delivered + [] == r.delivered;
  }

  lemma KindOfFrame(kind: Byte, payload: seq<Byte>, flags: Half, sequence: Word)
    requires CanSend(payload)
    ensures |CFrame(kind, payload, flags, sequence)| >= 2 && CFrame(kind, payload, flags, sequence)[1] == kind
  {
  }

  /** Credentials and errors arrive as the bytes before their first zero, and exactly those
      with a zero arrive at all; the sender is not asked for one. */
  lemma {:induction false} TextArrives(payload: seq<Byte>, text: SM.CString)
    ensures TextAt(payload) == Some(text) <==> text + [0] <= payload
    decreases |payload|
  {
    if payload != [] && payload[0] != 0 {
      assert payload == [payload[0]] + payload[1..];
      if text == [] {
        assert !(text + [0] <= payload);
      } else {
        assert text == [text[0]] + text[1..];
        assert (text + [0])[1..] == text[1..] + [0];
        TextArrives(payload[1..], text[1..]);
      }
    }
  }

  lemma {:induction false} TextUnterminated(payload: seq<Byte>)
    ensures TextAt(payload) == None <==> 0 !in payload
    decreases |payload|
  {
    if payload != [] {
      assert payload == [payload[0]] + payload[1..];
      TextUnterminated(payload[1..]);
    }
  }

  /** What one session sends to authenticate, a second one hands to its embedder up to the
      first zero, which neither side adds or looks for: `text` arrives exactly if it is sent
      with a zero behind it. */
  lemma CredentialsArrive(s: State, r: State, credentials: seq<Byte>, text: SM.CString)
    requires CanSend(credentials) && AUTH in r.callbacks
    ensures var s' := Sent(s, AUTH, credentials, ENCRYPTED_RELIABLE, true).0;
            && |s'.wire| == |s.wire| + 1
            && var r' := Processed(r, s'.wire[|s.wire|]).0;
               && r' == r.(delivered := r.delivered + [AuthRequested(TextAt(credentials))])
               && (TextAt(credentials) == Some(text) <==> text + [0] <= credentials)
  {
    CFrameReachesC(AUTH, credentials, ENCRYPTED_RELIABLE, s.nextSequence);
    TextArrives(credentials, text);
  }

  /** One corrupted payload byte of a sent frame and nothing is delivered. */
  lemma CorruptedPayloadIsDropped(
    s: State, kind: Byte, payload: seq<Byte>, flags: Half, sequence: Word, p: nat, b: Byte)
    requires CanSend(payload) && p < |payload| && b != payload[p]
    ensures var frame := CFrame(kind, payload, flags, sequence);
            HEADER_SIZE + p < |frame| && Processed(s, frame[HEADER_SIZE + p := b]) == (s, false)
  {
    var frame := CFrame(kind, payload, flags, sequence);
    var h := Header(VERSION, kind, flags, sequence, |payload|, FrameChecksum(payload));
    HeaderRoundTrip(h, payload);
    assert frame[HEADER_SIZE..] == payload;
    assert frame[HEADER_SIZE + p] == payload[p];
    PayloadChanges(frame, HEADER_SIZE + p, b);
  }

  // ----- The mutable session

  class ProtocolSession {
    const machine: SM.PolycallStateMachine
    const callbacks: set<Byte>
    const observed: bool
    var phase: Phase
    var nextSequence: Word
    var wire: seq<seq<Byte>>
    var delivered: seq<Delivery>
    var notices: seq<Notice>

    ghost function Model(): (s: State)
      reads this, machine
    {
      State(phase, nextSequence, machine.Model(), callbacks, observed, wire, delivered, notices)
    }

    ghost predicate Valid()
      reads this, machine
    {
      machine.Valid()
    }

    constructor (machine: SM.PolycallStateMachine, callbacks: set<Byte>, observed: bool)
      requires machine.Valid()
      ensures Valid() && this.machine == machine && Model() == Start(machine.Model(), callbacks, observed)
    {
      this.machine, this.callbacks, this.observed := machine, callbacks, observed;
      phase, nextSequence := Init, 1;
      wire, delivered, notices := [], [], [];
    }

    method Send(kind: Byte, payload: seq<Byte>, flags: Half, network: bool) returns (ok: bool)
      requires Valid()
      modifies this
      ensures Valid()
      ensures (Model(), ok) == Sent(old(Model()), kind, payload, flags, network)
    {
      if |payload| == 0 {
        return false;
      }
      var sequence := nextSequence;
      nextSequence := SM.Increment(nextSequence);
      var checksum := CalculateChecksum(payload);
      if HEADER_SIZE + |payload| > BUFFER_SIZE {
        return false;
      }
      var header := Header(VERSION, kind, flags, sequence, |payload|, checksum);
      wire := wire + [Encode(header) + payload];
      return network;
    }

    method Transition(target: Phase, guardAllows: bool, now: Long) returns (ok: bool)
      requires Valid()
      modifies this, machine
      ensures Valid()
      ensures (Model(), ok) == Moved(old(Model()), target, guardAllows, now)
    {
      if target == Init {
        return false;
      }
      var before := phase;
      var status, _ := machine.Execute(TransitionTo(target), guardAllows, now);
      if status != SM.Success {
        return false;
      }
      phase := target;
      if phase != before && observed {
        notices := notices + [Notice(before, target)];
      }
      return true;
    }

    method Process(data: seq<Byte>) returns (ok: bool)
      requires Valid()
      modifies this
      ensures Valid()
      ensures (Model(), ok) == Processed(old(Model()), data)
    {
      if |data| < HEADER_SIZE {
        return false;
      }
      var header := Decode(data);
      var payload := data[HEADER_SIZE..];
      if !ValidMessageHeader(header) || |payload| == 0 {
        return false;
      }
      var calculated := CalculateChecksum(payload);
      if calculated != header.checksum {
        return false;
      }
      if header.kind == RESPONSE {
        return false;
      }
      if header.kind in callbacks && header.kind != HEARTBEAT {
        delivered := delivered + [DeliveryOf(header.kind, payload)];
      }
      return true;
    }

    method DoStartHandshake(pad: Byte, network: bool, guardAllows: bool, now: Long) returns (ok: bool)
      requires Valid()
      modifies this, machine
      ensures Valid()
      ensures (Model(), ok) == HandshakeStarted(old(Model()), pad, network, guardAllows, now)
    {
      if phase != Init {
        return false;
      }
      var sent := Send(HANDSHAKE, HandshakePayload(pad), RELIABLE, network);
      if !sent {
        return false;
      }
      ok := Transition(Handshake, guardAllows, now);
    }

    method DoCompleteHandshake(guardAllows: bool, now: Long) returns (ok: bool)
      requires Valid()
      modifies this, machine
      ensures Valid()
      ensures (Model(), ok) == HandshakeCompleted(old(Model()), guardAllows, now)
    {
      if phase != Handshake {
        return false;
      }
      ok := Transition(Auth, guardAllows, now);
    }

    method DoAuthenticate(credentials: seq<Byte>, network: bool, guardAllows: bool, now: Long) returns (ok: bool)
      requires Valid()
      modifies this, machine
      ensures Valid()
      ensures (Model(), ok) == Authenticated(old(Model()), credentials, network, guardAllows, now)
    {
      if |credentials| == 0 {
        return false;
      }
      var sent := Send(AUTH, credentials, ENCRYPTED_RELIABLE, network);
      if !sent {
        return false;
      }
      ok := Transition(Ready, guardAllows, now);
    }

    method DoSetError(guardAllows: bool, now: Long)
      requires Valid()
      modifies this, machine
      ensures Valid()
      ensures Model() == Moved(old(Model()), Error, guardAllows, now).0
    {
      var _ := Transition(Error, guardAllows, now);
    }

    method DoUpdate(pad: Byte, network: bool, guardAllows: bool, now: Long)
      requires Valid()
      modifies this, machine
      ensures Valid()
      ensures Model() == Updated(old(Model()), pad, network, guardAllows, now)
    {
      if phase == Init && CanTransition(phase, Handshake) {
        var _ := DoStartHandshake(pad, network, guardAllows, now);
      } else if phase == Handshake && CanTransition(phase, Auth) {
        var _ := Transition(Auth, guardAllows, now);
      } else if phase == Auth && CanTransition(phase, Ready) {
        var _ := Transition(Ready, guardAllows, now);
      }
    }
  }
}
