/** Request bookkeeping of the Node binding's ProtocolHandler: sequence numbers, the
    pending-message table, promises and their timers. */
module NodeRequests {
  import opened Bits
  import opened Bytes
  import opened Checksum
  import opened Frames
  import opened Options

  const MAGIC: Word := 0x50_4C43
  const RELIABLE := 8

  datatype Reason = RemoteError(payload: seq<Byte>) | TimedOut

  /** The promise returned by sendMessage; settling it a second time has no effect. */
  datatype Outcome = Waiting | Resolved(payload: seq<Byte>) | Rejected(reason: Reason)

  /** A sent request: its sequence number, its promise, and whether its timer can still
      fire. A response does not cancel the timer. */
  datatype Request = Request(sequence: Word, outcome: Outcome, timer: bool)

  /** `pending` leads from sequence numbers to positions in `requests`; `listening` is whether
      the `error` event has a listener, without which emitting it throws. */
  datatype Handler = Handler(
    version: int, listening: bool, sequence: nat, pending: map<Word, nat>, requests: seq<Request>,
    handshakeComplete: bool, authenticated: bool)

  /** Version 0 counts as none given, for which 1 is taken. */
  function Initial(version: int, listening: bool): (h: Handler) {
    Handler(if version == 0 then 1 else version, listening, 1, map[], [], false, false)
  }

  // ----- The operations

  /** createMessage. The counter moves once version, type and flags are written, also when a
      later write throws. */
  function MessageCreated(h: Handler, kind: int, payload: seq<Byte>, flags: int): (r: (Handler, Option<seq<Byte>>)) {
    if !(0 <= h.version < 0x100 && 0 <= kind < 0x100 && 0 <= flags < 0x1_0000) then (h, None)
    else
      (h.(sequence := h.sequence + 1),
       if NodeCanCreate(h.version, kind, payload, flags, h.sequence)
       then Some(NodeFrame(h.version, kind, payload, flags, h.sequence)) else None)
  }

  function MessageSent(h: Handler, kind: int, payload: seq<Byte>, flags: int): (r: (Handler, Option<seq<Byte>>)) {
    var (h', message) := MessageCreated(h, kind, payload, flags);
    if message.None? then (h', None)
    else
      (h'.(pending := h.pending[h.sequence := |h.requests|],
           requests := h.requests + [Request(h.sequence, Waiting, true)]), message)
  }

  function Settle(r: Request, outcome: Outcome): (r': Request) {
    if r.outcome == Waiting then r.(outcome := outcome) else r
  }

  /** Every table entry names an existing request. */
  predicate Shaped(h: Handler) {
    forall q :: q in h.pending ==> h.pending[q] < |h.requests|
  }

  /** handleResponse and handleError. */
  function Answered(h: Handler, sequence: Word, outcome: Outcome): (h': Handler)
    requires Shaped(h)
    ensures Shaped(h')
  {
    if sequence !in h.pending then h
    else
      var k := h.pending[sequence];
      h.(pending := h.pending - {sequence}, requests := h.requests[k := Settle(h.requests[k], outcome)])
  }

  /** handleMessage, after the checks: the new handler and whether the call threw. */
  function Handled(h: Handler, header: Header, payload: seq<Byte>): (r: (Handler, bool))
    requires Shaped(h)
    ensures Shaped(r.0)
  {
    if header.kind == HANDSHAKE then
      if |payload| < 4 || WordAt(payload, 0) != MAGIC then (h, true)
      else
        var (h', reply) := MessageCreated(h.(handshakeComplete := true), HANDSHAKE, [], RELIABLE);
        (h', reply.None?)
    else if header.kind == AUTH then (h.(authenticated := true), false)
    else if header.kind == RESPONSE then (Answered(h, header.sequence, Resolved(payload)), false)
    else if header.kind == ERROR then
      (Answered(h, header.sequence, Rejected(RemoteError(payload))), !h.listening)
    else (h, header.kind != COMMAND && header.kind != HEARTBEAT)
  }

  /** processMessage. */
  function Received(h: Handler, data: seq<Byte>): (r: (Handler, bool))
    requires Shaped(h)
    ensures Shaped(r.0)
  {
    match NodeCheck(h.version, data)
    case Refused(_) => (h, true)
    case Passed(header, payload) => Handled(h, header, payload)
  }

  /** The timeout callback of request `k`: it deletes the table entry under the request's
      sequence number, whoever it belongs to, and rejects its own promise. */
  function Fired(h: Handler, k: nat): (h': Handler)
    requires Shaped(h)
    ensures Shaped(h')
  {
    if k >= |h.requests| || !h.requests[k].timer then h
    else
      var r := h.requests[k];
      h.(pending := h.pending - {r.sequence},
         requests := h.requests[k := Settle(r, Rejected(TimedOut)).(timer := false)])
  }

  /** reset: timers keep running. */
  function Forgotten(h: Handler): (h': Handler)
    ensures Shaped(h')
  {
    h.(sequence := 1, pending := map[], handshakeComplete := false, authenticated := false)
  }

  // ----- Runs

  datatype Event =
    | Send(kind: int, payload: seq<Byte>, flags: int)
    | Create(kind: int, payload: seq<Byte>, flags: int)
    | Receive(data: seq<Byte>)
    | Fire(k: nat)
    | Reset

  function Step(h: Handler, e: Event): (h': Handler)
    requires Shaped(h)
    ensures Shaped(h')
  {
    match e
    case Send(kind, payload, flags) => MessageSent(h, kind, payload, flags).0
    case Create(kind, payload, flags) => MessageCreated(h, kind, payload, flags).0
    case Receive(data) => Received(h, data).0
    case Fire(k) => Fired(h, k)
    case Reset => Forgotten(h)
  }

  function Run(h: Handler, events: seq<Event>): (h': Handler)
    requires Shaped(h)
    ensures Shaped(h')
    decreases |events|
  {
    if events == [] then h else Run(Step(h, events[0]), events[1..])
  }

  // ----- Conservation

  /** A request is waiting exactly when it is in the table, under its own number. */
  ghost predicate Conserved(h: Handler) {
    && (forall q :: q in h.pending ==> h.pending[q] < |h.requests| && h.requests[h.pending[q]].sequence == q)
    && (forall k :: 0 <= k < |h.requests| ==>
          (h.requests[k].outcome == Waiting
           <==> h.requests[k].sequence in h.pending && h.pending[h.requests[k].sequence] == k))
  }

  /** Live timers have distinct numbers below the counter, and every waiting request has one. */
  ghost predicate TimersOk(h: Handler) {
    && h.sequence >= 1
    && (h.requests != [] ==> 0 <= h.version < 0x100)
    && (forall k :: 0 <= k < |h.requests| ==>
          && 1 <= h.requests[k].sequence
          && (h.requests[k].outcome == Waiting ==> h.requests[k].timer)
          && (h.requests[k].timer ==> h.requests[k].sequence < h.sequence))
    && (forall j, k :: 0 <= j < k < |h.requests| && h.requests[j].timer && h.requests[k].timer ==>
          h.requests[j].sequence != h.requests[k].sequence)
  }

  ghost predicate Inv(h: Handler) {
    Conserved(h) && TimersOk(h)
  }

  /** Numbers grow with every request and are below the counter: none is used twice. */
  ghost predicate NeverReused(h: Handler) {
    && (forall k :: 0 <= k < |h.requests| ==> h.requests[k].sequence < h.sequence)
    && (forall j, k :: 0 <= j < k < |h.requests| ==> h.requests[j].sequence < h.requests[k].sequence)
  }

  lemma PendingBelowCounter(h: Handler)
    requires Inv(h)
    ensures forall q :: q in h.pending ==> q < h.sequence && h.requests[h.pending[q]].timer
  {
    forall q | q in h.pending
      ensures q < h.sequence && h.requests[h.pending[q]].timer
    {
      assert h.requests[h.pending[q]].outcome == Waiting;
    }
  }

  lemma EnqueueKeepsConserved(h: Handler, h': Handler)
    requires Inv(h) && h.sequence < WORD
    requires h'.pending == h.pending[h.sequence := |h.requests|]
    requires h'.requests == h.requests + [Request(h.sequence, Waiting, true)]
    ensures Conserved(h')
  {
    PendingBelowCounter(h);
    forall k | 0 <= k < |h'.requests|
      ensures h'.requests[k].outcome == Waiting
         <==> h'.requests[k].sequence in h'.pending && h'.pending[h'.requests[k].sequence] == k
    {
      if k < |h.requests| {
        assert h'.requests[k] == h.requests[k];
        assert h.requests[k].timer ==> h.requests[k].sequence < h.sequence;
      }
    }
  }

  lemma EnqueueKeepsTimers(h: Handler, h': Handler)
    requires Inv(h) && h.sequence < WORD
    requires h'.sequence == h.sequence + 1 && h'.version == h.version && 0 <= h.version < 0x100
    requires h'.requests == h.requests + [Request(h.sequence, Waiting, true)]
    ensures TimersOk(h')
    ensures NeverReused(h) ==> NeverReused(h')
  {
  }

  lemma SendKeepsInv(h: Handler, kind: int, payload: seq<Byte>, flags: int)
    requires Inv(h)
    ensures Inv(MessageSent(h, kind, payload, flags).0)
    ensures NeverReused(h) ==> NeverReused(MessageSent(h, kind, payload, flags).0)
  {
    var (h', message) := MessageSent(h, kind, payload, flags);
    if message.Some? {
      EnqueueKeepsConserved(h, h');
      EnqueueKeepsTimers(h, h');
    }
  }

  lemma AnswerKeepsInv(h: Handler, sequence: Word, outcome: Outcome)
    requires Inv(h) && outcome != Waiting
    ensures Inv(Answered(h, sequence, outcome))
    ensures NeverReused(h) ==> NeverReused(Answered(h, sequence, outcome))
  {
    if sequence in h.pending {
      var h' := Answered(h, sequence, outcome);
      var k := h.pending[sequence];
      forall j | 0 <= j < |h.requests|
        ensures h'.requests[j].outcome == Waiting
           <==> h'.requests[j].sequence in h'.pending && h'.pending[h'.requests[j].sequence] == j
      {
        assert h.requests[j].outcome == Waiting
          <==> h.requests[j].sequence in h.pending && h.pending[h.requests[j].sequence] == j;
      }
    }
  }

  lemma FlagsKeepInv(h: Handler, h': Handler)
    requires Inv(h) && h'.sequence >= h.sequence && h'.version == h.version
    requires h'.pending == h.pending && h'.requests == h.requests
    ensures Inv(h')
    ensures NeverReused(h) ==> NeverReused(h')
  {
  }

  lemma InvIsShaped(h: Handler)
    requires Inv(h)
    ensures Shaped(h)
  {
  }

  lemma HandlingKeepsInv(h: Handler, header: Header, payload: seq<Byte>)
    requires Inv(h)
    ensures Inv(Handled(h, header, payload).0)
    ensures NeverReused(h) ==> NeverReused(Handled(h, header, payload).0)
  {
    hide Conserved, TimersOk, NeverReused, Answered, WordAt, NodeFrame;
    InvIsShaped(h);
    if header.kind == RESPONSE {
      AnswerKeepsInv(h, header.sequence, Resolved(payload));
    } else if header.kind == ERROR {
      AnswerKeepsInv(h, header.sequence, Rejected(RemoteError(payload)));
    } else {
      FlagsKeepInv(h, Handled(h, header, payload).0);
    }
  }

  lemma ReceiveKeepsInv(h: Handler, data: seq<Byte>)
    requires Inv(h)
    ensures Inv(Received(h, data).0)
    ensures NeverReused(h) ==> NeverReused(Received(h, data).0)
  {
    match NodeCheck(h.version, data)
    case Refused(_) =>
    case Passed(header, payload) => HandlingKeepsInv(h, header, payload);
  }

  lemma FireKeepsInv(h: Handler, k: nat)
    requires Inv(h)
    ensures Inv(Fired(h, k))
    ensures NeverReused(h) ==> NeverReused(Fired(h, k))
  {
    if k < |h.requests| && h.requests[k].timer {
      var h' := Fired(h, k);
      forall j | 0 <= j < |h.requests|
        ensures h'.requests[j].outcome == Waiting
           <==> h'.requests[j].sequence in h'.pending && h'.pending[h'.requests[j].sequence] == j
      {
        assert h.requests[j].outcome == Waiting
          <==> h.requests[j].sequence in h.pending && h.pending[h.requests[j].sequence] == j;
      }
      forall q | q in h'.pending
        ensures h'.pending[q] < |h'.requests| && h'.requests[h'.pending[q]].sequence == q
      {
        assert q in h.pending;
      }
    }
  }

  lemma StepKeepsInv(h: Handler, e: Event)
    requires Inv(h) && e != Reset
    ensures Inv(Step(h, e))
    ensures NeverReused(h) ==> NeverReused(Step(h, e))
  {
    match e
    case Send(kind, payload, flags) => SendKeepsInv(h, kind, payload, flags);
    case Create(kind, payload, flags) =>
    case Receive(data) => ReceiveKeepsInv(h, data);
    case Fire(k) => FireKeepsInv(h, k);
    case Reset =>
  }

  lemma {:induction false} RunKeepsInv(h: Handler, events: seq<Event>)
    requires Inv(h) && Reset !in events
    ensures Inv(Run(h, events))
    ensures NeverReused(h) ==> NeverReused(Run(h, events))
    decreases |events|
  {
    if events != [] {
      StepKeepsInv(h, events[0]);
      RunKeepsInv(Step(h, events[0]), events[1..]);
    }
  }

  /** In every run without reset, numbers are never reused and each request is in exactly one
      of pending, resolved and rejected. */
  lemma RequestsAreConserved(version: int, listening: bool, events: seq<Event>)
    requires Reset !in events
    ensures Conserved(Run(Initial(version, listening), events)) && NeverReused(Run(Initial(version, listening), events))
  {
    RunKeepsInv(Initial(version, listening), events);
  }

  ghost predicate NoLiveTimer(h: Handler) {
    forall k :: 0 <= k < |h.requests| ==> !h.requests[k].timer
  }

  ghost predicate AllSettled(h: Handler) {
    h.pending == map[] && forall k :: 0 <= k < |h.requests| ==> h.requests[k].outcome != Waiting
  }

  lemma QuietIsSettled(h: Handler)
    requires Inv(h) && NoLiveTimer(h)
    ensures AllSettled(h)
  {
    PendingBelowCounter(h);
    assert h.pending.Keys == {};
  }

  /** Once every timer has fired, nothing is left waiting and the table is empty. */
  lemma EveryRequestSettles(version: int, listening: bool, events: seq<Event>)
    requires Reset !in events && NoLiveTimer(Run(Initial(version, listening), events))
    ensures AllSettled(Run(Initial(version, listening), events))
  {
    RunKeepsInv(Initial(version, listening), events);
    QuietIsSettled(Run(Initial(version, listening), events));
  }

  lemma StepSettlesOnce(h: Handler, e: Event, k: nat)
    requires Shaped(h) && k < |h.requests|
    ensures var h' := Step(h, e);
            && k < |h'.requests|
            && h'.requests[k].sequence == h.requests[k].sequence
            && (h.requests[k].outcome != Waiting ==> h'.requests[k].outcome == h.requests[k].outcome)
  {
    hide NodeCheck, NodeFrame, WordAt;
  }

  /** A settled promise never changes again, and no request changes its number, in any run
      whatsoever. */
  lemma {:induction false} SettlesOnce(h: Handler, events: seq<Event>, k: nat)
    requires Shaped(h) && k < |h.requests|
    ensures var h' := Run(h, events);
            && k < |h'.requests|
            && h'.requests[k].sequence == h.requests[k].sequence
            && (h.requests[k].outcome != Waiting ==> h'.requests[k].outcome == h.requests[k].outcome)
    decreases |events|
  {
    hide Step;
    if events != [] {
      StepSettlesOnce(h, events[0], k);
      SettlesOnce(Step(h, events[0]), events[1..], k);
    }
  }

  /** An incoming message settles exactly the waiting request that carries its number, with
      the outcome its type stands for, and touches no other. */
  lemma AnswerReachesItsRequest(h: Handler, data: seq<Byte>, k: nat)
    requires Inv(h) && k < |h.requests|
    ensures |Received(h, data).0.requests| == |h.requests|
    ensures
      var check := NodeCheck(h.version, data);
      var r, r' := h.requests[k], Received(h, data).0.requests[k];
      if r.outcome == Waiting && check.Passed? && check.header.sequence == r.sequence
         && check.header.kind in {RESPONSE, ERROR}
      then r' == r.(outcome := if check.header.kind == RESPONSE then Resolved(check.payload)
                               else Rejected(RemoteError(check.payload)))
      else r' == r
  {
    assert h.requests[k].outcome == Waiting
      <==> h.requests[k].sequence in h.pending && h.pending[h.requests[k].sequence] == k;
  }

  /** A message that fails a check throws and changes nothing. */
  lemma RefusedChangesNothing(h: Handler, data: seq<Byte>)
    requires Shaped(h) && NodeCheck(h.version, data).Refused?
    ensures Received(h, data) == (h, true)
  {
  }

  // ----- Where outcomes come from

  /** What an event makes of request `k`, waiting under its number: a response or an error with
      this number that passes the checks, or its own timer. */
  function Brings(version: int, number: Word, k: nat, e: Event): (outcome: Option<Outcome>)
    ensures outcome != Some(Waiting)
  {
    match e
    case Receive(data) =>
      (match NodeCheck(version, data)
       case Refused(_) => None
       case Passed(header, payload) =>
         if header.sequence != number then None
         else if header.kind == RESPONSE then Some(Resolved(payload))
         else if header.kind == ERROR then Some(Rejected(RemoteError(payload)))
         else None)
    case Fire(j) => if j == k then Some(Rejected(TimedOut)) else None
    case _ => None
  }

  /** The first thing that the events bring, if any does. */
  function FirstBrought(version: int, number: Word, k: nat, events: seq<Event>): (outcome: Outcome)
    decreases |events|
  {
    if events == [] then Waiting
    else
      match Brings(version, number, k, events[0])
      case Some(outcome) => outcome
      case None => FirstBrought(version, number, k, events[1..])
  }

  /** A timer that finds its request waiting rejects it as timed out and removes it from the
      table; one that does not changes nothing but itself. No other request is touched. */
  lemma FiredEffect(h: Handler, k: nat)
    requires Inv(h) && k < |h.requests| && h.requests[k].timer
    ensures var r, h' := h.requests[k], Fired(h, k);
            && |h'.requests| == |h.requests|
            && h'.requests[k]
               == Request(r.sequence, if r.outcome == Waiting then Rejected(TimedOut) else r.outcome, false)
            && (forall j :: 0 <= j < |h.requests| && j != k ==> h'.requests[j] == h.requests[j])
            && h'.pending == (if r.outcome == Waiting then h.pending - {r.sequence} else h.pending)
  {
    var r := h.requests[k];
    PendingBelowCounter(h);
    assert r.sequence in h.pending ==> h.pending[r.sequence] == k;
    assert r.sequence !in h.pending ==> h.pending - {r.sequence} == h.pending;
  }

  lemma StepBrings(h: Handler, e: Event, k: nat)
    requires Inv(h) && k < |h.requests| && e != Reset
    ensures var r, h' := h.requests[k], Step(h, e);
            && k < |h'.requests| && h'.version == h.version && h'.requests[k].sequence == r.sequence
            && h'.requests[k].outcome
               == if r.outcome != Waiting then r.outcome
                  else match Brings(h.version, r.sequence, k, e)
                       case Some(outcome) => outcome
                       case None => Waiting
  {
    StepKeepsVersion(h, e);
    StepSettlesOnce(h, e, k);
    if e.Receive? {
      AnswerReachesItsRequest(h, e.data, k);
    } else if e.Fire? {
      FireBrings(h, e.k, k);
    }
    hide Received, Fired, MessageSent, MessageCreated, NodeCheck, Inv;
    if e.Send? || e.Create? { QuietStep(h, e, k); }
  }

  lemma StepKeepsVersion(h: Handler, e: Event)
    requires Shaped(h)
    ensures Step(h, e).version == h.version && Step(h, e).listening == h.listening
  {
    hide NodeCheck, NodeFrame, WordAt, NodeCanCreate;
  }

  lemma QuietStep(h: Handler, e: Event, k: nat)
    requires Shaped(h) && k < |h.requests| && (e.Send? || e.Create?)
    ensures k < |Step(h, e).requests| && Step(h, e).requests[k] == h.requests[k]
  {
    hide NodeFrame, NodeCanCreate;
  }

  lemma FireBrings(h: Handler, j: nat, k: nat)
    requires Inv(h) && k < |h.requests|
    ensures var r := h.requests[k];
            && k < |Fired(h, j).requests|
            && Fired(h, j).requests[k].outcome
               == if r.outcome == Waiting && j == k then Rejected(TimedOut) else r.outcome
  {
    if j < |h.requests| && h.requests[j].timer { FiredEffect(h, j); }
  }

  /** Over every run without reset, an outcome is what the first event for this request brought:
      it can be told from the events alone. */
  lemma {:induction false} OutcomeIsFirstBrought(h: Handler, events: seq<Event>, k: nat)
    requires Inv(h) && k < |h.requests| && Reset !in events
    ensures var r, h' := h.requests[k], Run(h, events);
            && k < |h'.requests| && h'.requests[k].sequence == r.sequence
            && h'.requests[k].outcome
               == if r.outcome != Waiting then r.outcome
                  else FirstBrought(h.version, r.sequence, k, events)
    decreases |events|
  {
    hide Step, Brings, TimersOk;
    if events != [] {
      StepKeepsInv(h, events[0]);
      StepBrings(h, events[0], k);
      OutcomeIsFirstBrought(Step(h, events[0]), events[1..], k);
    }
  }

  /** The same from the sending on: the request is numbered by the counter and waits for the
      first response, error or timeout of its own. */
  lemma SentRequestSettles(
    version: int, listening: bool, before: seq<Event>, kind: int, payload: seq<Byte>, flags: int, after: seq<Event>)
    requires Reset !in before && Reset !in after
    requires MessageSent(Run(Initial(version, listening), before), kind, payload, flags).1.Some?
    ensures var h := Run(Initial(version, listening), before);
            var h' := Run(Step(h, Send(kind, payload, flags)), after);
            && |h.requests| < |h'.requests| && h.sequence < WORD
            && h'.requests[|h.requests|].sequence == h.sequence
            && h'.requests[|h.requests|].outcome == FirstBrought(h.version, h.sequence, |h.requests|, after)
  {
    hide Conserved, TimersOk, NeverReused, NodeFrame;
    RunKeepsInv(Initial(version, listening), before);
    var h := Run(Initial(version, listening), before);
    SendKeepsInv(h, kind, payload, flags);
    OutcomeIsFirstBrought(Step(h, Send(kind, payload, flags)), after, |h.requests|);
  }

  lemma {:induction false} RunKeepsOptions(h: Handler, events: seq<Event>)
    requires Shaped(h)
    ensures Run(h, events).version == h.version && Run(h, events).listening == h.listening
    decreases |events|
  {
    hide Step;
    if events != [] {
      StepKeepsVersion(h, events[0]);
      RunKeepsOptions(Step(h, events[0]), events[1..]);
    }
  }

  /** A reset takes a handler back to a new one in everything but the requests under way. */
  lemma ResetStartsOver(version: int, listening: bool, events: seq<Event>)
    ensures var h := Run(Initial(version, listening), events);
            Forgotten(h)
            == Handler(if version == 0 then 1 else version, listening, 1, map[], h.requests, false, false)
  {
    RunKeepsOptions(Initial(version, listening), events);
  }

  // ----- Reset

  function Sends(n: nat): (events: seq<Event>) {
    if n == 0 then [] else Sends(n - 1) + [Send(COMMAND, [], 0)]
  }

  lemma {:induction false} RunConcat(h: Handler, a: seq<Event>, b: seq<Event>)
    requires Shaped(h)
    ensures Run(h, a + b) == Run(Run(h, a), b)
    decreases |a|
  {
    if a == [] {
      assert a + b == b;
    } else {
      assert (a + b)[1..] == a[1..] + b;
      RunConcat(Step(h, a[0]), a[1..], b);
    }
  }

  lemma {:induction false} RunSends(h: Handler, n: nat)
    requires 0 <= h.version < 0x100 && h.sequence == 1 && h.pending == map[] && n < WORD
    ensures Reset !in Sends(n)
    ensures var h' := Run(h, Sends(n));
            && h'.version == h.version && h'.sequence == n + 1
            && |h'.requests| == |h.requests| + n
            && h.requests <= h'.requests
            && (n > 0 ==> h'.requests[|h.requests| + n - 1] == Request(n, Waiting, true))
  {
    if n > 0 {
      RunSends(h, n - 1);
      RunConcat(h, Sends(n - 1), [Send(COMMAND, [], 0)]);
      var g := Run(h, Sends(n - 1));
      assert Run(g, [Send(COMMAND, [], 0)]) == Step(g, Send(COMMAND, [], 0));
    }
  }

  /** With a live timer at the time of the reset, some later run breaks conservation: the old
      timer removes a new request from the table and leaves it waiting. */
  lemma LiveTimerBreaksReset(h: Handler, k: nat) returns (events: seq<Event>)
    requires Inv(h) && k < |h.requests| && h.requests[k].timer
    ensures Reset !in events && !Conserved(Run(Forgotten(h), events))
  {
    var h0 := Forgotten(h);
    if h.requests[k].outcome == Waiting {
      events := [];
      assert h0.requests[k].outcome == Waiting && h0.requests[k].sequence !in h0.pending;
    } else {
      var q := h.requests[k].sequence;
      RunSends(h0, q);
      RunConcat(h0, Sends(q), [Fire(k)]);
      var g := Run(h0, Sends(q));
      assert Run(g, [Fire(k)]) == Step(g, Fire(k));
      events := Sends(q) + [Fire(k)];
      var g' := Fired(g, k);
      var new_ := |h.requests| + q - 1;
      assert g'.requests[new_].outcome == Waiting && g'.requests[new_].sequence == q && q !in g'.pending;
    }
  }

  /** A reset is safe, whatever happens afterwards, exactly when no timer is running. */
  lemma ResetSafeExactly(h: Handler)
    requires Inv(h)
    ensures (forall events :: Reset !in events ==> Conserved(Run(Forgotten(h), events))) <==> NoLiveTimer(h)
  {
    if NoLiveTimer(h) {
      assert Inv(Forgotten(h));
      forall events | Reset !in events
        ensures Conserved(Run(Forgotten(h), events))
      {
        RunKeepsInv(Forgotten(h), events);
      }
    } else {
      var k :| 0 <= k < |h.requests| && h.requests[k].timer;
      var events := LiveTimerBreaksReset(h, k);
    }
  }

  // ----- The mutable handler

  class ProtocolHandler {
    const version: int
    const listening: bool
    var sequence: nat
    var pending: map<Word, nat>
    var requests: seq<Request>
    var handshakeComplete: bool
    var authenticated: bool

    ghost function Model(): (h: Handler)
      reads this
    {
      Handler(version, listening, sequence, pending, requests, handshakeComplete, authenticated)
    }

    ghost predicate Valid()
      reads this
    {
      Shaped(Model())
    }

    constructor (version: int, listening: bool)
      ensures Valid() && Model() == Initial(version, listening)
    {
      this.version := if version == 0 then 1 else version;
      this.listening := listening;
      sequence, pending, requests := 1, map[], [];
      handshakeComplete, authenticated := false, false;
    }

    method CreateMessage(kind: int, payload: seq<Byte>, flags: int) returns (message: Option<seq<Byte>>)
      requires Valid()
      modifies this`sequence
      ensures Valid()
      ensures (Model(), message) == MessageCreated(old(Model()), kind, payload, flags)
    {
      if version < 0 || version >= 0x100 || kind < 0 || kind >= 0x100 || flags < 0 || flags >= 0x1_0000 {
        return None;
      }
      var number := sequence;
      sequence := sequence + 1;
      if number >= WORD || |payload| >= WORD {
        return None;
      }
      var checksum := JsCalculateChecksum(payload);
      message := Some(Encode(Header(version, kind, flags, number, |payload|, checksum)) + payload);
    }

    method SendMessage(kind: int, payload: seq<Byte>, flags: int) returns (message: Option<seq<Byte>>)
      requires Valid()
      modifies this`sequence, this`pending, this`requests
      ensures Valid()
      ensures (Model(), message) == MessageSent(old(Model()), kind, payload, flags)
    {
      ghost var before := sequence;
      message := CreateMessage(kind, payload, flags);
      if message.None? {
        return;
      }
      HeaderRoundTrip(Header(version, kind, flags, before, |payload|, FrameChecksum(payload)), payload);
      var number := WordAt(message.value, 4);
      assert number == before;
      pending := pending[number := |requests|];
      requests := requests + [Request(number, Waiting, true)];
    }

    method Answer(number: Word, outcome: Outcome)
      requires Valid()
      modifies this`pending, this`requests
      ensures Valid()
      ensures Model() == Answered(old(Model()), number, outcome)
    {
      if number in pending {
        var k := pending[number];
        pending := pending - {number};
        requests := requests[k := Settle(requests[k], outcome)];
      }
    }

    method ProcessMessage(data: seq<Byte>) returns (threw: bool)
      requires Valid()
      modifies this
      ensures Valid()
      ensures (Model(), threw) == Received(old(Model()), data)
    {
      if |data| < HEADER_SIZE {
        return true;
      }
      var header := Decode(data);
      var payload := data[HEADER_SIZE..];
      if header.version != version || header.payloadLength > MAX_PAYLOAD_SIZE {
        return true;
      }
      if |payload| != header.payloadLength {
        return true;
      }
      var calculated := JsCalculateChecksum(payload);
      if calculated != header.checksum {
        return true;
      }
      threw := false;
      if header.kind == HANDSHAKE {
        if |payload| < 4 || WordAt(payload, 0) != MAGIC {
          return true;
        }
        handshakeComplete := true;
        var reply := CreateMessage(HANDSHAKE, [], RELIABLE);
        threw := reply.None?;
      } else if header.kind == AUTH {
        authenticated := true;
      } else if header.kind == RESPONSE {
        Answer(header.sequence, Resolved(payload));
      } else if header.kind == ERROR {
        Answer(header.sequence, Rejected(RemoteError(payload)));
        threw := !listening;
      } else {
        threw := header.kind != COMMAND && header.kind != HEARTBEAT;
      }
    }

    method TimerFires(k: nat)
      requires Valid()
      modifies this`pending, this`requests
      ensures Valid()
      ensures Model() == Fired(old(Model()), k)
    {
      if k < |requests| && requests[k].timer {
        var r := requests[k];
        pending := pending - {r.sequence};
        requests := requests[k := Settle(r, Rejected(TimedOut)).(timer := false)];
      }
    }

    method ResetHandler()
      requires Valid()
      modifies this
      ensures Valid()
      ensures Model() == Forgotten(old(Model()))
    {
      handshakeComplete, authenticated := false, false;
      sequence, pending := 1, map[];
    }
  }
}
