/** A C session and a Node handler talking to each other. */
module Interop {
  import opened Bits
  import opened Bytes
  import opened Checksum
  import opened Frames
  import opened Options
  import SM = StateMachine
  import C = Session
  import Node = NodeRequests

  /** The reply to a handshake that handleHandshake returns for the sender. */
  function HandshakeReply(h: Node.Handler): (reply: Option<seq<Byte>>) {
    Node.MessageCreated(h, HANDSHAKE, [], Node.RELIABLE).1
  }

  lemma MagicMatches(pad: Byte)
    ensures WordAt(C.HandshakePayload(pad), 0) == Node.MAGIC
  {
  }

  lemma NodeTakesHandshake(h: Node.Handler, pad: Byte, sequence: Word)
    requires Node.Shaped(h) && h.version == VERSION
    ensures Node.Received(h, CFrame(HANDSHAKE, C.HandshakePayload(pad), C.RELIABLE, sequence))
         == (h.(handshakeComplete := true, sequence := h.sequence + 1), h.sequence >= WORD)
  {
    hide CFrame, NodeCheck, WordAt, NodeFrame, FrameChecksum;
    var payload := C.HandshakePayload(pad);
    CFrameReachesNode(HANDSHAKE, payload, C.RELIABLE, sequence);
    MagicMatches(pad);
    var header := Header(VERSION, HANDSHAKE, C.RELIABLE, sequence, |payload|, FrameChecksum(payload));
    assert Node.Handled(h, header, payload)
        == (h.(handshakeComplete := true, sequence := h.sequence + 1), h.sequence >= WORD);
  }

  lemma CRefusesReply(s: C.State, h: Node.Handler)
    requires h.version == VERSION && h.sequence < WORD
    ensures HandshakeReply(h).Some? && C.Processed(s, HandshakeReply(h).value) == (s, false)
  {
    hide CAccepts, NodeFrame, NodeCheck;
    HandshakeReplyIsRefused(VERSION, h.sequence);
    var reply := NodeFrame(VERSION, HANDSHAKE, [], 8, h.sequence);
    assert HandshakeReply(h) == Some(reply);
  }

  /** The handshake a C session sends completes the handshake at a Node handler, which
      produces a reply; but whatever the session's state, it refuses that reply. */
  lemma HandshakeDialogue(s: C.State, h: Node.Handler, pad: Byte)
    requires Node.Shaped(h) && h.version == VERSION && h.sequence < WORD
    ensures var frame := CFrame(HANDSHAKE, C.HandshakePayload(pad), C.RELIABLE, s.nextSequence);
            && C.Sent(s, HANDSHAKE, C.HandshakePayload(pad), C.RELIABLE, true).0.wire == s.wire + [frame]
            && Node.Received(h, frame)
               == (h.(handshakeComplete := true, sequence := h.sequence + 1), false)
            && HandshakeReply(h).Some?
            && C.Processed(s, HandshakeReply(h).value) == (s, false)
  {
    hide CFrame, Node.Received, C.Processed, HandshakeReply;
    NodeTakesHandshake(h, pad, s.nextSequence);
    CRefusesReply(s, h);
  }

  /** What a handler makes of every frame that a session can send: which bytes complete a
      handshake, which flag each type sets, and when the call throws. */
  lemma NodeTakesFrame(h: Node.Handler, kind: Byte, payload: seq<Byte>, flags: Half, sequence: Word)
    requires Node.Shaped(h) && h.version == VERSION && CanSend(payload)
    ensures var (h', threw) := Node.Received(h, CFrame(kind, payload, flags, sequence));
            var shake := && kind == 1 && |payload| >= 4
                         && payload[0] == 0x43 && payload[1] == 0x4C && payload[2] == 0x50 && payload[3] == 0;
            && h'.version == h.version && h'.listening == h.listening
            && h'.handshakeComplete == (h.handshakeComplete || shake)
            && h'.authenticated == (h.authenticated || kind == 2)
            && h'.sequence == h.sequence + (if shake then 1 else 0)
            && (threw <==> || (kind == 1 && !(shake && h.sequence < WORD))
                           || (kind == 5 && !h.listening)
                           || kind == 0 || kind > 6)
            && (kind != 4 && kind != 5 ==> h'.requests == h.requests && h'.pending == h.pending)
  {
    CFrameReachesNode(kind, payload, flags, sequence);
    HandledEffect(h, Header(VERSION, kind, flags, sequence, |payload|, FrameChecksum(payload)), payload);
    hide CFrame, NodeCheck, Node.Handled, FrameChecksum;
  }

  lemma HandledEffect(h: Node.Handler, header: Header, payload: seq<Byte>)
    requires Node.Shaped(h) && h.version == VERSION
    ensures var (h', threw) := Node.Handled(h, header, payload);
            var shake := && header.kind == 1 && |payload| >= 4
                         && payload[0] == 0x43 && payload[1] == 0x4C && payload[2] == 0x50 && payload[3] == 0;
            && h'.version == h.version && h'.listening == h.listening
            && h'.handshakeComplete == (h.handshakeComplete || shake)
            && h'.authenticated == (h.authenticated || header.kind == 2)
            && h'.sequence == h.sequence + (if shake then 1 else 0)
            && (threw <==> || (header.kind == 1 && !(shake && h.sequence < WORD))
                           || (header.kind == 5 && !h.listening)
                           || header.kind == 0 || header.kind > 6)
            && (header.kind != 4 && header.kind != 5 ==> h'.requests == h.requests && h'.pending == h.pending)
  {
    hide NodeFrame, WordAt;
    if |payload| >= 4 { MagicBytes(payload); }
  }

  lemma MagicBytes(payload: seq<Byte>)
    requires |payload| >= 4
    ensures WordAt(payload, 0) == Node.MAGIC
       <==> payload[0] == 0x43 && payload[1] == 0x4C && payload[2] == 0x50 && payload[3] == 0
  {
  }

  /** The bytes of the two messages that a session sends by itself: version 1, types 1 and 2,
      flags 8 and 9, and after the handshake header the magic number, version and flags 0. */
  lemma OwnMessageBytes(s: C.State, pad: Byte, credentials: seq<Byte>, guardAllows: bool, now: Long)
    requires SM.EndpointsInRange(s.machine) && s.phase == C.Init && CanSend(credentials)
    ensures var w := C.HandshakeStarted(s, pad, true, guardAllows, now).0.wire;
            && |w| == |s.wire| + 1 && |w[|s.wire|]| == 24
            && w[|s.wire|][..4] == [1, 1, 8, 0]
            && w[|s.wire|][16..] == [0x43, 0x4C, 0x50, 0, 1, pad, 0, 0]
    ensures var w := C.Authenticated(s, credentials, true, guardAllows, now).0.wire;
            && |w| == |s.wire| + 1 && |w[|s.wire|]| == 16 + |credentials|
            && w[|s.wire|][..4] == [1, 2, 9, 0] && w[|s.wire|][16..] == credentials
  {
    HandshakeSends(s, pad, guardAllows, now);
    AuthenticationSends(s, credentials, guardAllows, now);
    FrameBytes(HANDSHAKE, C.HandshakePayload(pad), C.RELIABLE, s.nextSequence);
    FrameBytes(AUTH, credentials, C.ENCRYPTED_RELIABLE, s.nextSequence);
    hide C.HandshakeStarted, C.Authenticated, CFrame;
  }

  lemma FrameBytes(kind: Byte, payload: seq<Byte>, flags: Half, sequence: Word)
    requires CanSend(payload) && flags < 256
    ensures var frame := CFrame(kind, payload, flags, sequence);
            |frame| == 16 + |payload| && frame[..4] == [1, kind, flags, 0] && frame[16..] == payload
  {
    FrameLayout(Header(VERSION, kind, flags, sequence, |payload|, FrameChecksum(payload)), payload);
  }

  // ----- Replies

  /** What a frame of type `kind` does to a request it reaches. */
  function OutcomeOf(kind: Byte, payload: seq<Byte>): (o: Node.Outcome)
    requires kind in {RESPONSE, ERROR}
  {
    if kind == RESPONSE then Node.Resolved(payload) else Node.Rejected(Node.RemoteError(payload))
  }

  /** The handler after receiving the frame that the session puts on the wire. */
  function Replied(s: C.State, h: Node.Handler, kind: Byte, payload: seq<Byte>, flags: Half): (h': Node.Handler)
    requires Node.Shaped(h) && CanSend(payload)
  {
    Node.Received(h, C.Sent(s, kind, payload, flags, true).0.wire[|s.wire|]).0
  }

  /** A response or error that a C session sends reaches a waiting request of Node if and
      only if the request's number happens to be the one the session has got to: `send`
      numbers a reply from its own counter. No other request is touched. */
  lemma ReplyReachesExactly(s: C.State, h: Node.Handler, kind: Byte, payload: seq<Byte>, flags: Half, k: nat)
    requires Node.Inv(h) && h.version == VERSION && k < |h.requests|
    requires CanSend(payload) && kind in {RESPONSE, ERROR}
    ensures var h' := Replied(s, h, kind, payload, flags);
            && |h'.requests| == |h.requests|
            && h'.requests[k] ==
               if h.requests[k].outcome == Node.Waiting && h.requests[k].sequence == s.nextSequence
               then h.requests[k].(outcome := OutcomeOf(kind, payload)) else h.requests[k]
  {
    var frame := CFrame(kind, payload, flags, s.nextSequence);
    assert C.Sent(s, kind, payload, flags, true).0.wire[|s.wire|] == frame;
    CFrameReachesNode(kind, payload, flags, s.nextSequence);
    hide Node.Received, CFrame, NodeCheck;
    Node.AnswerReachesItsRequest(h, frame, k);
  }

  /** Processing a request does not bring its number into the session: the number of the
      next frame sent is the same, whatever arrived. */
  lemma ProcessingKeepsNumber(s: C.State, data: seq<Byte>)
    ensures C.Processed(s, data).0.nextSequence == s.nextSequence
  {
  }

  /** Node sends a command and the embedder of the session, once it has been given the
      command, sends a response or an error. */
  datatype Exchange = Exchange(command: seq<Byte>, kind: Byte, reply: seq<Byte>, flags: Half)

  predicate Proper(x: Exchange) {
    0 < |x.command| < WORD && CanSend(x.reply) && x.kind in {RESPONSE, ERROR}
  }

  predicate CanExchange(h: Node.Handler, n: nat) {
    Node.Shaped(h) && h.version == VERSION && h.sequence + n <= WORD
  }

  /** Node sends the command and the session processes it. */
  function Asked(s: C.State, h: Node.Handler, x: Exchange): (r: (C.State, Node.Handler))
    requires CanExchange(h, 1) && Proper(x)
    ensures Node.Shaped(r.1) && r.1.version == VERSION && r.1.sequence == h.sequence + 1
  {
    var (h1, message) := Node.MessageSent(h, COMMAND, x.command, 0);
    (C.Processed(s, message.value).0, h1)
  }

  function Exchanged(s: C.State, h: Node.Handler, x: Exchange): (r: (C.State, Node.Handler))
    requires CanExchange(h, 1) && Proper(x)
  {
    var (s1, h1) := Asked(s, h, x);
    (C.Sent(s1, x.kind, x.reply, x.flags, true).0, Replied(s1, h1, x.kind, x.reply, x.flags))
  }

  lemma ReplyKeepsCounter(s: C.State, h: Node.Handler, x: Exchange)
    requires Node.Shaped(h) && h.version == VERSION && Proper(x)
    ensures var h' := Replied(s, h, x.kind, x.reply, x.flags);
            Node.Shaped(h') && h'.sequence == h.sequence && h'.version == h.version
  {
    CFrameReachesNode(x.kind, x.reply, x.flags, s.nextSequence);
    hide CFrame, NodeCheck;
  }

  lemma AskedKeepsNumber(s: C.State, h: Node.Handler, x: Exchange)
    requires CanExchange(h, 1) && Proper(x)
    ensures Asked(s, h, x).0.nextSequence == s.nextSequence
  {
    hide C.Processed, NodeFrame;
    ProcessingKeepsNumber(s, Node.MessageSent(h, COMMAND, x.command, 0).1.value);
  }

  lemma AskedRequests(h: Node.Handler, x: Exchange)
    requires Node.Inv(h) && CanExchange(h, 1) && Proper(x)
    ensures var h1 := Node.MessageSent(h, COMMAND, x.command, 0).0;
            Node.Inv(h1) && h1.requests == h.requests + [Node.Request(h.sequence, Node.Waiting, true)]
  {
    hide Node.Inv;
    Node.SendKeepsInv(h, COMMAND, x.command, 0);
  }

  lemma AskedDelivers(s: C.State, h: Node.Handler, x: Exchange)
    requires CanExchange(h, 1) && Proper(x) && COMMAND in s.callbacks
    ensures Asked(s, h, x).0 == s.(delivered := s.delivered + [C.CommandCalled(x.command)])
  {
    hide C.Processed, NodeFrame;
    C.NodeCommandIsDelivered(s, x.command, 0, h.sequence);
  }

  lemma ReplyKeepsInv(s: C.State, h: Node.Handler, x: Exchange)
    requires Node.Inv(h) && Proper(x)
    ensures Node.Inv(Replied(s, h, x.kind, x.reply, x.flags))
  {
    hide Node.Inv, Node.Received;
    Node.ReceiveKeepsInv(h, C.Sent(s, x.kind, x.reply, x.flags, true).0.wire[|s.wire|]);
  }

  /** In one exchange both counters advance by one. */
  lemma ExchangeCounts(s: C.State, h: Node.Handler, x: Exchange)
    requires CanExchange(h, 1) && Proper(x)
    ensures var (s', h') := Exchanged(s, h, x);
            && s'.nextSequence == (s.nextSequence + 1) % WORD
            && Node.Shaped(h') && h'.version == VERSION && h'.sequence == h.sequence + 1
  {
    hide CFrame, Replied, Asked;
    AskedKeepsNumber(s, h, x);
    var (s1, h1) := Asked(s, h, x);
    ReplyKeepsCounter(s1, h1, x);
  }

  /** What a reply with number `n` makes of a request. */
  function Reached(r: Node.Request, n: Word, x: Exchange): (r': Node.Request)
    requires Proper(x)
  {
    if r.outcome == Node.Waiting && r.sequence == n then r.(outcome := OutcomeOf(x.kind, x.reply)) else r
  }

  /** The reply of an exchange settles the waiting request that carries the session's number,
      be it the request of this exchange or an earlier one, and leaves all others alone. */
  lemma ExchangeEffect(s: C.State, h: Node.Handler, x: Exchange, k: nat)
    requires Node.Inv(h) && CanExchange(h, 1) && Proper(x) && k <= |h.requests|
    ensures var h' := Exchanged(s, h, x).1;
            && Node.Inv(h') && |h'.requests| == |h.requests| + 1
            && h'.requests[k] == Reached(
                 if k < |h.requests| then h.requests[k] else Node.Request(h.sequence, Node.Waiting, true),
                 s.nextSequence, x)
  {
    AskedKeepsNumber(s, h, x);
    AskedRequests(h, x);
    var (s1, h1) := Asked(s, h, x);
    assert h1 == Node.MessageSent(h, COMMAND, x.command, 0).0;
    hide C.Sent, Replied, Node.Inv, Asked, Node.MessageSent;
    ReplyReachesExactly(s1, h1, x.kind, x.reply, x.flags, k);
    ReplyKeepsInv(s1, h1, x);
  }

  // ----- Series of exchanges

  /** One exchange after the other; no timer fires meanwhile. */
  function Series(s: C.State, h: Node.Handler, xs: seq<Exchange>): (r: (C.State, Node.Handler))
    requires CanExchange(h, |xs|) && forall x :: x in xs ==> Proper(x)
    ensures Node.Shaped(r.1) && r.1.version == VERSION && r.1.sequence == h.sequence + |xs|
    decreases |xs|
  {
    if xs == [] then (s, h)
    else
      var n := |xs| - 1;
      var (s1, h1) := Series(s, h, xs[..n]);
      ExchangeCounts(s1, h1, xs[n]);
      Exchanged(s1, h1, xs[n])
  }

  lemma {:induction false} SeriesCounts(s: C.State, h: Node.Handler, xs: seq<Exchange>)
    requires Node.Inv(h) && CanExchange(h, |xs|) && forall x :: x in xs ==> Proper(x)
    ensures var (s', h') := Series(s, h, xs);
            && s'.nextSequence == (s.nextSequence + |xs|) % WORD
            && Node.Inv(h') && |h'.requests| == |h.requests| + |xs|
    decreases |xs|
  {
    hide Exchanged, Node.Inv;
    if xs != [] {
      var n := |xs| - 1;
      SeriesCounts(s, h, xs[..n]);
      var (s1, h1) := Series(s, h, xs[..n]);
      ExchangeCounts(s1, h1, xs[n]);
      ExchangeEffect(s1, h1, xs[n], 0);
      NextNumber(s.nextSequence, n);
    }
  }

  lemma NextNumber(a: Word, n: nat)
    ensures ((a + n) % WORD + 1) % WORD == (a + (n + 1)) % WORD
  {
  }

  /** The session's embedder is given every command of the series, in order. */
  lemma {:induction false} SeriesDelivers(s: C.State, h: Node.Handler, xs: seq<Exchange>)
    requires CanExchange(h, |xs|) && (forall x :: x in xs ==> Proper(x)) && COMMAND in s.callbacks
    ensures var s' := Series(s, h, xs).0;
            && s'.callbacks == s.callbacks
            && s'.delivered
               == s.delivered + seq(|xs|, i requires 0 <= i < |xs| => C.CommandCalled(xs[i].command))
    decreases |xs|
  {
    hide Asked, Replied, CFrame;
    if xs != [] {
      var n := |xs| - 1;
      SeriesDelivers(s, h, xs[..n]);
      var (s1, h1) := Series(s, h, xs[..n]);
      AskedDelivers(s1, h1, xs[n]);
    }
  }

  /** How far the session's counter is behind the handler's, modulo 2^32. */
  function Lag(s: C.State, h: Node.Handler): (d: nat) {
    (h.sequence - s.nextSequence) % WORD
  }

  lemma SameNumber(a: Word, q: Word, n: nat)
    requires n < WORD
    ensures q == (a + n) % WORD <==> (q - a) % WORD == n
  {
    assert (a + n) % WORD == if a + n < WORD then a + n else a + n - WORD;
    assert (q - a) % WORD == if q >= a then q - a else q - a + WORD;
  }

  lemma LaggingNumber(a: Word, q: nat, i: nat, n: nat)
    requires i <= n && q + n < WORD
    ensures q + i == (a + n) % WORD <==> i + (q - a) % WORD == n
  {
    assert (a + n) % WORD == if a + n < WORD then a + n else a + n - WORD;
    assert (q - a) % WORD == if q >= a then q - a else q - a + WORD;
  }

  /** The outcome of a request that reply number `j` of a series is due to. */
  function Due(xs: seq<Exchange>, j: nat): (o: Node.Outcome)
    requires forall x :: x in xs ==> Proper(x)
  {
    if j < |xs| then assert Proper(xs[j]); OutcomeOf(xs[j].kind, xs[j].reply) else Node.Waiting
  }

  /** What becomes of every request of a series: request `i` is settled by reply `i` plus the
      lag of the session's counter, be it the wrong one, or still waits if there is none. So
      each gets its own reply if and only if the counters are equal at the beginning. */
  lemma {:induction false} AnsweredExactly(s: C.State, h: Node.Handler, xs: seq<Exchange>, i: nat)
    requires Node.Inv(h) && CanExchange(h, |xs|) && (forall x :: x in xs ==> Proper(x)) && i < |xs|
    ensures var h' := Series(s, h, xs).1;
            && |h'.requests| == |h.requests| + |xs|
            && h'.requests[|h.requests| + i].sequence == h.sequence + i
            && h'.requests[|h.requests| + i].outcome == Due(xs, i + Lag(s, h))
    decreases |xs|
  {
    hide Exchanged, Node.Inv;
    var n := |xs| - 1;
    var ys := xs[..n];
    var (s1, h1) := Series(s, h, ys);
    SeriesCounts(s, h, ys);
    ExchangeEffect(s1, h1, xs[n], |h.requests| + i);
    LaggingNumber(s.nextSequence, h.sequence, i, n);
    if i < n { AnsweredExactly(s, h, ys, i); }
  }

  /** The same for a request from before the series: its number alone says which reply it
      gets. */
  lemma {:induction false} EarlierAnsweredExactly(s: C.State, h: Node.Handler, xs: seq<Exchange>, k: nat)
    requires Node.Inv(h) && CanExchange(h, |xs|) && (forall x :: x in xs ==> Proper(x)) && k < |h.requests|
    ensures var h' := Series(s, h, xs).1;
            && k < |h'.requests| && h'.requests[k].sequence == h.requests[k].sequence
            && h'.requests[k].outcome
               == if h.requests[k].outcome == Node.Waiting
                  then Due(xs, (h.requests[k].sequence - s.nextSequence) % WORD)
                  else h.requests[k].outcome
    decreases |xs|
  {
    hide Exchanged, Node.Inv;
    if xs != [] {
      var n := |xs| - 1;
      var ys := xs[..n];
      var (s1, h1) := Series(s, h, ys);
      SeriesCounts(s, h, ys);
      ExchangeEffect(s1, h1, xs[n], k);
      SameNumber(s.nextSequence, h.requests[k].sequence, n);
      EarlierAnsweredExactly(s, h, ys, k);
    }
  }

  /** At the end of the series every request of it is settled by its own reply. */
  ghost predicate OwnReplies(s: C.State, h: Node.Handler, xs: seq<Exchange>)
    requires forall x :: x in xs ==> Proper(x)
  {
    && CanExchange(h, |xs|)
    && var requests := Series(s, h, xs).1.requests;
       && |requests| == |h.requests| + |xs|
       && forall k :: |h.requests| <= k < |requests| ==> requests[k].outcome == Due(xs, k - |h.requests|)
  }

  /** At the end of the series every request of it still waits. */
  ghost predicate NoReplies(s: C.State, h: Node.Handler, xs: seq<Exchange>)
    requires forall x :: x in xs ==> Proper(x)
  {
    && CanExchange(h, |xs|)
    && var requests := Series(s, h, xs).1.requests;
       && |requests| == |h.requests| + |xs|
       && forall k :: |h.requests| <= k < |requests| ==> requests[k].outcome == Node.Waiting
  }

  lemma InStepAnswers(s: C.State, h: Node.Handler, xs: seq<Exchange>)
    requires Node.Inv(h) && CanExchange(h, |xs|) && (forall x :: x in xs ==> Proper(x))
    requires s.nextSequence == h.sequence
    ensures OwnReplies(s, h, xs)
  {
    hide Series, Node.Inv;
    SeriesCounts(s, h, xs);
    var requests := Series(s, h, xs).1.requests;
    forall k | |h.requests| <= k < |requests|
      ensures requests[k].outcome == Due(xs, k - |h.requests|)
    {
      AnsweredExactly(s, h, xs, k - |h.requests|);
    }
  }

  /** None is settled if and only if the session lags by the length of the series or more. */
  lemma NoRepliesExactly(s: C.State, h: Node.Handler, xs: seq<Exchange>)
    requires Node.Inv(h) && CanExchange(h, |xs|) && forall x :: x in xs ==> Proper(x)
    ensures NoReplies(s, h, xs) <==> Lag(s, h) >= |xs|
  {
    hide Series, Node.Inv, Lag;
    SeriesCounts(s, h, xs);
    var requests := Series(s, h, xs).1.requests;
    forall k | |h.requests| <= k < |requests|
      ensures requests[k].outcome == Due(xs, k - |h.requests| + Lag(s, h))
    {
      AnsweredExactly(s, h, xs, k - |h.requests|);
    }
    if xs != [] { assert requests[|h.requests|].outcome == Due(xs, Lag(s, h)); }
  }

  /** One message of Node's own, a heartbeat say, between equal counters: from then on every
      request is settled with the reply to the one after it. */
  lemma HeartbeatShiftsReplies(s: C.State, h: Node.Handler, xs: seq<Exchange>, i: nat)
    requires Node.Inv(h) && CanExchange(h, |xs| + 1) && (forall x :: x in xs ==> Proper(x)) && i < |xs|
    requires s.nextSequence == h.sequence
    ensures var h1 := Node.MessageCreated(h, HEARTBEAT, [], 0).0;
            && CanExchange(h1, |xs|)
            && var h' := Series(s, h1, xs).1;
               |h.requests| + i < |h'.requests| && h'.requests[|h.requests| + i].outcome == Due(xs, i + 1)
  {
    hide Series, NodeFrame, NodeCanCreate;
    var h1 := Node.MessageCreated(h, HEARTBEAT, [], 0).0;
    Node.FlagsKeepInv(h, h1);
    hide Node.Inv, Node.MessageCreated;
    AnsweredExactly(s, h1, xs, i);
  }

  /** Authentication makes Node set its flag; nothing is sent back and the counter stays. */
  lemma NodeTakesAuth(h: Node.Handler, credentials: seq<Byte>, flags: Half, sequence: Word)
    requires Node.Shaped(h) && h.version == VERSION && CanSend(credentials)
    ensures Node.Received(h, CFrame(AUTH, credentials, flags, sequence)) == (h.(authenticated := true), false)
  {
    CFrameReachesNode(AUTH, credentials, flags, sequence);
    hide CFrame, NodeCheck;
  }

  /** What a session puts on the wire to start its handshake, whether or not it moves on. */
  lemma HandshakeSends(s: C.State, pad: Byte, guardAllows: bool, now: Long)
    requires SM.EndpointsInRange(s.machine) && s.phase == C.Init
    ensures var s' := C.HandshakeStarted(s, pad, true, guardAllows, now).0;
            && s'.wire == s.wire + [CFrame(HANDSHAKE, C.HandshakePayload(pad), C.RELIABLE, s.nextSequence)]
            && s'.nextSequence == (s.nextSequence + 1) % WORD
  {
    hide CFrame, SM.Executed, C.TransitionTo;
  }

  /** The same for an authentication. */
  lemma AuthenticationSends(s: C.State, credentials: seq<Byte>, guardAllows: bool, now: Long)
    requires SM.EndpointsInRange(s.machine) && CanSend(credentials)
    ensures var s' := C.Authenticated(s, credentials, true, guardAllows, now).0;
            && s'.wire == s.wire + [CFrame(AUTH, credentials, C.ENCRYPTED_RELIABLE, s.nextSequence)]
            && s'.nextSequence == (s.nextSequence + 1) % WORD
  {
    hide CFrame, SM.Executed, C.TransitionTo;
  }

  /** The session starts its handshake and the handler receives what was sent. */
  function HandshakeMade(s: C.State, h: Node.Handler, pad: Byte, guardAllows: bool, now: Long)
    : (r: (C.State, Node.Handler))
    requires SM.EndpointsInRange(s.machine) && s.phase == C.Init && Node.Shaped(h)
    ensures SM.EndpointsInRange(r.0.machine) && Node.Shaped(r.1)
  {
    var s' := C.HandshakeStarted(s, pad, true, guardAllows, now).0;
    HandshakeSends(s, pad, guardAllows, now);
    (s', Node.Received(h, s'.wire[|s.wire|]).0)
  }

  /** The session authenticates and the handler receives what was sent. */
  function AuthenticationMade(s: C.State, h: Node.Handler, credentials: seq<Byte>, guardAllows: bool, now: Long)
    : (r: (C.State, Node.Handler))
    requires SM.EndpointsInRange(s.machine) && CanSend(credentials) && Node.Shaped(h)
    ensures SM.EndpointsInRange(r.0.machine) && Node.Shaped(r.1)
  {
    var s' := C.Authenticated(s, credentials, true, guardAllows, now).0;
    AuthenticationSends(s, credentials, guardAllows, now);
    (s', Node.Received(h, s'.wire[|s.wire|]).0)
  }

  lemma HandshakeCounters(s: C.State, h: Node.Handler, pad: Byte, guardAllows: bool, now: Long)
    requires SM.EndpointsInRange(s.machine) && s.phase == C.Init && Node.Shaped(h) && h.version == VERSION
    ensures var (s', h') := HandshakeMade(s, h, pad, guardAllows, now);
            && s'.nextSequence == (s.nextSequence + 1) % WORD
            && h' == h.(handshakeComplete := true, sequence := h.sequence + 1)
  {
    hide CFrame, C.HandshakeStarted, Node.Received;
    HandshakeSends(s, pad, guardAllows, now);
    NodeTakesHandshake(h, pad, s.nextSequence);
  }

  lemma AuthenticationCounters(s: C.State, h: Node.Handler, credentials: seq<Byte>, guardAllows: bool, now: Long)
    requires SM.EndpointsInRange(s.machine) && CanSend(credentials) && Node.Shaped(h) && h.version == VERSION
    ensures var (s', h') := AuthenticationMade(s, h, credentials, guardAllows, now);
            s'.nextSequence == (s.nextSequence + 1) % WORD && h' == h.(authenticated := true)
  {
    hide CFrame, C.Authenticated, Node.Received;
    AuthenticationSends(s, credentials, guardAllows, now);
    NodeTakesAuth(h, credentials, C.ENCRYPTED_RELIABLE, s.nextSequence);
  }

  /** A new session and a new handler: after the handshake every request of Node is settled by
      its own reply, because Node's refused reply has used up a number too. After the
      authentication that follows, which Node does not reply to, the session is ahead: every
      request of every series is still waiting at the end of it. */
  lemma AuthenticationLosesReplies(
    m: SM.Machine, callbacks: set<Byte>, observed: bool, listening: bool,
    pad: Byte, credentials: seq<Byte>, guardAllows: bool, now: Long, xs: seq<Exchange>)
    requires SM.EndpointsInRange(m) && CanSend(credentials)
    requires |xs| <= WORD - 2 && forall x :: x in xs ==> Proper(x)
    ensures var s, h := C.Start(m, callbacks, observed), Node.Initial(VERSION, listening);
            var (s1, h1) := HandshakeMade(s, h, pad, guardAllows, now);
            var (s2, h2) := AuthenticationMade(s1, h1, credentials, guardAllows, now);
            OwnReplies(s1, h1, xs) && NoReplies(s2, h2, xs)
  {
    hide OwnReplies, NoReplies, HandshakeMade, AuthenticationMade;
    var s, h := C.Start(m, callbacks, observed), Node.Initial(VERSION, listening);
    HandshakeCounters(s, h, pad, guardAllows, now);
    var (s1, h1) := HandshakeMade(s, h, pad, guardAllows, now);
    AuthenticationCounters(s1, h1, credentials, guardAllows, now);
    var (s2, h2) := AuthenticationMade(s1, h1, credentials, guardAllows, now);
    InStepAnswers(s1, h1, xs);
    NoRepliesExactly(s2, h2, xs);
  }
}
