/** An embedder that fills the state machine of a session under the names the protocol's
    documentation gives: from these texts alone, phases and states agree in every run. */
module Embedding {
  import opened Bits
  import opened Bytes
  import SM = StateMachine
  import opened Session

  predicate IsAscii(text: string) {
    forall i :: 0 <= i < |text| ==> 0 < text[i] as int < 128
  }

  /** The bytes of a text. */
  function Ascii(text: string): (name: SM.CString)
    requires IsAscii(text)
    ensures |name| == |text|
    ensures forall i :: 0 <= i < |text| ==> name[i] == text[i] as int
  {
    if text == "" then [] else [text[0] as int] + Ascii(text[1..])
  }

  // ----- Filling the machine

  datatype StateArguments = StateArguments(name: SM.CString, onEnter: Long, onExit: Long, isFinal: bool)

  function WithStates(m: SM.Machine, states: seq<StateArguments>, now: Long): (m': SM.Machine)
    decreases |states|
  {
    if states == [] then m
    else
      var s := states[0];
      WithStates(SM.AddedState(m, s.name, s.onEnter, s.onExit, s.isFinal, now).0, states[1..], now)
  }

  /** The documented name of the transition to each phase. */
  function TextTo(p: Phase): (text: string)
    requires p != Init
    ensures IsAscii(text) && |text| < 32
  {
    match p
    case Handshake => "to_handshake"
    case Auth => "to_auth"
    case Ready => "to_ready"
    case Error => "to_error"
    case Closed => "to_closed"
  }

  /** The phase with a given number. */
  function PhaseAt(n: nat): (p: Phase)
    requires 1 <= n <= 5
    ensures p != Init && Code(p) == n
  {
    if n == 1 then Handshake else if n == 2 then Auth else if n == 3 then Ready else if n == 4 then Error else Closed
  }

  /** Where a transition starts, what it calls, and whether it has a guard. */
  datatype Route = Route(from: nat, action: Long, guarded: bool)

  /** The transitions to the first `n` phases, each under its documented name and to the state
      with the number of the phase. */
  function WithTransitions(m: SM.Machine, r: seq<Route>, n: nat): (m': SM.Machine)
    requires n <= |r| <= 5
  {
    if n == 0 then m
    else
      var x := r[n - 1];
      SM.AddedTransition(WithTransitions(m, r, n - 1), Ascii(TextTo(PhaseAt(n))), x.from, n, x.action, x.guarded).0
  }

  function Entered(n: nat, r: Route): (t: SM.Transition)
    requires 1 <= n <= 5
  {
    SM.Transition(Ascii(TextTo(PhaseAt(n))), r.from, n, r.action, r.guarded)
  }

  /** A machine with nothing but states, enough of them, as the embedder starts from. */
  predicate CanEnter(m: SM.Machine, r: seq<Route>) {
    && Fresh(m) && m.transitions == [] && |m.states| >= 6
    && |r| == 5 && forall x :: x in r ==> x.from < |m.states|
  }

  lemma {:induction false} StatesAdded(m: SM.Machine, states: seq<StateArguments>, now: Long)
    requires Fresh(m) && m.transitions == [] && |m.states| + |states| <= 32
    ensures var m' := WithStates(m, states, now);
            Fresh(m') && m'.transitions == [] && |m'.states| == |m.states| + |states|
    decreases |states|
  {
    hide SM.StateChecksum, SM.Clip;
    if states != [] {
      var s := states[0];
      StatesAdded(SM.AddedState(m, s.name, s.onEnter, s.onExit, s.isFinal, now).0, states[1..], now);
    }
  }

  lemma {:induction false} TransitionsAdded(m: SM.Machine, r: seq<Route>, n: nat)
    requires CanEnter(m, r) && n <= 5
    ensures WithTransitions(m, r, n)
         == m.(transitions := seq(n, i requires 0 <= i < n => Entered(i + 1, r[i])))
  {
    hide Ascii, TextTo, PhaseAt;
    if n > 0 {
      TransitionsAdded(m, r, n - 1);
      assert r[n - 1] in r;
    }
  }

  // ----- The names

  lemma NameIsText(p: Phase)
    requires p != Init
    ensures TransitionTo(p) == Ascii(TextTo(p))
  {
    hide Ascii;
    assert |TransitionTo(p)| == |TextTo(p)|;
    assert forall i :: 0 <= i < |TextTo(p)| ==> TransitionTo(p)[i] == TextTo(p)[i] as int;
  }

  lemma NamesDiffer(p: Phase, q: Phase)
    requires p != Init && q != Init && p != q
    ensures Ascii(TextTo(p)) != Ascii(TextTo(q))
  {
    assert |TextTo(p)| == |TextTo(q)| ==> TextTo(p)[3] != TextTo(q)[3];
  }

  lemma FirstNamedIs(ts: seq<SM.Transition>, i: nat, name: SM.CString)
    requires i < |ts| && ts[i].name == name && forall j :: 0 <= j < i ==> ts[j].name != name
    ensures SM.FirstNamed(ts, name) == i
  {
  }

  /** The session takes, towards each phase, the transition entered under its name. */
  lemma ChosenIsEntered(m: SM.Machine, r: seq<Route>, p: Phase)
    requires CanEnter(m, r) && p != Init
    ensures var m' := WithTransitions(m, r, 5);
            Registered(m', p) && Chosen(m', p) == Entered(Code(p), r[Code(p) - 1])
  {
    hide WithTransitions, Ascii, TransitionTo, SM.FirstNamed, TextTo;
    TransitionsAdded(m, r, 5);
    var ts := WithTransitions(m, r, 5).transitions;
    NameIsText(p);
    forall j | 0 <= j < 5 && j + 1 != Code(p)
      ensures ts[j].name != Ascii(TextTo(p))
    {
      NamesDiffer(PhaseAt(j + 1), p);
    }
    assert PhaseAt(Code(p)) == p;
    FirstNamedIs(ts, Code(p) - 1, Ascii(TextTo(p)));
  }

  /** What the embedder has filled in under the documented names is conforming. */
  lemma DocumentedNamesConform(m: SM.Machine, r: seq<Route>)
    requires CanEnter(m, r)
    ensures var m' := WithTransitions(m, r, 5);
            Fresh(m') && Conforming(m') && Leads(m', Closed)
  {
    hide Registered, Chosen, WithTransitions, Ascii, TextTo;
    TransitionsAdded(m, r, 5);
    ChosenIsEntered(m, r, Handshake);
    ChosenIsEntered(m, r, Auth);
    ChosenIsEntered(m, r, Ready);
    ChosenIsEntered(m, r, Error);
    ChosenIsEntered(m, r, Closed);
  }

  /** From the documented names: under all guards protocol state and machine state agree after
      every run. */
  lemma DocumentedNamesKeepLockstep(m: SM.Machine, r: seq<Route>, g: Guards, callbacks: set<Byte>, observed: bool)
    requires CanEnter(m, r)
    ensures var m' := WithTransitions(m, r, 5);
            && Fresh(m')
            && forall calls :: Obeys(g, Start(m', callbacks, observed), calls) ==>
                 Lockstep(Run(Start(m', callbacks, observed), calls))
  {
    hide Fresh, Conforming, Leads, WithTransitions, Obeys, Lockstep, LeadsAlong, Run;
    var m' := WithTransitions(m, r, 5);
    DocumentedNamesConform(m, r);
    ConformingExactly(m', g);
    LockstepExactly(m', g, callbacks, observed);
  }
}
