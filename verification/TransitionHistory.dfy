/** The Node binding's StateMachine: named states, transitions keyed by "from->to", and a
    bounded history of the steps taken. */
module TransitionHistory {
  import opened Options

  datatype Record = Record(from: string, to: string)

  /** `states` tells of each registered state whether it is locked. */
  datatype Machine = Machine(
    states: map<string, bool>, transitions: map<string, Record>, current: Option<string>,
    history: seq<Record>, maxHistory: int, recording: bool, allowSelf: bool)

  /** What happens around the move: the guard's verdict; whether the `before` hook or a
      listener of transition:start throws; whether the `after` hook or a listener of
      transition:complete throws. */
  datatype Hooks = Hooks(guardAllows: bool, beforeThrows: bool, afterThrows: bool)

  function Initial(maxHistory: int, recording: bool, allowSelf: bool): (m: Machine) {
    Machine(map[], map[], None, [], if maxHistory == 0 then 100 else maxHistory, recording, allowSelf)
  }

  function Key(from: string, to: string): (key: string) {
    from + "->" + to
  }

  // ----- The operations; the flag says whether the call returned without throwing

  function StateAdded(m: Machine, name: string, defer: bool): (r: (Machine, bool)) {
    if name in m.states || name == "" then (m, false)
    else
      (m.(states := m.states[name := false],
          current := if m.current.None? && !defer then Some(name) else m.current), true)
  }

  function TransitionAdded(m: Machine, from: string, to: string): (r: (Machine, bool)) {
    if from !in m.states || to !in m.states then (m, false)
    else (m.(transitions := m.transitions[Key(from, to) := Record(from, to)]), true)
  }

  /** recordTransition: push, then drop the oldest if there are too many. */
  function Pushed(history: seq<Record>, maxHistory: int, step: Record): (h: seq<Record>) {
    var h := history + [step];
    if |h| > maxHistory then h[1..] else h
  }

  /** Whether executeTransition gets as far as changing the current state. */
  predicate Moves(m: Machine, to: string, hooks: Hooks) {
    && to in m.states && m.current.Some? && m.current.value in m.states
    && Key(m.current.value, to) in m.transitions
    && (m.allowSelf || m.current.value != to)
    && !m.states[m.current.value] && !m.states[to]
    && hooks.guardAllows && !hooks.beforeThrows
  }

  function Executed(m: Machine, to: string, hooks: Hooks): (r: (Machine, bool)) {
    if !Moves(m, to, hooks) then (m, false)
    else
      var m' := m.(current := Some(to));
      if hooks.afterThrows then (m', false)
      else if m.recording then
        (m'.(history := Pushed(m.history, m.maxHistory, Record(m.current.value, to))), true)
      else (m', true)
  }

  function LockSet(m: Machine, name: string, locked: bool): (r: (Machine, bool)) {
    if name !in m.states || m.states[name] == locked then (m, false)
    else (m.(states := m.states[name := locked]), true)
  }

  // ----- Runs

  datatype Call =
    | AddState(name: string, defer: bool)
    | AddTransition(from: string, to: string)
    | Execute(to: string, hooks: Hooks)
    | SetLock(name: string, locked: bool)

  /** A machine with its past: all steps it took and all transitions it was given. */
  datatype World = World(machine: Machine, steps: seq<Record>, registered: set<Record>)

  function Step(w: World, call: Call): (w': World) {
    var m := w.machine;
    match call
    case AddState(name, defer) => w.(machine := StateAdded(m, name, defer).0)
    case AddTransition(from, to) =>
      var (m', ok) := TransitionAdded(m, from, to);
      World(m', w.steps, if ok then w.registered + {Record(from, to)} else w.registered)
    case Execute(to, hooks) =>
      World(Executed(m, to, hooks).0,
            if Moves(m, to, hooks) then w.steps + [Record(m.current.value, to)] else w.steps, w.registered)
    case SetLock(name, locked) => w.(machine := LockSet(m, name, locked).0)
  }

  function Run(w: World, calls: seq<Call>): (w': World)
    decreases |calls|
  {
    if calls == [] then w else Run(Step(w, calls[0]), calls[1..])
  }

  function Begin(maxHistory: int, recording: bool, allowSelf: bool): (w: World) {
    World(Initial(maxHistory, recording, allowSelf), [], {})
  }

  // ----- The history is a path

  /** The last `n` elements. */
  function Suffix(s: seq<Record>, n: int): (t: seq<Record>) {
    if n <= 0 then [] else if |s| <= n then s else s[|s| - n..]
  }

  predicate Connected(path: seq<Record>) {
    forall i :: 0 <= i < |path| - 1 ==> path[i].to == path[i + 1].from
  }

  predicate EndsAt(path: seq<Record>, current: Option<string>) {
    path != [] ==> current == Some(path[|path| - 1].to)
  }

  lemma PushKeepsSuffix(steps: seq<Record>, n: int, step: Record)
    ensures Pushed(Suffix(steps, n), n, step) == Suffix(steps + [step], n)
  {
  }

  lemma PathExtends(steps: seq<Record>, step: Record)
    requires Connected(steps) && EndsAt(steps, Some(step.from))
    ensures Connected(steps + [step]) && EndsAt(steps + [step], Some(step.to))
  {
  }

  lemma EmptyPath(steps: seq<Record>, name: string)
    requires EndsAt(steps, None)
    ensures EndsAt(steps, Some(name))
  {
  }

  ghost predicate PathInv(w: World) {
    && w.machine.recording
    && w.machine.history == Suffix(w.steps, w.machine.maxHistory)
    && Connected(w.steps) && EndsAt(w.steps, w.machine.current)
  }

  predicate NoThrowAfter(call: Call) {
    call.Execute? ==> !call.hooks.afterThrows
  }

  lemma StepKeepsPath(w: World, call: Call)
    requires PathInv(w) && NoThrowAfter(call)
    ensures PathInv(Step(w, call))
  {
    hide Suffix, Connected, EndsAt, Pushed, Key;
    var m := w.machine;
    if call.Execute? && Moves(m, call.to, call.hooks) {
      var step := Record(m.current.value, call.to);
      PushKeepsSuffix(w.steps, m.maxHistory, step);
      PathExtends(w.steps, step);
    } else if call.AddState? && m.current.None? {
      EmptyPath(w.steps, call.name);
    }
  }

  lemma {:induction false} RunKeepsPath(w: World, calls: seq<Call>)
    requires PathInv(w) && forall c :: c in calls ==> NoThrowAfter(c)
    ensures PathInv(Run(w, calls))
    decreases |calls|
  {
    if calls != [] {
      StepKeepsPath(w, calls[0]);
      RunKeepsPath(Step(w, calls[0]), calls[1..]);
    }
  }

  /** In every run with recording on in which no `after` hook throws, the history is the last
      maxHistoryLength steps taken, each step starts where the one before ended, and the last
      ends at the current state. */
  lemma HistoryIsPath(maxHistory: int, allowSelf: bool, calls: seq<Call>)
    requires forall c :: c in calls ==> NoThrowAfter(c)
    ensures var w := Run(Begin(maxHistory, true, allowSelf), calls);
            && w.machine.history == Suffix(w.steps, if maxHistory == 0 then 100 else maxHistory)
            && Connected(w.machine.history) && EndsAt(w.machine.history, w.machine.current)
            && |w.machine.history| <= (if maxHistory == 0 then 100 else if maxHistory < 0 then 0 else maxHistory)
  {
    hide Step;
    RunKeepsPath(Begin(maxHistory, true, allowSelf), calls);
    RunKeepsOptions(Begin(maxHistory, true, allowSelf), calls);
  }

  lemma {:induction false} RunKeepsOptions(w: World, calls: seq<Call>)
    ensures Run(w, calls).machine.maxHistory == w.machine.maxHistory
    decreases |calls|
  {
    if calls != [] { RunKeepsOptions(Step(w, calls[0]), calls[1..]); }
  }

  /** The call changes the current state and its `after` hook throws. */
  predicate LostMove(m: Machine, call: Call) {
    call.Execute? && Moves(m, call.to, call.hooks) && call.hooks.afterThrows
  }

  lemma LostMoveShows(steps: seq<Record>, n: int, step: Record)
    requires n > 0 && step.from != step.to
    requires steps != [] ==> steps[|steps| - 1].to == step.from
    ensures Suffix(steps + [step], n) != Suffix(steps, n)
  {
    var before, after := Suffix(steps, n), Suffix(steps + [step], n);
    assert after[|after| - 1] == step;
    if before != [] { assert before[|before| - 1] == steps[|steps| - 1]; }
  }

  /** With self-transitions off, as by default, the history stops being the last steps taken
      at a call exactly if that call loses a move. */
  lemma PathLostExactly(w: World, call: Call)
    requires PathInv(w) && w.machine.maxHistory > 0 && !w.machine.allowSelf
    ensures PathInv(Step(w, call)) <==> !LostMove(w.machine, call)
  {
    if LostMove(w.machine, call) {
      LostMoveShows(w.steps, w.machine.maxHistory, Record(w.machine.current.value, call.to));
    } else {
      KeptMoveKeepsPath(w, call);
    }
  }

  lemma KeptMoveKeepsPath(w: World, call: Call)
    requires PathInv(w) && !LostMove(w.machine, call)
    ensures PathInv(Step(w, call))
  {
    if call.Execute? && Moves(w.machine, call.to, call.hooks) {
      StepKeepsPath(w, call);
    }
  }

  /** The history is the last steps taken before and after every call of the run. */
  ghost predicate PathThroughout(w: World, calls: seq<Call>)
    decreases |calls|
  {
    PathInv(w) && (calls != [] ==> PathThroughout(Step(w, calls[0]), calls[1..]))
  }

  /** Some call of the run loses a move. */
  ghost predicate LosesMove(w: World, calls: seq<Call>)
    decreases |calls|
  {
    calls != [] && (LostMove(w.machine, calls[0]) || LosesMove(Step(w, calls[0]), calls[1..]))
  }

  lemma {:induction false} PathThroughoutExactly(w: World, calls: seq<Call>)
    requires PathInv(w) && w.machine.maxHistory > 0 && !w.machine.allowSelf
    ensures PathThroughout(w, calls) <==> !LosesMove(w, calls)
    decreases |calls|
  {
    if calls != [] {
      PathLostExactly(w, calls[0]);
      if !LostMove(w.machine, calls[0]) {
        PathThroughoutExactly(Step(w, calls[0]), calls[1..]);
      }
    }
  }

  /** In every run of a recording machine without self-transitions: the history is at all
      times the last maxHistoryLength steps taken, if and only if no move is made whose
      `after` hook throws. */
  lemma HistoryIsPathExactly(maxHistory: nat, calls: seq<Call>)
    ensures PathThroughout(Begin(maxHistory, true, false), calls)
       <==> !LosesMove(Begin(maxHistory, true, false), calls)
  {
    PathThroughoutExactly(Begin(maxHistory, true, false), calls);
  }

  // ----- Steps are defined transitions, unless keys collide

  /** No two different pairs of the given names share a transition key. */
  ghost predicate NoCollision(names: set<string>) {
    forall f, t, f', t' | f in names && t in names && f' in names && t' in names ::
      Key(f, t) == Key(f', t') ==> f == f' && t == t'
  }

  ghost predicate StepsDefined(w: World) {
    forall s :: s in w.steps ==> s in w.registered
  }

  ghost predicate TableOk(w: World) {
    && (w.machine.current.Some? ==> w.machine.current.value in w.machine.states)
    && (forall k :: k in w.machine.transitions ==>
          var r := w.machine.transitions[k];
          && r in w.registered && k == Key(r.from, r.to)
          && r.from in w.machine.states && r.to in w.machine.states)
  }

  predicate Names(call: Call, names: set<string>) {
    call.AddState? ==> call.name in names
  }

  lemma StepKeepsDefined(w: World, call: Call, names: set<string>)
    requires NoCollision(names) && TableOk(w) && StepsDefined(w)
    requires w.machine.states.Keys <= names && Names(call, names)
    ensures TableOk(Step(w, call)) && StepsDefined(Step(w, call))
    ensures Step(w, call).machine.states.Keys <= names
  {
    hide Pushed, Key;
    if call.Execute? && Moves(w.machine, call.to, call.hooks) {
      var r := w.machine.transitions[Key(w.machine.current.value, call.to)];
      assert r == Record(w.machine.current.value, call.to);
    }
  }

  lemma {:induction false} RunKeepsDefined(w: World, calls: seq<Call>, names: set<string>)
    requires NoCollision(names) && TableOk(w) && StepsDefined(w)
    requires w.machine.states.Keys <= names && forall c :: c in calls ==> Names(c, names)
    ensures StepsDefined(Run(w, calls))
    decreases |calls|
  {
    if calls != [] {
      StepKeepsDefined(w, calls[0], names);
      RunKeepsDefined(Step(w, calls[0]), calls[1..], names);
    }
  }

  // ----- Locks

  lemma LockHolds(w: World, call: Call, name: string)
    requires name in w.machine.states && w.machine.states[name] && call != SetLock(name, false)
    ensures var w' := Step(w, call);
            && name in w'.machine.states && w'.machine.states[name]
            && (w'.steps == w.steps
                || exists r :: w'.steps == w.steps + [r] && r.from != name && r.to != name)
  {
    hide Key, Pushed;
    if call.Execute? && Moves(w.machine, call.to, call.hooks) {
      assert Step(w, call).steps == w.steps + [Record(w.machine.current.value, call.to)];
    }
  }

  /** As long as a locked state is not unlocked, over any calls: it stays locked, and no step
      from it or to it is taken. */
  lemma {:induction false} LockedUntilUnlocked(w: World, calls: seq<Call>, name: string)
    requires name in w.machine.states && w.machine.states[name] && SetLock(name, false) !in calls
    ensures var w' := Run(w, calls);
            && name in w'.machine.states && w'.machine.states[name]
            && w.steps <= w'.steps
            && forall i :: |w.steps| <= i < |w'.steps| ==> w'.steps[i].from != name && w'.steps[i].to != name
    decreases |calls|
  {
    hide Step;
    if calls != [] {
      LockHolds(w, calls[0], name);
      LockedUntilUnlocked(Step(w, calls[0]), calls[1..], name);
    }
  }

  // ----- Exactly which steps are taken

  /** The calls have added a state of this name. */
  predicate Known(calls: seq<Call>, name: string) {
    name != "" && exists c :: c in calls && c.AddState? && c.name == name
  }

  /** What the last lock or unlock of an added state says; states start unlocked. */
  function LockOf(calls: seq<Call>, name: string): (locked: bool)
    decreases |calls|
  {
    if calls == [] then false
    else
      var n := |calls| - 1;
      if calls[n].SetLock? && calls[n].name == name && Known(calls[..n], name) then calls[n].locked
      else LockOf(calls[..n], name)
  }

  /** The transition has been added, with both its states there at the time. */
  predicate Defined(calls: seq<Call>, from: string, to: string)
    decreases |calls|
  {
    if calls == [] then false
    else
      var n := |calls| - 1;
      || (calls[n] == AddTransition(from, to) && Known(calls[..n], from) && Known(calls[..n], to))
      || Defined(calls[..n], from, to)
  }

  lemma KnownLater(calls: seq<Call>, call: Call, name: string)
    ensures Known(calls + [call], name)
       <==> Known(calls, name) || (name != "" && call.AddState? && call.name == name)
  {
    var all := calls + [call];
    if Known(calls, name) {
      var c :| c in calls && c.AddState? && c.name == name;
      assert c in all;
    }
    if call.AddState? { assert call in all; }
  }

  lemma LockLater(calls: seq<Call>, call: Call, name: string)
    ensures LockOf(calls + [call], name)
         == if call.SetLock? && call.name == name && Known(calls, name) then call.locked else LockOf(calls, name)
  {
    assert (calls + [call])[..|calls|] == calls;
  }

  lemma DefinedLater(calls: seq<Call>, call: Call, from: string, to: string)
    ensures Defined(calls + [call], from, to)
       <==> || Defined(calls, from, to)
            || (call == AddTransition(from, to) && Known(calls, from) && Known(calls, to))
  {
    assert (calls + [call])[..|calls|] == calls;
  }

  /** What a machine knows after the calls is what the calls say. */
  ghost predicate Reflects(w: World, calls: seq<Call>) {
    && (forall name :: name in w.machine.states <==> Known(calls, name))
    && (forall name :: name in w.machine.states ==> w.machine.states[name] == LockOf(calls, name))
    && (forall f, t :: Record(f, t) in w.registered <==> Defined(calls, f, t))
    && (forall f, t :: Record(f, t) in w.registered ==> Key(f, t) in w.machine.transitions)
  }

  lemma UnknownUnlocked(calls: seq<Call>, name: string)
    requires !Known(calls, name)
    ensures !LockOf(calls, name)
    decreases |calls|
  {
    if calls != [] {
      var n := |calls| - 1;
      KnownLater(calls[..n], calls[n], name);
      assert calls == calls[..n] + [calls[n]];
      UnknownUnlocked(calls[..n], name);
    }
  }

  lemma StepReflectsStates(w: World, calls: seq<Call>, call: Call)
    requires Reflects(w, calls)
    ensures var w', all := Step(w, call), calls + [call];
            && (forall name :: name in w'.machine.states <==> Known(all, name))
            && (forall name :: name in w'.machine.states ==> w'.machine.states[name] == LockOf(all, name))
  {
    hide Known, LockOf, Defined, Pushed, Moves, Key;
    var w', all := Step(w, call), calls + [call];
    forall name
      ensures name in w'.machine.states <==> Known(all, name)
      ensures name in w'.machine.states ==> w'.machine.states[name] == LockOf(all, name)
    {
      KnownLater(calls, call, name);
      LockLater(calls, call, name);
      if !Known(calls, name) { UnknownUnlocked(calls, name); }
    }
  }

  lemma StepReflectsTransitions(w: World, calls: seq<Call>, call: Call)
    requires Reflects(w, calls)
    ensures var w', all := Step(w, call), calls + [call];
            && (forall f, t :: Record(f, t) in w'.registered <==> Defined(all, f, t))
            && (forall f, t :: Record(f, t) in w'.registered ==> Key(f, t) in w'.machine.transitions)
  {
    hide Known, LockOf, Defined, Pushed, Moves, Key;
    forall f, t
      ensures Record(f, t) in Step(w, call).registered <==> Defined(calls + [call], f, t)
    {
      DefinedLater(calls, call, f, t);
    }
  }

  lemma {:induction false} RunReflects(maxHistory: int, recording: bool, allowSelf: bool, calls: seq<Call>)
    ensures Reflects(Run(Begin(maxHistory, recording, allowSelf), calls), calls)
    ensures Run(Begin(maxHistory, recording, allowSelf), calls).machine.allowSelf == allowSelf
    decreases |calls|
  {
    hide Step, Known, LockOf, Defined, Key;
    var w := Begin(maxHistory, recording, allowSelf);
    if calls == [] {
      BeginReflects(maxHistory, recording, allowSelf);
    } else {
      var n := |calls| - 1;
      var before, last := calls[..n], calls[n];
      assert calls == before + [last];
      RunReflects(maxHistory, recording, allowSelf, before);
      RunAppend(w, before, last);
      StepReflectsStates(Run(w, before), before, last);
      StepReflectsTransitions(Run(w, before), before, last);
      StepKeepsSelf(Run(w, before), last);
    }
  }

  lemma BeginReflects(maxHistory: int, recording: bool, allowSelf: bool)
    ensures Reflects(Begin(maxHistory, recording, allowSelf), [])
  {
  }

  lemma StepKeepsSelf(w: World, call: Call)
    ensures Step(w, call).machine.allowSelf == w.machine.allowSelf
  {
    hide Key, Pushed, Moves;
  }

  lemma {:induction false} RunAppend(w: World, calls: seq<Call>, call: Call)
    ensures Run(w, calls + [call]) == Step(Run(w, calls), call)
    decreases |calls|
  {
    hide Step;
    if calls == [] {
      assert [] + [call] == [call] && [call][1..] == [];
    } else {
      assert (calls + [call])[1..] == calls[1..] + [call];
      RunAppend(Step(w, calls[0]), calls[1..], call);
    }
  }

  /** The first state that was added without being deferred. */
  function FirstStanding(calls: seq<Call>): (name: Option<string>)
    decreases |calls|
  {
    if calls == [] then None
    else
      var n := |calls| - 1;
      if FirstStanding(calls[..n]).Some? then FirstStanding(calls[..n])
      else if calls[n].AddState? && !calls[n].defer && calls[n].name != "" && !Known(calls[..n], calls[n].name)
      then Some(calls[n].name)
      else None
  }

  /** That state is current until the first step is taken; from then on it is the last step's. */
  lemma {:induction false} CurrentExactly(maxHistory: int, recording: bool, allowSelf: bool, calls: seq<Call>)
    ensures var w := Run(Begin(maxHistory, recording, allowSelf), calls);
            && w.machine.current
               == (if w.steps == [] then FirstStanding(calls) else Some(w.steps[|w.steps| - 1].to))
            && (w.steps != [] ==> FirstStanding(calls).Some?)
    decreases |calls|
  {
    var w := Begin(maxHistory, recording, allowSelf);
    if calls != [] {
      var n := |calls| - 1;
      var before, last := calls[..n], calls[n];
      assert calls == before + [last];
      CurrentExactly(maxHistory, recording, allowSelf, before);
      RunAppend(w, before, last);
      RunReflects(maxHistory, recording, allowSelf, before);
      StandsAfter(Run(w, before), before, last);
      hide Step, Known, FirstStanding, Run, Reflects;
    }
  }

  lemma StandsAfter(w: World, calls: seq<Call>, call: Call)
    requires Reflects(w, calls) && (w.steps != [] ==> FirstStanding(calls).Some?)
    requires w.machine.current == if w.steps == [] then FirstStanding(calls) else Some(w.steps[|w.steps| - 1].to)
    ensures var w', all := Step(w, call), calls + [call];
            && w'.machine.current
               == (if w'.steps == [] then FirstStanding(all) else Some(w'.steps[|w'.steps| - 1].to))
            && (w'.steps != [] ==> FirstStanding(all).Some?)
  {
    hide Known, LockOf, Defined, Key, Pushed;
    var all := calls + [call];
    assert all[..|calls|] == calls;
  }

  /** Whether the calls so far and the hooks allow a step. */
  predicate Allowed(calls: seq<Call>, allowSelf: bool, from: string, to: string, hooks: Hooks) {
    && Defined(calls, from, to) && (allowSelf || from != to)
    && !LockOf(calls, from) && !LockOf(calls, to)
    && hooks.guardAllows && !hooks.beforeThrows
  }

  /** Over state names that share no keys, after every run: a step is taken if and only if there
      is a current state, the transition from it was defined and leads elsewhere, where this is
      asked for, neither end is locked, the guard allows it and nothing throws before the move.
      The call returns without throwing if and only if it took a step and nothing threw after
      it either. */
  lemma StepTakenExactly(
    maxHistory: int, recording: bool, allowSelf: bool, calls: seq<Call>, names: set<string>, to: string, hooks: Hooks)
    requires NoCollision(names) && (forall c :: c in calls ==> Names(c, names)) && to in names
    ensures var w := Run(Begin(maxHistory, recording, allowSelf), calls);
            var w' := Step(w, Execute(to, hooks));
            var taken := w.machine.current.Some? && Allowed(calls, allowSelf, w.machine.current.value, to, hooks);
            && w'.steps == (if taken then w.steps + [Record(w.machine.current.value, to)] else w.steps)
            && w'.machine.current == (if taken then Some(to) else w.machine.current)
            && (Executed(w.machine, to, hooks).1 <==> taken && !hooks.afterThrows)
  {
    hide Step, NoCollision, Run;
    RunReflects(maxHistory, recording, allowSelf, calls);
    RunKeepsTable(Begin(maxHistory, recording, allowSelf), calls, names);
    StepExactly(Run(Begin(maxHistory, recording, allowSelf), calls), calls, names, to, hooks);
  }

  lemma {:induction false} RunKeepsTable(w: World, calls: seq<Call>, names: set<string>)
    requires NoCollision(names) && TableOk(w) && StepsDefined(w)
    requires w.machine.states.Keys <= names && forall c :: c in calls ==> Names(c, names)
    ensures TableOk(Run(w, calls)) && Run(w, calls).machine.states.Keys <= names
    decreases |calls|
  {
    hide Step, NoCollision, TableOk;
    if calls != [] {
      StepKeepsDefined(w, calls[0], names);
      RunKeepsTable(Step(w, calls[0]), calls[1..], names);
    }
  }

  lemma StepExactly(w: World, calls: seq<Call>, names: set<string>, to: string, hooks: Hooks)
    requires NoCollision(names) && TableOk(w) && w.machine.states.Keys <= names && Reflects(w, calls) && to in names
    ensures var w' := Step(w, Execute(to, hooks));
            var taken := && w.machine.current.Some?
                         && Allowed(calls, w.machine.allowSelf, w.machine.current.value, to, hooks);
            && w'.steps == (if taken then w.steps + [Record(w.machine.current.value, to)] else w.steps)
            && w'.machine.current == (if taken then Some(to) else w.machine.current)
            && (Executed(w.machine, to, hooks).1 <==> taken && !hooks.afterThrows)
  {
    hide Key, Known, LockOf, Defined, Pushed;
    var m := w.machine;
    if m.current.Some? && Key(m.current.value, to) in m.transitions {
      var r := m.transitions[Key(m.current.value, to)];
      assert r == Record(m.current.value, to);
    }
  }

  /** The run that exposes a collision. */
  function CollidingRun(f: string, t: string, f': string, t': string): (calls: seq<Call>) {
    [AddState(f', false), AddState(t', false), AddState(f, false), AddState(t, false),
     AddTransition(f, t), Execute(t', Hooks(true, false, false))]
  }

  lemma {:induction false} RunUnfolds(w: World, calls: seq<Call>)
    requires |calls| == 6
    ensures Run(w, calls)
         == Step(Step(Step(Step(Step(Step(w, calls[0]), calls[1]), calls[2]), calls[3]), calls[4]), calls[5])
  {
    hide Step;
    RunOne(w, calls, 0);
    var w1 := Step(w, calls[0]);
    RunOne(w1, calls, 1);
    var w2 := Step(w1, calls[1]);
    RunOne(w2, calls, 2);
    var w3 := Step(w2, calls[2]);
    RunOne(w3, calls, 3);
    var w4 := Step(w3, calls[3]);
    RunOne(w4, calls, 4);
    var w5 := Step(w4, calls[4]);
    RunOne(w5, calls, 5);
    assert calls[0..] == calls && calls[6..] == [];
  }

  lemma RunOne(w: World, calls: seq<Call>, i: nat)
    requires i < |calls|
    ensures Run(w, calls[i..]) == Run(Step(w, calls[i]), calls[i + 1..])
  {
    hide Step;
    assert calls[i..][1..] == calls[i + 1..];
  }

  /** Four additions: the first state is current and nothing is locked. */
  lemma FourStates(a: string, b: string, c: string, d: string)
    requires a != "" && b != "" && c != "" && d != ""
    ensures var w := Step(Step(Step(Step(Begin(100, true, true),
                       AddState(a, false)), AddState(b, false)), AddState(c, false)), AddState(d, false));
            && w.steps == [] && w.registered == {} && w.machine.allowSelf && w.machine.recording
            && w.machine.current == Some(a) && w.machine.states.Keys == {a, b, c, d}
            && forall n :: n in w.machine.states ==> !w.machine.states[n]
  {
    var w1 := Step(Begin(100, true, true), AddState(a, false));
    assert w1.machine.states == map[a := false] && w1.machine.current == Some(a);
  }

  lemma UndefinedStep(w: World, f: string, t: string, f': string, t': string)
    requires Key(f, t) == Key(f', t') && (f != f' || t != t')
    requires w.steps == [] && w.registered == {} && w.machine.allowSelf
    requires w.machine.current == Some(f') && w.machine.states.Keys == {f', t', f, t}
    requires forall n :: n in w.machine.states ==> !w.machine.states[n]
    ensures !StepsDefined(Step(Step(w, AddTransition(f, t)), Execute(t', Hooks(true, false, false))))
  {
    hide Key, Pushed;
    var w5 := Step(w, AddTransition(f, t));
    assert w5.registered == {Record(f, t)};
    assert Moves(w5.machine, t', Hooks(true, false, false));
    assert Record(f', t') in Step(w5, Execute(t', Hooks(true, false, false))).steps;
  }

  lemma CollisionTakesUndefinedStep(f: string, t: string, f': string, t': string)
    requires f != "" && t != "" && f' != "" && t' != ""
    requires Key(f, t) == Key(f', t') && (f != f' || t != t')
    ensures !StepsDefined(Run(Begin(100, true, true), CollidingRun(f, t, f', t')))
  {
    hide Key, Step, StepsDefined;
    var calls := CollidingRun(f, t, f', t');
    var w := Begin(100, true, true);
    RunUnfolds(w, calls);
    FourStates(f', t', f, t);
    UndefinedStep(Step(Step(Step(Step(w, calls[0]), calls[1]), calls[2]), calls[3]), f, t, f', t');
  }

  /** Every step of every run over the given state names is a transition that was defined, if
      and only if no two pairs of these names share a key. */
  lemma StepsDefinedExactly(names: set<string>)
    requires "" !in names
    ensures (forall maxHistory, recording, allowSelf, calls ::
               (forall c :: c in calls ==> Names(c, names)) ==>
               StepsDefined(Run(Begin(maxHistory, recording, allowSelf), calls)))
       <==> NoCollision(names)
  {
    if NoCollision(names) {
      forall maxHistory, recording, allowSelf, calls | forall c :: c in calls ==> Names(c, names)
        ensures StepsDefined(Run(Begin(maxHistory, recording, allowSelf), calls))
      {
        RunKeepsDefined(Begin(maxHistory, recording, allowSelf), calls, names);
      }
    } else {
      var f, t, f', t' :| f in names && t in names && f' in names && t' in names
                          && Key(f, t) == Key(f', t') && !(f == f' && t == t');
      CollisionTakesUndefinedStep(f, t, f', t');
      assert forall c :: c in CollidingRun(f, t, f', t') ==> Names(c, names);
    }
  }

  /** The arrow occurs in the name. */
  ghost predicate HasArrow(s: string) {
    exists i :: 0 <= i < |s| - 1 && s[i] == '-' && s[i + 1] == '>'
  }

  /** Names without the arrow never collide. */
  lemma ArrowFreeNames(names: set<string>)
    requires forall s :: s in names ==> !HasArrow(s)
    ensures NoCollision(names)
  {
    forall f, t, f', t' | f in names && t in names && f' in names && t' in names && Key(f, t) == Key(f', t')
      ensures f == f' && t == t'
    {
      ArrowFree(f, t, f', t');
      ArrowFree(f', t', f, t);
      assert Key(f, t)[..|f|] == f && Key(f', t')[..|f'|] == f';
      assert Key(f, t)[|f| + 2..] == t && Key(f', t')[|f'| + 2..] == t';
    }
  }

  lemma ArrowFree(f: string, t: string, f': string, t': string)
    requires Key(f, t) == Key(f', t') && !HasArrow(f')
    ensures |f| >= |f'|
  {
    var key := Key(f, t);
    assert key[|f|] == '-' && key[|f| + 1] == '>' && Key(f', t')[|f'|] == '-';
    assert forall i :: 0 <= i < |f'| ==> Key(f', t')[i] == f'[i];
  }

  /** The states "a", "b->c", "a->b" and "c" collide: defining a transition from "a" to
      "b->c" lets the machine move from "a->b" to "c". */
  lemma ArrowNamesCollide()
    ensures Key("a", "b->c") == Key("a->b", "c")
  {
  }

  // ----- The mutable machine

  class StateMachine {
    var states: map<string, bool>
    var transitions: map<string, Record>
    var current: Option<string>
    var history: seq<Record>
    const maxHistory: int
    const recording: bool
    const allowSelf: bool

    ghost function Model(): (m: Machine)
      reads this
    {
      Machine(states, transitions, current, history, maxHistory, recording, allowSelf)
    }

    /** The current state is one of the registered states. */
    ghost predicate Valid()
      reads this
    {
      current.Some? ==> current.value in states
    }

    constructor (maxHistory: int, recording: bool, allowSelf: bool)
      ensures Valid() && Model() == Initial(maxHistory, recording, allowSelf)
    {
      states, transitions, current, history := map[], map[], None, [];
      this.maxHistory := if maxHistory == 0 then 100 else maxHistory;
      this.recording, this.allowSelf := recording, allowSelf;
    }

    method DoAddState(name: string, defer: bool) returns (ok: bool)
      requires Valid()
      modifies this`states, this`current
      ensures Valid()
      ensures (Model(), ok) == StateAdded(old(Model()), name, defer)
    {
      if name in states || name == "" {
        return false;
      }
      states := states[name := false];
      if current.None? && !defer {
        current := Some(name);
      }
      return true;
    }

    method DoAddTransition(from: string, to: string) returns (ok: bool)
      requires Valid()
      modifies this`transitions
      ensures Valid()
      ensures (Model(), ok) == TransitionAdded(old(Model()), from, to)
    {
      if from !in states || to !in states {
        return false;
      }
      transitions := transitions[Key(from, to) := Record(from, to)];
      return true;
    }

    method RecordTransition(step: Record)
      modifies this`history
      ensures history == Pushed(old(history), maxHistory, step)
    {
      history := history + [step];
      if |history| > maxHistory {
        history := history[1..];
      }
    }

    method ExecuteTransition(to: string, hooks: Hooks) returns (ok: bool)
      requires Valid()
      modifies this`current, this`history
      ensures Valid()
      ensures (Model(), ok) == Executed(old(Model()), to, hooks)
    {
      if to !in states || current.None? {
        return false;
      }
      var from := current.value;
      if Key(from, to) !in transitions {
        return false;
      }
      if !allowSelf && from == to {
        return false;
      }
      if states[from] || states[to] {
        return false;
      }
      if !hooks.guardAllows || hooks.beforeThrows {
        return false;
      }
      current := Some(to);
      if hooks.afterThrows {
        return false;
      }
      if recording {
        RecordTransition(Record(from, to));
      }
      return true;
    }
  }
}
