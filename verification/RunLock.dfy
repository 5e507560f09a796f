/** The run lock of `Sync` as a step machine: any number of callers, one mutex, one
    flag, and every interleaving of their steps. */
module RunLock {
  import opened Records

  /** Where a caller is. Between two of these points it takes one atomic step. */
  datatype Pc =
    | Idle        // not in a call
    | Entering    // about to lock the mutex
    | Checking    // holds the mutex, about to test the flag
    | Skipping    // holds the mutex, found the flag set, about to unlock and return
    | Claimed     // holds the mutex, has set the flag, about to unlock
    | Body        // runs the synchronisation
    | Leaving     // returned, failed or panicked: the deferred release is about to lock
    | Clearing    // holds the mutex, about to clear the flag
    | Unlocking   // holds the mutex, has cleared the flag
    | Peeking     // `IsRunning`: holds the mutex, about to read the flag and unlock

  datatype Event = Begin(caller: nat) | Work(caller: nat) | End(caller: nat)

  /** `log` records what the bodies do to the store and the calendars, and when they begin and end. */
  datatype State = State(pcs: seq<Pc>, mutex: Option<nat>, running: bool, log: seq<Event>)

  predicate HoldsMutex(pc: Pc) {
    pc in {Checking, Skipping, Claimed, Clearing, Unlocking, Peeking}
  }

  predicate OwnsFlag(pc: Pc) {
    pc in {Claimed, Body, Leaving, Clearing}
  }

  predicate Working(pc: Pc) {
    pc == Body
  }

  ghost predicate Init(s: State) {
    s.mutex == None && !s.running && s.log == [] && forall i :: 0 <= i < |s.pcs| ==> s.pcs[i] == Idle
  }

  function Goto(s: State, i: nat, pc: Pc): State
    requires i < |s.pcs|
  {
    s.(pcs := s.pcs[i := pc])
  }

  /** One step of caller `i`. */
  ghost predicate Next(s: State, i: nat, s': State) {
    i < |s.pcs| &&
    match s.pcs[i]
    case Idle => s' == Goto(s, i, Entering) || (s.mutex.None? && s' == Goto(s, i, Peeking).(mutex := Some(i)))
    case Entering => s.mutex.None? && s' == Goto(s, i, Checking).(mutex := Some(i))
    case Checking => if s.running then s' == Goto(s, i, Skipping) else s' == Goto(s, i, Claimed).(running := true)
    case Skipping => s' == Goto(s, i, Idle).(mutex := None)
    case Claimed => s' == Goto(s, i, Body).(mutex := None, log := s.log + [Begin(i)])
    case Body => s' == s.(log := s.log + [Work(i)]) || s' == Goto(s, i, Leaving).(log := s.log + [End(i)])
    case Leaving => s.mutex.None? && s' == Goto(s, i, Clearing).(mutex := Some(i))
    case Clearing => s' == Goto(s, i, Unlocking).(running := false)
    case Unlocking => s' == Goto(s, i, Idle).(mutex := None)
    case Peeking => s' == Goto(s, i, Idle).(mutex := None)
  }

  /** The log read as a sequence of runs: `None` if they overlap, otherwise the run still open. */
  datatype Reading = Overlap | Serial(open: Option<nat>)

  function Read(log: seq<Event>): Reading {
    if log == [] then Serial(None)
    else
      var front, e := Read(log[..|log| - 1]), log[|log| - 1];
      match e
      case Begin(i) => if front == Serial(None) then Serial(Some(i)) else Overlap
      case Work(i) => if front == Serial(Some(i)) then front else Overlap
      case End(i) => if front == Serial(Some(i)) then Serial(None) else Overlap
  }

  ghost predicate OneOwner(s: State) {
    forall i, j :: 0 <= i < |s.pcs| && 0 <= j < |s.pcs| && OwnsFlag(s.pcs[i]) && OwnsFlag(s.pcs[j]) ==> i == j
  }

  ghost predicate FlagMatches(s: State) {
    s.running <==> exists i :: 0 <= i < |s.pcs| && OwnsFlag(s.pcs[i])
  }

  ghost predicate MutexMatches(s: State) {
    forall i: nat :: s.mutex == Some(i) <==> i < |s.pcs| && HoldsMutex(s.pcs[i])
  }

  ghost predicate LogMatches(s: State) {
    && Read(s.log).Serial?
    && (forall i: nat :: Read(s.log) == Serial(Some(i)) <==> i < |s.pcs| && Working(s.pcs[i]))
  }

  ghost predicate Inv(s: State) {
    OneOwner(s) && FlagMatches(s) && MutexMatches(s) && LogMatches(s)
  }

  lemma ReadSnoc(log: seq<Event>, e: Event)
    ensures (log + [e])[..|log|] == log && (log + [e])[|log|] == e
  {
  }

  lemma MutexKept(s: State, i: nat, s': State)
    requires Inv(s) && Next(s, i, s')
    ensures MutexMatches(s')
  {
    forall j: nat ensures s'.mutex == Some(j) <==> j < |s'.pcs| && HoldsMutex(s'.pcs[j]) {
      assert s.mutex == Some(j) <==> j < |s.pcs| && HoldsMutex(s.pcs[j]);
      assert s.mutex == Some(i) <==> HoldsMutex(s.pcs[i]);
    }
  }

  lemma OwnerKept(s: State, i: nat, s': State)
    requires Inv(s) && Next(s, i, s')
    ensures OneOwner(s') && FlagMatches(s')
  {
    if OwnsFlag(s'.pcs[i]) {
      assert s'.running;
    }
    if s'.running && !OwnsFlag(s'.pcs[i]) {
      var k :| 0 <= k < |s.pcs| && OwnsFlag(s.pcs[k]);
      assert OwnsFlag(s'.pcs[k]);
    }
  }

  lemma LogKept(s: State, i: nat, s': State)
    requires Inv(s) && Next(s, i, s')
    ensures LogMatches(s')
  {
    if s'.log != s.log {
      ReadSnoc(s.log, s'.log[|s.log|]);
      if Read(s.log).open.Some? {
        var k := Read(s.log).open.value;
        assert Read(s.log) == Serial(Some(k)) && OwnsFlag(s.pcs[k]);
      }
      assert Read(s.log) == Serial(Some(i)) <==> Working(s.pcs[i]);
    }
    forall j: nat ensures Read(s'.log) == Serial(Some(j)) <==> j < |s'.pcs| && Working(s'.pcs[j]) {
      assert Read(s.log) == Serial(Some(j)) <==> j < |s.pcs| && Working(s.pcs[j]);
    }
  }

  /** What every step of every caller keeps. */
  lemma StepKeepsInv(s: State, i: nat, s': State)
    requires Inv(s) && Next(s, i, s')
    ensures Inv(s')
  {
    MutexKept(s, i, s');
    OwnerKept(s, i, s');
    LogKept(s, i, s');
  }

  ghost predicate Execution(states: seq<State>, callers: seq<nat>) {
    && |states| == |callers| + 1 && Init(states[0])
    && forall k :: 0 <= k < |callers| ==> Next(states[k], callers[k], states[k + 1])
  }

  lemma {:induction false} ReachableInv(states: seq<State>, callers: seq<nat>, k: nat)
    requires Execution(states, callers) && k < |states|
    ensures Inv(states[k])
  {
    if k > 0 {
      ReachableInv(states, callers, k - 1);
      StepKeepsInv(states[k - 1], callers[k - 1], states[k]);
    }
  }

  /** Safety. In every interleaving, at every moment: at most one body runs; the flag is set exactly while one caller owns
      it, from claiming it to clearing it; and the bodies' effects never interleave. */
  lemma AtMostOneBody(states: seq<State>, callers: seq<nat>, k: nat)
    requires Execution(states, callers) && k < |states|
    ensures forall i, j :: 0 <= i < |states[k].pcs| && 0 <= j < |states[k].pcs| && states[k].pcs[i] == states[k].pcs[j] == Body ==> i == j
    ensures states[k].running <==> exists i :: 0 <= i < |states[k].pcs| && OwnsFlag(states[k].pcs[i])
    ensures Read(states[k].log).Serial?
  {
    ReachableInv(states, callers, k);
  }

  // ---------------------------------------------------------------- skipped calls

  /** From moment `since` to moment `till`, both between its calls, caller `i` is at most in calls that find the flag set. */
  ghost predicate Skipped(states: seq<State>, i: nat, since: nat, till: nat) {
    && since <= till < |states|
    && (forall k :: since <= k <= till ==> i < |states[k].pcs| && states[k].pcs[i] in {Idle, Entering, Checking, Skipping})
    && states[since].pcs[i] == Idle && states[till].pcs[i] == Idle
  }

  /** The state as it were if caller `i` were not in a call. */
  function Without(s: State, i: nat): State
    requires i < |s.pcs|
  {
    s.(pcs := s.pcs[i := Idle], mutex := if s.mutex == Some(i) then None else s.mutex)
  }

  lemma WithoutIdle(s: State, i: nat)
    requires Inv(s) && i < |s.pcs| && s.pcs[i] == Idle
    ensures Without(s, i) == s
  {
    assert s.mutex == Some(i) <==> HoldsMutex(s.pcs[i]);
    assert s.pcs[i := Idle] == s.pcs;
  }

  /** The steps of a call that is skipped are not seen in it. */
  lemma OwnStepErased(s: State, i: nat, s': State)
    requires Inv(s) && Next(s, i, s')
    requires s.pcs[i] in {Idle, Entering, Checking, Skipping} && s'.pcs[i] in {Idle, Entering, Checking, Skipping}
    ensures Without(s, i) == Without(s', i)
  {
    assert s.mutex == Some(i) <==> HoldsMutex(s.pcs[i]);
    assert s.pcs[i := Idle] == s'.pcs[i := Idle];
  }

  /** All others can take in it the steps that they take. */
  lemma OtherStepKept(s: State, i: nat, c: nat, s': State)
    requires Inv(s) && Next(s, c, s') && i < |s.pcs| && c != i
    ensures i < |s'.pcs| && Next(Without(s, i), c, Without(s', i))
  {
    assert s.mutex == Some(c) <==> HoldsMutex(s.pcs[c]);
    assert s'.pcs == s.pcs[c := s'.pcs[c]];
    assert s'.pcs[i := Idle] == s.pcs[i := Idle][c := s'.pcs[c]];
    assert s.pcs[i := Idle][c] == s.pcs[c];
  }

  // What is left of a sequence of steps when those that change nothing in what is shown are taken out.

  ghost predicate Chain<S>(states: seq<S>, callers: seq<nat>, next: (S, nat, S) -> bool) {
    |states| == |callers| + 1 && forall k :: 0 <= k < |callers| ==> next(states[k], callers[k], states[k + 1])
  }

  ghost predicate StepsOrStands<S(!new)>(shown: seq<S>, callers: seq<nat>, erased: seq<bool>, next: (S, nat, S) -> bool) {
    && |shown| == |callers| + 1 == |erased| + 1
    && forall k :: 0 <= k < |callers| ==> if erased[k] then shown[k + 1] == shown[k] else next(shown[k], callers[k], shown[k + 1])
  }

  function KeptCallers(callers: seq<nat>, erased: seq<bool>, n: nat): seq<nat>
    requires n <= |callers| == |erased|
  {
    if n == 0 then []
    else KeptCallers(callers, erased, n - 1) + if erased[n - 1] then [] else [callers[n - 1]]
  }

  function KeptStates<S>(shown: seq<S>, erased: seq<bool>, n: nat): (kept: seq<S>)
    requires n <= |erased| && |shown| == |erased| + 1
    ensures kept != [] && kept[0] == shown[0]
  {
    if n == 0 then [shown[0]]
    else KeptStates(shown, erased, n - 1) + if erased[n - 1] then [] else [shown[n]]
  }

  lemma ChainSnoc<S>(states: seq<S>, callers: seq<nat>, next: (S, nat, S) -> bool, c: nat, s: S)
    requires Chain(states, callers, next) && next(states[|callers|], c, s)
    ensures Chain(states + [s], callers + [c], next)
  {
    var ss, cs := states + [s], callers + [c];
    forall k | 0 <= k < |cs| ensures next(ss[k], cs[k], ss[k + 1]) {
      if k < |callers| {
        assert next(states[k], callers[k], states[k + 1]);
      }
    }
  }

  lemma {:induction false} KeptChain<S(!new)>(shown: seq<S>, callers: seq<nat>, erased: seq<bool>, next: (S, nat, S) -> bool, n: nat)
    requires StepsOrStands(shown, callers, erased, next) && n <= |callers|
    ensures var kept, who := KeptStates(shown, erased, n), KeptCallers(callers, erased, n);
            Chain(kept, who, next) && kept[|kept| - 1] == shown[n]
  {
    if n > 0 {
      var kept, who := KeptStates(shown, erased, n - 1), KeptCallers(callers, erased, n - 1);
      KeptChain(shown, callers, erased, next, n - 1);
      if erased[n - 1] {
        assert kept + [] == kept && who + [] == who;
      } else {
        ChainSnoc(kept, who, next, callers[n - 1], shown[n]);
      }
    }
  }

  /** What is shown of an execution: the caller out of its call from `since` to `till`. */
  function Shown(states: seq<State>, i: nat, since: nat, till: nat): (shown: seq<State>)
    requires forall k :: since <= k <= till && k < |states| ==> i < |states[k].pcs|
    ensures |shown| == |states|
  {
    seq(|states|, k requires 0 <= k < |states| => if since <= k <= till then Without(states[k], i) else states[k])
  }

  function Erased(callers: seq<nat>, i: nat, since: nat, till: nat): (erased: seq<bool>)
    ensures |erased| == |callers|
  {
    seq(|callers|, k requires 0 <= k < |callers| => since <= k < till && callers[k] == i)
  }

  lemma ShownAt(states: seq<State>, callers: seq<nat>, i: nat, since: nat, till: nat, k: nat)
    requires Execution(states, callers) && Skipped(states, i, since, till) && k < |states|
    ensures var s := Shown(states, i, since, till)[k];
            s.log == states[k].log && s.running == states[k].running && (k <= since || till <= k ==> s == states[k])
  {
    if since <= k <= till && (k == since || k == till) {
      ReachableInv(states, callers, k);
      WithoutIdle(states[k], i);
    }
  }

  /** One step of the execution is a step of what is shown, or not seen there at all. */
  lemma ShownStep(states: seq<State>, callers: seq<nat>, i: nat, since: nat, till: nat, k: nat)
    requires Execution(states, callers) && Skipped(states, i, since, till) && k < |callers|
    ensures var s, s' := Shown(states, i, since, till)[k], Shown(states, i, since, till)[k + 1];
            if Erased(callers, i, since, till)[k] then s' == s else Next(s, callers[k], s')
  {
    assert Next(states[k], callers[k], states[k + 1]);
    if since <= k < till {
      ReachableInv(states, callers, k);
      if callers[k] == i {
        OwnStepErased(states[k], i, states[k + 1]);
      } else {
        OtherStepKept(states[k], i, callers[k], states[k + 1]);
      }
    } else {
      ShownAt(states, callers, i, since, till, k);
      ShownAt(states, callers, i, since, till, k + 1);
    }
  }

  /** Skipped calls can be erased. Take their steps out of an execution: what is left is an execution, of the same steps of everybody
      else, and after as many of the original steps as one likes log and flag are the same, and the whole state once the calls are over. */
  lemma {:induction false} SkippedHasNoEffect(states: seq<State>, callers: seq<nat>, i: nat, since: nat, till: nat, n: nat)
    requires Execution(states, callers) && Skipped(states, i, since, till) && n <= |callers|
    ensures var erased := Erased(callers, i, since, till);
            var kept := KeptStates(Shown(states, i, since, till), erased, n);
            && Execution(kept, KeptCallers(callers, erased, n))
            && kept[|kept| - 1].log == states[n].log && kept[|kept| - 1].running == states[n].running
            && (n >= till ==> kept[|kept| - 1] == states[n])
  {
    var shown, erased := Shown(states, i, since, till), Erased(callers, i, since, till);
    var next := (s: State, c: nat, s': State) => Next(s, c, s');
    forall k | 0 <= k < |callers| ensures if erased[k] then shown[k + 1] == shown[k] else next(shown[k], callers[k], shown[k + 1]) {
      ShownStep(states, callers, i, since, till, k);
    }
    KeptChain(shown, callers, erased, next, n);
    ShownAt(states, callers, i, since, till, 0);
    ShownAt(states, callers, i, since, till, n);
    ChainExecutes(KeptStates(shown, erased, n), KeptCallers(callers, erased, n), next);
  }

  lemma ChainExecutes(states: seq<State>, callers: seq<nat>, next: (State, nat, State) -> bool)
    requires Chain(states, callers, next) && Init(states[0]) && forall s, c: nat, s' :: next(s, c, s') ==> Next(s, c, s')
    ensures Execution(states, callers)
  {
  }

  /** Some step of caller `i` is possible. */
  ghost predicate CanStep(s: State, i: nat) {
    exists s' :: Next(s, i, s')
  }

  /** The lock is never lost: in every reachable state the holder of the mutex, if there is one, can take a step, and when
      there is none every caller can. */
  lemma NeverStuck(states: seq<State>, callers: seq<nat>, k: nat, i: nat)
    requires Execution(states, callers) && k < |states| && i < |states[k].pcs|
    requires states[k].mutex.None? || states[k].mutex == Some(i)
    ensures CanStep(states[k], i)
  {
    ReachableInv(states, callers, k);
    var s := states[k];
    assert s.mutex == Some(i) <==> HoldsMutex(s.pcs[i]);
    var s' := match s.pcs[i]
      case Idle => Goto(s, i, Entering)
      case Entering => Goto(s, i, Checking).(mutex := Some(i))
      case Checking => if s.running then Goto(s, i, Skipping) else Goto(s, i, Claimed).(running := true)
      case Skipping => Goto(s, i, Idle).(mutex := None)
      case Claimed => Goto(s, i, Body).(mutex := None, log := s.log + [Begin(i)])
      case Body => s.(log := s.log + [Work(i)])
      case Leaving => Goto(s, i, Clearing).(mutex := Some(i))
      case Clearing => Goto(s, i, Unlocking).(running := false)
      case Unlocking => Goto(s, i, Idle).(mutex := None)
      case Peeking => Goto(s, i, Idle).(mutex := None);
    assert Next(s, i, s');
  }

  /** Every way out of a body gives the flag back: once all calls have returned it is clear. */
  lemma AllReturnedIsClear(states: seq<State>, callers: seq<nat>, k: nat)
    requires Execution(states, callers) && k < |states|
    requires forall i :: 0 <= i < |states[k].pcs| ==> states[k].pcs[i] == Idle
    ensures !states[k].running && states[k].mutex == None && Read(states[k].log) == Serial(None)
  {
    ReachableInv(states, callers, k);
    var s := states[k];
    forall i: nat ensures s.mutex != Some(i) && Read(s.log) != Serial(Some(i)) {
      assert s.mutex == Some(i) <==> i < |s.pcs| && HoldsMutex(s.pcs[i]);
      assert Read(s.log) == Serial(Some(i)) <==> i < |s.pcs| && Working(s.pcs[i]);
    }
  }
}
