/** gcancellable.c: cancel, connect, disconnect, reset and the poll descriptor, under one mutex and one
    condition variable, with handlers run outside the lock.  Each section under the mutex, and each
    call of a handler by the signal emission, is one atomic step; any number of threads interleave. */
module Cancellable {
  import opened Wrappers
  import opened Sequences

  /** Where a thread is between two atomic steps.  A call made from inside a handler counts as a
      further thread. */
  datatype Place =
    | Begun                                          // cancel, before its signal emission
    | Emitting(todo: seq<nat>, current: Option<nat>) // cancel, in its signal emission
    | Disconnecting(handler: nat, notified: bool)    // in g_cond_wait
    | Resetting(notified: bool)                      // in g_cond_wait
    | Calling(callback: nat)                         // connect, running its callback at once
  {
    predicate Cancels() { Begun? || Emitting? }
    predicate Waits() { Disconnecting? || Resetting? }
    predicate Runs(k: nat) { (Calling? && callback == k) || (Emitting? && current == Some(k)) }
  }

  datatype State = State(
    cancelled: bool,
    running: bool,                  // cancelled_running
    waiting: bool,                  // cancelled_running_waiting
    fds: nat,                       // fd_refcount
    wakeup: Option<bool>,           // whether it is signalled
    handlers: seq<nat>,             // connected handlers, oldest first
    threads: map<nat, Place>,
    emitter: Option<nat>,           // the thread whose cancel is in flight
    connects: nat,                  // connect calls so far; each call's number names its callback
    direct: map<nat, nat>,          // callbacks that connect itself called, and in which cancellation
    gone: set<nat>,                 // handlers whose disconnect has returned
    ran: multiset<(nat, nat)>,      // (cancellation, callback) for each start of a callback
    cancels: nat,                   // cancellations so far
    resets: nat)                    // cancellations undone so far

  datatype Step =
    | Cancel(t: nat) | EmitBegin(t: nat) | EmitCall(t: nat) | EmitReturn(t: nat) | CancelEnd(t: nat)
    | Connect(t: nat) | ConnectReturn(t: nat)
    | Disconnect(t: nat, handler: nat) | Reset(t: nat) | Resume(t: nat)
    | MakePollfd | ReleaseFd

  const INIT := State(false, false, false, 0, None, [], map[], None, 0, map[], {}, multiset{}, 0, 0)

  predicate Enabled(s: State, step: Step) {
    match step
    case Cancel(t) => t !in s.threads
    case EmitBegin(t) => t in s.threads && s.threads[t].Begun?
    case EmitCall(t) =>
      t in s.threads && s.threads[t].Emitting? && s.threads[t].todo != [] && s.threads[t].current.None?
    case EmitReturn(t) => t in s.threads && s.threads[t].Emitting? && s.threads[t].current.Some?
    case CancelEnd(t) => t in s.threads && s.threads[t] == Emitting([], None)
    case Connect(t) => t !in s.threads
    case ConnectReturn(t) => t in s.threads && s.threads[t].Calling?
    case Disconnect(t, h) => t !in s.threads && h in s.handlers
    case Reset(t) => t !in s.threads
    case Resume(t) => t in s.threads && s.threads[t].Waits()
    case MakePollfd => true
    case ReleaseFd => s.fds > 0
  }

  function Signal(wakeup: Option<bool>, on: bool): Option<bool> {
    if wakeup.Some? then Some(on) else None
  }

  function NotifyAll(threads: map<nat, Place>): map<nat, Place> {
    map t | t in threads ::
      match threads[t]
      case Disconnecting(h, _) => Disconnecting(h, true)
      case Resetting(_) => Resetting(true)
      case p => p
  }

  /** One pass through the wait loop of disconnect: wait (again), or disconnect and return. */
  function TryDisconnect(s: State, t: nat, h: nat): State {
    if s.running then s.(waiting := true, threads := s.threads[t := Disconnecting(h, false)])
    else s.(handlers := Without(s.handlers, h), gone := s.gone + {h}, threads := s.threads - {t})
  }

  /** One pass through the wait loop of reset. */
  function TryReset(s: State, t: nat): State {
    if s.running then s.(waiting := true, threads := s.threads[t := Resetting(false)])
    else
      var u := s.(threads := s.threads - {t});
      if s.cancelled then u.(wakeup := Signal(s.wakeup, false), cancelled := false, resets := s.resets + 1)
      else u
  }

  function Next(s: State, step: Step): State
    requires Enabled(s, step)
  {
    match step
    case Cancel(t) =>
      if s.cancelled then s
      else s.(cancelled := true, running := true, wakeup := Signal(s.wakeup, true),
              threads := s.threads[t := Begun], emitter := Some(t), cancels := s.cancels + 1)
    case EmitBegin(t) => s.(threads := s.threads[t := Emitting(s.handlers, None)])
    case EmitCall(t) =>
      var h := s.threads[t].todo[0];
      var rest := s.threads[t].todo[1..];
      if h in s.handlers then
        s.(threads := s.threads[t := Emitting(rest, Some(h))], ran := s.ran + multiset{(s.cancels, h)})
      else
        s.(threads := s.threads[t := Emitting(rest, None)])
    case EmitReturn(t) => s.(threads := s.threads[t := s.threads[t].(current := None)])
    case CancelEnd(t) =>
      var rest := s.threads - {t};
      s.(running := false, waiting := false, emitter := None,
         threads := if s.waiting then NotifyAll(rest) else rest)
    case Connect(t) =>
      var u := s.(connects := s.connects + 1);
      if s.cancelled then
        u.(threads := s.threads[t := Calling(s.connects)], direct := s.direct[s.connects := s.cancels],
           ran := s.ran + multiset{(s.cancels, s.connects)})
      else
        u.(handlers := s.handlers + [s.connects])
    case ConnectReturn(t) => s.(threads := s.threads - {t})
    case Disconnect(t, h) => TryDisconnect(s, t, h)
    case Reset(t) => TryReset(s, t)
    case Resume(t) =>
      (match s.threads[t]
       case Disconnecting(h, _) => TryDisconnect(s, t, h)
       case _ => TryReset(s, t))
    case MakePollfd =>
      s.(fds := s.fds + 1, wakeup := if s.wakeup.None? then Some(s.cancelled) else s.wakeup)
    case ReleaseFd =>
      s.(fds := s.fds - 1, wakeup := if s.fds == 1 then None else s.wakeup)
  }

  // ----- invariant -----

  /** The emission in flight owes a call to exactly the handlers that have not had one yet. */
  predicate PlaceOk(s: State, p: Place) {
    match p
    case Begun => s.running && forall h :: h in s.handlers ==> (s.cancels, h) !in s.ran
    case Emitting(todo, current) =>
      && s.running && Distinct(todo)
      && (forall h :: h in todo ==> h in s.handlers)
      && (forall h :: h in s.handlers ==> (h in todo <==> (s.cancels, h) !in s.ran))
      && (current.Some? ==> current.value in s.handlers)
    case Disconnecting(h, notified) =>
      (notified || (s.running && s.waiting)) && (h in s.handlers || h in s.gone)
    case Resetting(notified) => notified || (s.running && s.waiting)
    case Calling(k) => k < s.connects && k !in s.handlers && k !in s.gone
  }

  predicate RanOk(s: State, x: (nat, nat)) {
    1 <= x.0 <= s.cancels && x.1 < s.connects && s.ran[x] <= 1
  }

  /** One cancel is in flight exactly while cancelled_running is set. */
  predicate FlightOk(s: State) {
    && (s.running ==> s.cancelled)
    && s.cancels == s.resets + (if s.cancelled then 1 else 0)
    && (s.running <==> s.emitter.Some?)
    && (s.emitter.Some? ==> s.emitter.value in s.threads)
    && (forall t :: t in s.threads ==> (s.threads[t].Cancels() <==> s.emitter == Some(t)))
  }

  /** Each connect call is accounted for as connected, disconnected or answered at once. */
  predicate HandlersOk(s: State) {
    && Distinct(s.handlers)
    && (forall h :: h in s.handlers ==> h < s.connects && h !in s.gone)
    && (forall h :: h in s.gone ==> h < s.connects)
    && (forall k :: 0 <= k < s.connects ==> k in s.handlers || k in s.gone || k in s.direct)
    && (forall k :: k in s.direct ==> (s.direct[k], k) in s.ran)
    && (s.cancelled && !s.running ==> forall h :: h in s.handlers ==> (s.cancels, h) in s.ran)
  }

  predicate WakeupOk(s: State) {
    s.wakeup == if s.fds == 0 then None else Some(s.cancelled)
  }

  predicate Inv(s: State) {
    && FlightOk(s) && HandlersOk(s) && WakeupOk(s)
    && (forall t :: t in s.threads ==> PlaceOk(s, s.threads[t]))
    && (forall x :: x in s.ran ==> RanOk(s, x))
  }

  lemma DisconnectKeepsInv(s: State, t: nat, h: nat)
    requires Inv(s) && (t in s.threads ==> s.threads[t].Waits())
    requires h in s.handlers || h in s.gone
    ensures Inv(TryDisconnect(s, t, h))
  {
    WithoutIsGone(s.handlers, h);
    var n := TryDisconnect(s, t, h);
    forall x | x in n.threads ensures PlaceOk(n, n.threads[x]) {
      if x != t { assert PlaceOk(s, s.threads[x]); }
    }
  }

  lemma ResetKeepsInv(s: State, t: nat)
    requires Inv(s) && (t in s.threads ==> s.threads[t].Waits())
    ensures Inv(TryReset(s, t))
  {
    var n := TryReset(s, t);
    forall x | x in n.threads ensures PlaceOk(n, n.threads[x]) {
      if x != t { assert PlaceOk(s, s.threads[x]); }
    }
  }

  lemma CancelKeepsInv(s: State, t: nat)
    requires Inv(s) && Enabled(s, Cancel(t))
    ensures Inv(Next(s, Cancel(t)))
  {
  }

  lemma EmitBeginKeepsInv(s: State, t: nat)
    requires Inv(s) && Enabled(s, EmitBegin(t))
    ensures Inv(Next(s, EmitBegin(t)))
  {
    OthersKeep(s, Next(s, EmitBegin(t)), t);
  }

  lemma EmitReturnKeepsInv(s: State, t: nat)
    requires Inv(s) && Enabled(s, EmitReturn(t))
    ensures Inv(Next(s, EmitReturn(t)))
  {
    OthersKeep(s, Next(s, EmitReturn(t)), t);
  }

  /** A step that only moves one thread keeps every other thread's place sound. */
  lemma OthersKeep(s: State, n: State, t: nat)
    requires Inv(s) && t in s.threads && n == s.(threads := n.threads)
    requires t in n.threads && n.threads == s.threads[t := n.threads[t]]
    requires PlaceOk(s, n.threads[t])
    ensures forall x :: x in n.threads ==> PlaceOk(n, n.threads[x])
    ensures forall x :: x in n.ran ==> RanOk(n, x)
  {
    forall x | x in n.threads ensures PlaceOk(n, n.threads[x]) {
      if x != t { assert PlaceOk(s, s.threads[x]); }
    }
    forall x | x in n.ran ensures RanOk(n, x) { assert RanOk(s, x); }
  }

  lemma CancelEndKeepsInv(s: State, t: nat)
    requires Inv(s) && Enabled(s, CancelEnd(t))
    ensures Inv(Next(s, CancelEnd(t)))
  {
    var n := Next(s, CancelEnd(t));
    assert PlaceOk(s, s.threads[t]);
    forall x | x in n.threads ensures PlaceOk(n, n.threads[x]) { assert PlaceOk(s, s.threads[x]); }
    forall x | x in n.ran ensures RanOk(n, x) { assert RanOk(s, x); }
  }

  lemma EmitCallKeepsInv(s: State, t: nat)
    requires Inv(s) && Enabled(s, EmitCall(t))
    ensures Inv(Next(s, EmitCall(t)))
  {
    var n := Next(s, EmitCall(t));
    var todo := s.threads[t].todo;
    assert PlaceOk(s, s.threads[t]) && todo == [todo[0]] + todo[1..];
    assert todo[0] in s.handlers && (s.cancels, todo[0]) !in s.ran;
    forall x | x in n.threads ensures PlaceOk(n, n.threads[x]) {
      assert PlaceOk(s, s.threads[x]);
    }
    forall x | x in n.ran ensures RanOk(n, x) {
      assert x in s.ran || x == (s.cancels, todo[0]);
    }
  }

  lemma ConnectKeepsInv(s: State, t: nat)
    requires Inv(s) && Enabled(s, Connect(t))
    ensures Inv(Next(s, Connect(t)))
  {
    var n := Next(s, Connect(t));
    assert FlightOk(n);
    assert (s.cancels, s.connects) !in s.ran by {
      assert (s.cancels, s.connects) in s.ran ==> RanOk(s, (s.cancels, s.connects));
    }
    forall x | x in n.ran ensures RanOk(n, x) {
      if x in s.ran { assert RanOk(s, x); } else { assert x == (s.cancels, s.connects); }
    }
    forall x | x in n.threads ensures PlaceOk(n, n.threads[x]) {
      if x != t { assert PlaceOk(s, s.threads[x]); }
    }
    ConnectAccounted(s, t);
  }

  lemma ConnectAccounted(s: State, t: nat)
    requires FlightOk(s) && HandlersOk(s) && Enabled(s, Connect(t))
    ensures HandlersOk(Next(s, Connect(t)))
  {
    var n := Next(s, Connect(t));
    assert forall i :: 0 <= i < |s.handlers| ==> s.handlers[i] in s.handlers;
    forall j | j in n.direct ensures (n.direct[j], j) in n.ran {
      if j != s.connects || !s.cancelled { assert (s.direct[j], j) in s.ran; }
    }
  }

  lemma StepKeepsInv(s: State, step: Step)
    requires Inv(s) && Enabled(s, step)
    ensures Inv(Next(s, step))
  {
    match step
    case Connect(t) => ConnectKeepsInv(s, t);
    case EmitCall(t) => EmitCallKeepsInv(s, t);
    case Disconnect(t, h) => DisconnectKeepsInv(s, t, h);
    case Reset(t) => ResetKeepsInv(s, t);
    case Resume(t) => ResumeKeepsInv(s, t);
    case ConnectReturn(t) => ReturnKeepsInv(s, t);
    case MakePollfd => DescriptorKeepsInv(s, step);
    case ReleaseFd => DescriptorKeepsInv(s, step);
    case Cancel(t) => CancelKeepsInv(s, t);
    case CancelEnd(t) => CancelEndKeepsInv(s, t);
    case EmitBegin(t) => EmitBeginKeepsInv(s, t);
    case EmitReturn(t) => EmitReturnKeepsInv(s, t);
  }

  lemma ResumeKeepsInv(s: State, t: nat)
    requires Inv(s) && Enabled(s, Resume(t))
    ensures Inv(Next(s, Resume(t)))
  {
    assert PlaceOk(s, s.threads[t]);
    if s.threads[t].Disconnecting? {
      DisconnectKeepsInv(s, t, s.threads[t].handler);
    } else {
      ResetKeepsInv(s, t);
    }
  }

  lemma ReturnKeepsInv(s: State, t: nat)
    requires Inv(s) && Enabled(s, ConnectReturn(t))
    ensures Inv(Next(s, ConnectReturn(t)))
  {
    PlacesKept(s, Next(s, ConnectReturn(t)));
  }

  lemma DescriptorKeepsInv(s: State, step: Step)
    requires Inv(s) && Enabled(s, step) && (step == MakePollfd || step == ReleaseFd)
    ensures Inv(Next(s, step))
  {
    PlacesKept(s, Next(s, step));
  }

  /** Steps that touch neither handlers nor the cancellation keep every thread's place sound. */
  lemma PlacesKept(s: State, n: State)
    requires Inv(s)
    requires n.(threads := s.threads, fds := s.fds, wakeup := s.wakeup) == s
    requires forall x :: x in n.threads ==> x in s.threads && n.threads[x] == s.threads[x]
    ensures forall x :: x in n.threads ==> PlaceOk(n, n.threads[x])
    ensures forall x :: x in n.ran ==> RanOk(n, x)
  {
  }

  // ----- whole runs -----

  ghost predicate Runs(s: State, steps: seq<Step>, n: State)
    decreases |steps|
  {
    if steps == [] then s == n
    else Enabled(s, steps[0]) && Runs(Next(s, steps[0]), steps[1..], n)
  }

  lemma {:induction false} RunKeepsInv(s: State, steps: seq<Step>, n: State)
    requires Inv(s) && Runs(s, steps, n)
    ensures Inv(n)
    decreases |steps|
  {
    if steps != [] {
      StepKeepsInv(s, steps[0]);
      RunKeepsInv(Next(s, steps[0]), steps[1..], n);
    }
  }

  /** How often a callback has been started, over all cancellations. */
  ghost function Times(s: State, k: nat): nat {
    TimesUpTo(s.ran, s.cancels, k)
  }

  ghost function TimesUpTo(ran: multiset<(nat, nat)>, e: nat, k: nat): nat {
    if e == 0 then 0 else ran[(e, k)] + TimesUpTo(ran, e - 1, k)
  }

  lemma {:induction false} TimesBounded(s: State, e: nat, k: nat)
    requires Inv(s) && e <= s.cancels
    ensures TimesUpTo(s.ran, e, k) <= e
  {
    if e > 0 {
      assert (e, k) in s.ran ==> RanOk(s, (e, k));
      TimesBounded(s, e - 1, k);
    }
  }

  // ----- how often a callback is called -----

  /** The step is a cancellation that finds callback k connected, or connects k while cancelled. */
  predicate Finds(s: State, step: Step, k: nat) {
    match step
    case Cancel(_) => !s.cancelled && k in s.handlers
    case Connect(_) => s.cancelled && k == s.connects
    case _ => false
  }

  /** The number of such steps in a run. */
  ghost function Found(s: State, steps: seq<Step>, k: nat): nat
    decreases |steps|
  {
    if steps == [] || !Enabled(s, steps[0]) then 0
    else (if Finds(s, steps[0], k) then 1 else 0) + Found(Next(s, steps[0]), steps[1..], k)
  }

  /** The emission in flight has still to call k. */
  predicate Owes(s: State, k: nat) {
    && s.emitter.Some? && s.emitter.value in s.threads
    && match s.threads[s.emitter.value]
       case Begun => k in s.handlers
       case Emitting(todo, _) => k in todo
       case _ => false
  }

  /** The calls of k that have been made or are owed. */
  ghost function Due(s: State, k: nat): nat {
    Times(s, k) + if Owes(s, k) then 1 else 0
  }

  lemma {:induction false} TimesAdd(ran: multiset<(nat, nat)>, e: nat, k: nat, x: (nat, nat))
    ensures TimesUpTo(ran + multiset{x}, e, k) ==
            TimesUpTo(ran, e, k) + if x.1 == k && 1 <= x.0 <= e then 1 else 0
  {
    if e > 0 {
      TimesAdd(ran, e - 1, k, x);
    }
  }

  lemma DueAtCancel(s: State, t: nat, k: nat)
    requires Inv(s) && Enabled(s, Cancel(t))
    ensures Due(Next(s, Cancel(t)), k) == Due(s, k) + if Finds(s, Cancel(t), k) then 1 else 0
  {
    if !s.cancelled {
      var next: (nat, nat) := (s.cancels + 1, k);
      assert !RanOk(s, next);
      assert next !in s.ran;
      assert TimesUpTo(s.ran, s.cancels + 1, k) == s.ran[(s.cancels + 1, k)] + TimesUpTo(s.ran, s.cancels, k);
    }
  }

  lemma DueAtCall(s: State, t: nat, k: nat)
    requires Inv(s) && Enabled(s, EmitCall(t))
    ensures Due(Next(s, EmitCall(t)), k) == Due(s, k)
  {
    var todo := s.threads[t].todo;
    assert PlaceOk(s, s.threads[t]) && todo == [todo[0]] + todo[1..];
    assert todo[0] in s.handlers && s.emitter == Some(t);
    TimesAdd(s.ran, s.cancels, k, (s.cancels, todo[0]));
  }

  lemma DueAtConnect(s: State, t: nat, k: nat)
    requires Inv(s) && Enabled(s, Connect(t))
    ensures Due(Next(s, Connect(t)), k) == Due(s, k) + if Finds(s, Connect(t), k) then 1 else 0
  {
    if s.cancelled {
      TimesAdd(s.ran, s.cancels, k, (s.cancels, s.connects));
    }
  }

  /** Nothing else makes or owes a call. */
  lemma DueOtherwise(s: State, step: Step, k: nat)
    requires Inv(s) && Enabled(s, step) && !step.Cancel? && !step.EmitCall? && !step.Connect?
    ensures Due(Next(s, step), k) == Due(s, k)
  {
  }

  lemma DueStep(s: State, step: Step, k: nat)
    requires Inv(s) && Enabled(s, step)
    ensures Due(Next(s, step), k) == Due(s, k) + if Finds(s, step, k) then 1 else 0
  {
    match step
    case Cancel(t) => DueAtCancel(s, t, k);
    case EmitCall(t) => DueAtCall(s, t, k);
    case Connect(t) => DueAtConnect(s, t, k);
    case _ => DueOtherwise(s, step, k);
  }

  lemma {:induction false} DueIsFound(s: State, steps: seq<Step>, n: State, k: nat)
    requires Inv(s) && Runs(s, steps, n)
    ensures Due(n, k) == Due(s, k) + Found(s, steps, k)
    decreases |steps|
  {
    if steps != [] {
      StepKeepsInv(s, steps[0]);
      DueStep(s, steps[0], k);
      DueIsFound(Next(s, steps[0]), steps[1..], n, k);
    }
  }

  /** In every run, resets included, a callback has been called exactly once for each cancellation that
      found it connected and once if it was connected while cancelled; only a call that the emission
      in flight still owes is missing.  So the promise of connect holds exactly if that number is at
      most one. */
  lemma CalledWhenFound(steps: seq<Step>, n: State, k: nat)
    requires Runs(INIT, steps, n)
    ensures Times(n, k) + (if Owes(n, k) then 1 else 0) == Found(INIT, steps, k)
    ensures !n.running ==> Times(n, k) == Found(INIT, steps, k)
    ensures !n.running ==> (Times(n, k) <= 1 <==> Found(INIT, steps, k) <= 1)
  {
    DueIsFound(INIT, steps, n, k);
    RunKeepsInv(INIT, steps, n);
  }

  predicate Resetless(steps: seq<Step>) {
    forall i :: 0 <= i < |steps| ==> !steps[i].Reset?
  }

  predicate NoneResetting(s: State) {
    forall t :: t in s.threads ==> !s.threads[t].Resetting?
  }

  lemma NoResetStep(s: State, step: Step)
    requires Enabled(s, step) && !step.Reset? && NoneResetting(s)
    ensures NoneResetting(Next(s, step)) && Next(s, step).resets == s.resets
  {
  }

  lemma {:induction false} NoReset(s: State, steps: seq<Step>, n: State)
    requires Runs(s, steps, n) && NoneResetting(s) && Resetless(steps)
    ensures n.resets == s.resets
    decreases |steps|
  {
    if steps != [] {
      NoResetStep(s, steps[0]);
      NoReset(Next(s, steps[0]), steps[1..], n);
    }
  }

  /** Without a reset: at most once, and exactly once when the cancellation has completed and the
      callback was never disconnected. */
  lemma ExactlyOnce(steps: seq<Step>, n: State, k: nat)
    requires Runs(INIT, steps, n) && Resetless(steps)
    ensures Times(n, k) <= 1
    ensures n.cancelled && !n.running && k < n.connects && k !in n.gone ==> Times(n, k) == 1
    ensures !n.cancelled ==> Times(n, k) == 0
  {
    RunKeepsInv(INIT, steps, n);
    NoReset(INIT, steps, n);
    TimesBounded(n, n.cancels, k);
    if n.cancelled && !n.running && k < n.connects && k !in n.gone { RanWhenDone(n, k); }
  }

  /** After a first cancellation every callback that was not disconnected has had its call. */
  lemma RanWhenDone(n: State, k: nat)
    requires Inv(n) && n.cancels == 1 && n.cancelled && !n.running && k < n.connects && k !in n.gone
    ensures Times(n, k) == 1
  {
    if k in n.direct { assert RanOk(n, (n.direct[k], k)); }
    assert (1, k) in n.ran;
    assert RanOk(n, (1, k));
    assert TimesUpTo(n.ran, 0, k) == 0;
  }

  /** A call of disconnect for handler h gets through in this step. */
  predicate Disconnects(s: State, step: Step, h: nat)
    requires Enabled(s, step)
  {
    && !s.running
    && match step
       case Disconnect(_, k) => k == h
       case Resume(t) => s.threads[t].Disconnecting? && s.threads[t].handler == h
       case _ => false
  }

  /** When disconnect has returned, its handler is not running, is in no emission still to come, and
      is never started again, whatever happens. */
  lemma DisconnectIsFinal(steps: seq<Step>, s: State, step: Step, more: seq<Step>, n: State, h: nat)
    requires Runs(INIT, steps, s) && Enabled(s, step) && Disconnects(s, step, h)
    requires Runs(Next(s, step), more, n)
    ensures h !in n.handlers
    ensures forall t :: t in n.threads ==> !n.threads[t].Runs(h) && (n.threads[t].Emitting? ==> h !in n.threads[t].todo)
    ensures forall e :: n.ran[(e, h)] == s.ran[(e, h)]
  {
    Extend(INIT, steps, s, step);
    GoneIsFinal(steps + [step], Next(s, step), more, n, h);
  }

  lemma GoneIsFinal(steps: seq<Step>, s: State, more: seq<Step>, n: State, h: nat)
    requires Runs(INIT, steps, s) && h in s.gone && Runs(s, more, n)
    ensures h in n.gone && h !in n.handlers
    ensures forall t :: t in n.threads ==> !n.threads[t].Runs(h) && (n.threads[t].Emitting? ==> h !in n.threads[t].todo)
    ensures forall e :: n.ran[(e, h)] == s.ran[(e, h)]
  {
    RunKeepsInv(INIT, steps, s);
    GoneStaysQuiet(s, more, n, h);
    RunKeepsInv(s, more, n);
    forall t | t in n.threads
      ensures !n.threads[t].Runs(h) && (n.threads[t].Emitting? ==> h !in n.threads[t].todo)
    {
      assert PlaceOk(n, n.threads[t]);
    }
  }

  lemma {:induction false} GoneStaysQuiet(s: State, steps: seq<Step>, n: State, h: nat)
    requires Inv(s) && h in s.gone && Runs(s, steps, n)
    ensures h in n.gone && forall e :: n.ran[(e, h)] == s.ran[(e, h)]
    decreases |steps|
  {
    if steps != [] {
      StepKeepsInv(s, steps[0]);
      QuietStep(s, steps[0], h);
      GoneStaysQuiet(Next(s, steps[0]), steps[1..], n, h);
    }
  }

  lemma QuietStep(s: State, step: Step, h: nat)
    requires Inv(s) && Enabled(s, step) && h in s.gone
    ensures h in Next(s, step).gone && forall e :: Next(s, step).ran[(e, h)] == s.ran[(e, h)]
  {
    if step.EmitCall? { assert PlaceOk(s, s.threads[step.t]); }
  }

  /** At most one emission is in flight, and it is in flight exactly while cancelled_running is set. */
  lemma OneEmission(steps: seq<Step>, n: State, t: nat, u: nat)
    requires Runs(INIT, steps, n) && t in n.threads && u in n.threads
    requires n.threads[t].Cancels() && n.threads[u].Cancels()
    ensures t == u && n.running && n.cancelled
  {
    RunKeepsInv(INIT, steps, n);
  }

  /** No waiter misses the broadcast: one that sleeps unnotified sleeps because of the emission in
      flight, which has been told to announce its end. */
  lemma NoMissedBroadcast(steps: seq<Step>, n: State, w: nat)
    requires Runs(INIT, steps, n) && w in n.threads && n.threads[w].Waits()
    ensures n.threads[w].notified || (n.running && n.waiting && n.emitter.Some?)
    ensures n.running ==> w in Next(n, Resume(w)).threads   // a wake-up in between sleeps again
    ensures !n.running ==> w !in Next(n, Resume(w)).threads // otherwise the call gets through
  {
    RunKeepsInv(INIT, steps, n);
    assert PlaceOk(n, n.threads[w]);
  }

  /** The announcement reaches every sleeper. */
  lemma EndOfEmissionWakesAll(steps: seq<Step>, s: State, t: nat, w: nat)
    requires Runs(INIT, steps, s) && Enabled(s, CancelEnd(t)) && w in s.threads && s.threads[w].Waits()
    ensures
      var n := Next(s, CancelEnd(t));
      && w in n.threads && n.threads[w].Waits() && n.threads[w].notified
      && !n.running && w !in Next(n, Resume(w)).threads
  {
    RunKeepsInv(INIT, steps, s);
    assert PlaceOk(s, s.threads[w]) && w != t;
    BroadcastReaches(s, t, w);
  }

  lemma BroadcastReaches(s: State, t: nat, w: nat)
    requires Enabled(s, CancelEnd(t)) && w in s.threads && w != t && s.threads[w].Waits()
    requires s.threads[w].notified || s.waiting
    ensures
      var n := Next(s, CancelEnd(t));
      && w in n.threads && n.threads[w].Waits() && n.threads[w].notified
      && !n.running && w !in Next(n, Resume(w)).threads
  {
  }

  // ----- the poll descriptor, and what cancelled means -----

  /** How often a step occurs in a run. */
  function Count(steps: seq<Step>, step: Step): nat {
    if steps == [] then 0 else (if steps[0] == step then 1 else 0) + Count(steps[1..], step)
  }

  lemma {:induction false} DescriptorsCounted(s: State, steps: seq<Step>, n: State)
    requires Runs(s, steps, n)
    ensures n.fds + Count(steps, ReleaseFd) == s.fds + Count(steps, MakePollfd)
    decreases |steps|
  {
    if steps != [] {
      DescriptorStep(s, steps[0]);
      DescriptorsCounted(Next(s, steps[0]), steps[1..], n);
    }
  }

  lemma DescriptorStep(s: State, step: Step)
    requires Enabled(s, step)
    ensures Next(s, step).fds + (if step == ReleaseFd then 1 else 0) == s.fds + if step == MakePollfd then 1 else 0
  {
  }

  /** A call of reset gets through in this step. */
  predicate Resets(s: State, step: Step)
    requires Enabled(s, step)
  {
    !s.running && (step.Reset? || (step.Resume? && s.threads[step.t].Resetting?))
  }

  ghost predicate NoneResets(s: State, steps: seq<Step>)
    decreases |steps|
  {
    steps == [] || (Enabled(s, steps[0]) && !Resets(s, steps[0]) && NoneResets(Next(s, steps[0]), steps[1..]))
  }

  /** The run has a call of cancel after which no reset got through. */
  ghost predicate CancelledSince(s: State, steps: seq<Step>)
    decreases |steps|
  {
    && steps != [] && Enabled(s, steps[0])
    && (CancelledSince(Next(s, steps[0]), steps[1..]) ||
        (steps[0].Cancel? && NoneResets(Next(s, steps[0]), steps[1..])))
  }

  lemma {:induction false} CancelledByHistory(s: State, steps: seq<Step>, n: State)
    requires Inv(s) && Runs(s, steps, n)
    ensures n.cancelled <==> CancelledSince(s, steps) || (s.cancelled && NoneResets(s, steps))
    decreases |steps|
  {
    if steps != [] {
      StepKeepsInv(s, steps[0]);
      CancelledByHistory(Next(s, steps[0]), steps[1..], n);
      CancelledStep(s, steps[0]);
    }
  }

  lemma CancelledStep(s: State, step: Step)
    requires Inv(s) && Enabled(s, step)
    ensures Next(s, step).cancelled <==> step.Cancel? || (s.cancelled && !Resets(s, step))
  {
  }

  /** In every run the cancellable is cancelled exactly if cancel was called and no reset has got through
      since; a poll descriptor exists exactly while more were made than released, and is readable exactly
      while the cancellable is cancelled. */
  lemma WakeupMirrorsCancelled(steps: seq<Step>, n: State)
    requires Runs(INIT, steps, n)
    ensures n.cancelled <==> CancelledSince(INIT, steps)
    ensures Count(steps, ReleaseFd) <= Count(steps, MakePollfd)
    ensures n.wakeup ==
      if Count(steps, MakePollfd) == Count(steps, ReleaseFd) then None else Some(n.cancelled)
  {
    RunKeepsInv(INIT, steps, n);
    DescriptorsCounted(INIT, steps, n);
    CancelledByHistory(INIT, steps, n);
  }

  // ----- the order of calls, and progress -----

  /** A callback that connect has called itself returns to its thread, and no one else notices. */
  lemma DirectCallReturns(s: State, t: nat)
    requires Enabled(s, ConnectReturn(t))
    ensures
      var n := Next(s, ConnectReturn(t));
      && t !in n.threads && n.ran == s.ran && n.handlers == s.handlers
      && forall u :: u in s.threads && u != t ==> u in n.threads && n.threads[u] == s.threads[u]
  {
  }

  predicate Rising(q: seq<nat>) { forall i, j :: 0 <= i < j < |q| ==> q[i] < q[j] }

  /** Handlers are kept, and called, in the order in which they were connected. */
  predicate OrderOk(s: State) {
    && Rising(s.handlers)
    && (forall h :: h in s.handlers ==> h < s.connects)
    && (forall t :: t in s.threads && s.threads[t].Emitting? ==> Rising(s.threads[t].todo))
  }

  lemma {:induction false} WithoutKeepsRising(q: seq<nat>, x: nat)
    requires Rising(q)
    ensures Rising(Without(q, x)) && forall y :: y in Without(q, x) ==> y in q
    decreases |q|
  {
    if q != [] {
      RisingTail(q);
      WithoutKeepsRising(q[1..], x);
      if q[0] != x { RisingCons(q[0], Without(q[1..], x)); }
    }
  }

  lemma RisingTail(q: seq<nat>)
    requires Rising(q) && q != []
    ensures Rising(q[1..]) && (forall y :: y in q[1..] ==> q[0] < y) && (forall y :: y in q[1..] ==> y in q)
  {
  }

  lemma RisingCons(first: nat, rest: seq<nat>)
    requires Rising(rest) && forall y :: y in rest ==> first < y
    ensures Rising([first] + rest)
  {
    assert forall i :: 0 <= i < |rest| ==> rest[i] in rest;
  }

  lemma StepKeepsOrder(s: State, step: Step)
    requires OrderOk(s) && Enabled(s, step)
    ensures OrderOk(Next(s, step))
  {
    match step
    case Connect(t) => ConnectKeepsOrder(s, t);
    case Disconnect(t, h) => DisconnectKeepsOrder(s, t, h);
    case Resume(t) =>
      if s.threads[t].Disconnecting? { DisconnectKeepsOrder(s, t, s.threads[t].handler); }
    case EmitCall(t) =>
    case _ => assert Next(s, step).handlers == s.handlers;
  }

  lemma ConnectKeepsOrder(s: State, t: nat)
    requires OrderOk(s) && Enabled(s, Connect(t))
    ensures OrderOk(Next(s, Connect(t)))
  {
    assert forall i :: 0 <= i < |s.handlers| ==> s.handlers[i] in s.handlers;
  }

  lemma DisconnectKeepsOrder(s: State, t: nat, h: nat)
    requires OrderOk(s)
    ensures OrderOk(TryDisconnect(s, t, h))
  {
    WithoutKeepsRising(s.handlers, h);
  }

  lemma {:induction false} RunKeepsOrder(s: State, steps: seq<Step>, n: State)
    requires OrderOk(s) && Runs(s, steps, n)
    ensures OrderOk(n)
    decreases |steps|
  {
    if steps != [] {
      StepKeepsOrder(s, steps[0]);
      RunKeepsOrder(Next(s, steps[0]), steps[1..], n);
    }
  }

  /** The next handler that an emission calls is the oldest that it has not yet called. */
  lemma OldestFirst(steps: seq<Step>, s: State, t: nat, k: nat)
    requires Runs(INIT, steps, s) && Enabled(s, EmitCall(t))
    requires k in s.handlers && (s.cancels, k) !in s.ran
    ensures
      var h, n := s.threads[t].todo[0], Next(s, EmitCall(t));
      h <= k && h in s.handlers && n.threads[t].Runs(h) && n.ran == s.ran + multiset{(s.cancels, h)}
  {
    RunKeepsInv(INIT, steps, s);
    RunKeepsOrder(INIT, steps, s);
    assert PlaceOk(s, s.threads[t]);
    var i :| 0 <= i < |s.threads[t].todo| && s.threads[t].todo[i] == k;
  }

  /** The next step of an emission in flight. */
  function Onward(t: nat, p: Place): Step
    requires p.Cancels()
  {
    if p.Begun? then EmitBegin(t)
    else if p.current.Some? then EmitReturn(t)
    else if p.todo != [] then EmitCall(t)
    else CancelEnd(t)
  }

  /** How many steps an emission has still to make. */
  function ToGo(s: State, p: Place): nat
    requires p.Cancels()
  {
    if p.Begun? then 2 * |s.handlers| + 2 else 2 * |p.todo| + (if p.current.Some? then 1 else 0) + 1
  }

  /** The emission of thread t has ended between s and n, and woken everyone who waited. */
  predicate Finished(s: State, t: nat, n: State) {
    && !n.running && t !in n.threads
    && forall w :: w in s.threads && s.threads[w].Waits() ==>
         w in n.threads && n.threads[w].Waits() && n.threads[w].notified
  }

  /** An emission needs nobody else to finish: from every reachable state its own steps lead to one in
      which no emission is running and every waiter is awake. */
  lemma EmissionCanFinish(steps: seq<Step>, s: State, t: nat) returns (more: seq<Step>, n: State)
    requires Runs(INIT, steps, s) && t in s.threads && s.threads[t].Cancels()
    ensures Runs(s, more, n) && |more| == ToGo(s, s.threads[t]) && Finished(s, t, n)
  {
    RunKeepsInv(INIT, steps, s);
    more, n := Finish(s, t);
  }

  lemma {:induction false} Finish(s: State, t: nat) returns (more: seq<Step>, n: State)
    requires Inv(s) && t in s.threads && s.threads[t].Cancels()
    ensures Runs(s, more, n) && |more| == ToGo(s, s.threads[t]) && Finished(s, t, n)
    decreases ToGo(s, s.threads[t])
  {
    if s.threads[t] == Emitting([], None) {
      more, n := [CancelEnd(t)], Next(s, CancelEnd(t));
      LastStep(s, t);
      assert Runs(n, [], n) && more[1..] == [];
    } else {
      var step := Onward(t, s.threads[t]);
      OnwardStep(s, t);
      StepKeepsInv(s, step);
      var rest;
      rest, n := Finish(Next(s, step), t);
      more := [step] + rest;
      assert more[1..] == rest;
    }
  }

  lemma LastStep(s: State, t: nat)
    requires Inv(s) && t in s.threads && s.threads[t] == Emitting([], None)
    ensures Finished(s, t, Next(s, CancelEnd(t)))
  {
    forall w | w in s.threads && s.threads[w].Waits()
      ensures
        var n := Next(s, CancelEnd(t));
        w in n.threads && n.threads[w].Waits() && n.threads[w].notified
    {
      assert PlaceOk(s, s.threads[w]);
      BroadcastReaches(s, t, w);
    }
  }

  lemma OnwardStep(s: State, t: nat)
    requires Inv(s) && t in s.threads && s.threads[t].Cancels() && s.threads[t] != Emitting([], None)
    ensures Enabled(s, Onward(t, s.threads[t]))
    ensures
      var u := Next(s, Onward(t, s.threads[t]));
      && t in u.threads && u.threads[t].Cancels() && ToGo(u, u.threads[t]) + 1 == ToGo(s, s.threads[t])
      && forall w :: w in s.threads && w != t ==> w in u.threads && u.threads[w] == s.threads[w]
  {
    assert PlaceOk(s, s.threads[t]);
  }

  lemma {:induction false} Extend(s: State, steps: seq<Step>, n: State, step: Step)
    requires Runs(s, steps, n) && Enabled(n, step)
    ensures Runs(s, steps + [step], Next(n, step))
    decreases |steps|
  {
    if steps == [] {
      assert Runs(Next(s, step), [], Next(n, step));
      assert (steps + [step])[1..] == [];
    } else {
      Extend(Next(s, steps[0]), steps[1..], n, step);
      assert (steps + [step])[1..] == steps[1..] + [step];
    }
  }

  /** connect promises that its callback is called at most once.  A reset breaks the promise: connect,
      cancel, reset, cancel starts the same callback twice. */
  lemma ResetBreaksAtMostOnce() returns (steps: seq<Step>, n: State)
    ensures Runs(INIT, steps, n) && Times(n, 0) == 2
  {
    steps, n := [], INIT;
    Extend(INIT, steps, n, Connect(0));
    steps, n := steps + [Connect(0)], Next(n, Connect(0));
    steps, n := CancelRound(steps, n);
    Extend(INIT, steps, n, Reset(0));
    steps, n := steps + [Reset(0)], Next(n, Reset(0));
    steps, n := CancelRound(steps, n);
    assert n.ran == multiset{(1, 0), (2, 0)};
    assert TimesUpTo(n.ran, 2, 0) == n.ran[(2, 0)] + TimesUpTo(n.ran, 1, 0);
  }

  lemma CancelRound(before: seq<Step>, s: State) returns (steps: seq<Step>, n: State)
    requires Runs(INIT, before, s) && !s.cancelled && !s.running && !s.waiting
    requires s.threads == map[] && s.handlers == [0]
    ensures Runs(INIT, steps, n)
    ensures n == s.(cancelled := true, wakeup := Signal(s.wakeup, true), emitter := None,
                    cancels := s.cancels + 1, ran := s.ran + multiset{(s.cancels + 1, 0)})
  {
    steps, n := before, s;
    var round := [Cancel(0), EmitBegin(0), EmitCall(0), EmitReturn(0), CancelEnd(0)];
    Extend(INIT, steps, n, round[0]);
    steps, n := steps + [round[0]], Next(n, round[0]);
    Extend(INIT, steps, n, round[1]);
    steps, n := steps + [round[1]], Next(n, round[1]);
    Extend(INIT, steps, n, round[2]);
    steps, n := steps + [round[2]], Next(n, round[2]);
    Extend(INIT, steps, n, round[3]);
    steps, n := steps + [round[3]], Next(n, round[3]);
    assert n.threads[0] == Emitting([], None);
    Extend(INIT, steps, n, round[4]);
    steps, n := steps + [round[4]], Next(n, round[4]);
    assert n.threads == map[];
  }

  // ----- the object: its sections under the mutex -----

  /** Each method is one step of the machine above, so StepKeepsInv says that it keeps Inv. */
  class GCancellable {
    var cancelled: bool
    var running: bool
    var waiting: bool
    var fds: nat
    var wakeup: Option<bool>
    var handlers: seq<nat>
    var threads: map<nat, Place>
    var emitter: Option<nat>
    var connects: nat
    var direct: map<nat, nat>
    var gone: set<nat>
    var ran: multiset<(nat, nat)>
    var cancels: nat
    var resets: nat

    ghost function S(): State reads this {
      State(cancelled, running, waiting, fds, wakeup, handlers, threads, emitter, connects, direct, gone,
            ran, cancels, resets)
    }

    constructor ()
      ensures S() == INIT
    {
      cancelled, running, waiting, fds, wakeup := false, false, false, 0, None;
      handlers, threads, emitter, connects, direct := [], map[], None, 0, map[];
      gone, ran, cancels, resets := {}, multiset{}, 0, 0;
    }

    /** g_cancellable_cancel up to the signal emission. */
    method CancelEnter(t: nat) returns (emit: bool)
      requires Enabled(S(), Cancel(t))
      modifies this
      ensures S() == Next(old(S()), Cancel(t))
      ensures emit <==> !old(cancelled)
    {
      emit := !cancelled;
      if emit {
        cancelled := true;
        running := true;
        if wakeup.Some? {
          wakeup := Some(true);
        }
        threads, emitter, cancels := threads[t := Begun], Some(t), cancels + 1;
      }
    }

    /** g_cancellable_cancel after the signal emission. */
    method CancelLeave(t: nat)
      requires Enabled(S(), CancelEnd(t))
      modifies this
      ensures S() == Next(old(S()), CancelEnd(t))
    {
      running := false;
      threads, emitter := threads - {t}, None;
      if waiting {
        threads := NotifyAll(threads);
      }
      waiting := false;
    }

    /** g_cancellable_connect: the id of the handler, or none if the callback must be called now. */
    method ConnectCallback(t: nat) returns (id: Option<nat>)
      requires Enabled(S(), Connect(t))
      modifies this
      ensures S() == Next(old(S()), Connect(t))
      ensures id == if cancelled then None else Some(old(connects))
    {
      var k := connects;
      connects := k + 1;
      if cancelled {
        id := None;
        threads, direct, ran := threads[t := Calling(k)], direct[k := cancels], ran + multiset{(cancels, k)};
      } else {
        id := Some(k);
        handlers := handlers + [k];
      }
    }

    /** g_cancellable_disconnect, from one wait to the next. */
    method DisconnectPass(t: nat, h: nat) returns (done: bool)
      requires t in threads ==> threads[t].Waits()
      modifies this
      ensures S() == TryDisconnect(old(S()), t, h)
      ensures done <==> !running
    {
      if running {
        waiting := true;
        threads := threads[t := Disconnecting(h, false)];
        return false;
      }
      handlers, gone, threads := Without(handlers, h), gone + {h}, threads - {t};
      done := true;
    }

    /** g_cancellable_reset, from one wait to the next. */
    method ResetPass(t: nat) returns (done: bool)
      requires t in threads ==> threads[t].Waits()
      modifies this
      ensures S() == TryReset(old(S()), t)
      ensures done <==> !running
    {
      if running {
        waiting := true;
        threads := threads[t := Resetting(false)];
        return false;
      }
      threads := threads - {t};
      if cancelled {
        if wakeup.Some? {
          wakeup := Some(false);
        }
        cancelled := false;
        resets := resets + 1;
      }
      done := true;
    }

    /** g_cancellable_make_pollfd: whether the new descriptor is already readable. */
    method AddPollfd() returns (readable: bool)
      requires Inv(S())
      modifies this
      ensures S() == Next(old(S()), MakePollfd)
      ensures readable == cancelled
    {
      fds := fds + 1;
      if wakeup.None? {
        wakeup := Some(false);
        if cancelled {
          wakeup := Some(true);
        }
      }
      readable := wakeup.value;
    }

    /** g_cancellable_release_fd */
    method ReleasePollfd()
      requires Enabled(S(), ReleaseFd)
      modifies this
      ensures S() == Next(old(S()), ReleaseFd)
    {
      fds := fds - 1;
      if fds == 0 {
        wakeup := None;
      }
    }
  }
}
