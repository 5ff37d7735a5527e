/** gcontextspecificgroup.c: one instance per main context, a worker that starts and stops the
    shared backend, and getters that block until it is started.  Each section under the group's
    lock (or a source's lock) is one atomic step; any number of threads interleave them. */
module ContextSpecificGroup {
  import opened Wrappers
  import opened Sequences

  datatype Func = Start | Stop

  /** A GContextSpecificSource and its instance.  The instance's reference count is `held` plus the
      number of blocked getters of its context. */
  datatype Source = Source(held: nat, pending: seq<nat>, ready: bool)

  /** A thread inside g_cond_wait, and whether a broadcast has reached it. */
  datatype Waiter = Waiter(context: nat, notified: bool)

  datatype State = State(
    requested: bool,
    effective: bool,
    func: Option<Func>,             // requested_func
    table: map<nat, Source>,
    queued: nat,                    // change_state callbacks in the worker context
    calls: seq<Func>,               // start and stop functions called so far
    waiters: map<nat, Waiter>,
    delivered: seq<(nat, nat)>)     // (context, signal) emissions made by sources

  datatype Step =
    | Get(thread: nat, context: nat)
    | Resume(thread: nat)
    | Unref(context: nat)
    | Remove(context: nat)
    | ChangeState
    | Emit(signal: nat)
    | Dispatch(context: nat)

  const INIT := State(false, false, None, map[], 0, [], map[], [])

  predicate Referenced(s: State, context: nat) {
    && context in s.table
    && (s.table[context].held > 0 || exists t :: t in s.waiters && s.waiters[t].context == context)
  }

  /** Callers hold references to what they use, and the instance is removed by its finalizer. */
  predicate Enabled(s: State, step: Step) {
    match step
    case Get(t, c) => t !in s.waiters && (c in s.table ==> Referenced(s, c))
    case Resume(t) => t in s.waiters && s.waiters[t].context in s.table
    case Unref(c) => c in s.table && s.table[c].held > 0
    case Remove(c) => c in s.table && !Referenced(s, c)
    case ChangeState => s.queued > 0
    case Emit(_) => true
    case Dispatch(c) => c in s.table && s.table[c].ready
  }

  /** g_context_specific_group_request_state, up to the wait. */
  function Request(s: State, state: bool, f: Func): State {
    if state == s.requested then s
    else if s.effective != s.requested then s.(requested := state, func := None)
    else s.(requested := state, func := Some(f), queued := s.queued + 1)
  }

  /** The test of the wait loop: wait (again), or return with a reference. */
  function WaitOrReturn(s: State, thread: nat, context: nat): State
    requires context in s.table
  {
    if s.requested != s.effective then
      s.(waiters := s.waiters[thread := Waiter(context, false)])
    else
      var source := s.table[context];
      s.(waiters := s.waiters - {thread}, table := s.table[context := source.(held := source.held + 1)])
  }

  function NotifyAll(waiters: map<nat, Waiter>): map<nat, Waiter> {
    map t | t in waiters :: waiters[t].(notified := true)
  }

  function Post(source: Source, signal: nat): Source {
    source.(pending := Without(source.pending, signal) + [signal], ready := true)
  }

  function Next(s: State, step: Step): State
    requires Enabled(s, step)
  {
    match step
    case Get(t, c) =>
      var table := if c in s.table then s.table else s.table[c := Source(0, [], false)];
      WaitOrReturn(Request(s.(table := table), true, Start), t, c)
    case Resume(t) => WaitOrReturn(s, t, s.waiters[t].context)
    case Unref(c) => s.(table := s.table[c := s.table[c].(held := s.table[c].held - 1)])
    case Remove(c) =>
      var u := s.(table := s.table - {c});
      if u.table == map[] then Request(u, false, Stop) else u
    case ChangeState =>
      var u := s.(queued := s.queued - 1);
      if s.requested == s.effective || s.func.None? then u   // func is never None here: see Inv
      else u.(calls := s.calls + [s.func.value], effective := s.requested, func := None,
              waiters := NotifyAll(s.waiters))
    case Emit(signal) => s.(table := map c | c in s.table :: Post(s.table[c], signal))
    case Dispatch(c) =>
      var source := s.table[c];
      if source.pending == [] then s
      else
        var rest := source.pending[1..];
        s.(table := s.table[c := source.(pending := rest, ready := rest != [])],
           delivered := s.delivered + [(c, source.pending[0])])
  }

  // ----- invariant -----

  predicate Alternating(calls: seq<Func>) {
    forall i :: 0 <= i < |calls| ==> calls[i] == if i % 2 == 0 then Start else Stop
  }

  predicate SourceOk(source: Source) {
    Distinct(source.pending) && (source.ready <==> source.pending != [])
  }

  predicate WaiterOk(s: State, w: Waiter) {
    && w.context in s.table
    && s.requested
    && (w.notified <==> s.effective)
  }

  predicate Inv(s: State) {
    && Alternating(s.calls)
    && s.effective == (|s.calls| % 2 == 1)
    && (s.requested <==> s.table != map[])
    && (s.requested == s.effective ==> s.func == None)
    && (s.requested != s.effective ==> s.queued > 0 && s.func == Some(if s.requested then Start else Stop))
    && (forall t :: t in s.waiters ==> WaiterOk(s, s.waiters[t]))
    && (forall c :: c in s.table ==> SourceOk(s.table[c]))
  }

  lemma PostIsOk(source: Source, signal: nat)
    requires SourceOk(source)
    ensures SourceOk(Post(source, signal))
    ensures forall x :: x in Post(source, signal).pending <==> x in source.pending || x == signal
  {
    WithoutIsGone(source.pending, signal);
  }

  lemma StepKeepsInv(s: State, step: Step)
    requires Inv(s) && Enabled(s, step)
    ensures Inv(Next(s, step))
  {
    var t := Next(s, step);
    match step
    case Emit(signal) =>
      forall c | c in t.table ensures SourceOk(t.table[c]) { PostIsOk(s.table[c], signal); }
      assert t.table.Keys == s.table.Keys;
      assert s.table != map[] ==> t.table != map[] by { if c :| c in s.table { assert c in t.table; } }
    case Dispatch(c) =>
      assert SourceOk(s.table[c]) && c in t.table;
    case Get(thread, c) =>
      assert c in t.table;
    case Unref(c) => assert c in t.table;
    case Resume(thread) =>
      assert WaiterOk(s, s.waiters[thread]) && s.waiters[thread].context in t.table;
    case Remove(c) =>
      forall w | w in s.waiters ensures s.waiters[w].context in s.table - {c} {
        assert WaiterOk(s, s.waiters[w]);
      }
    case ChangeState =>
  }

  // ----- whole runs -----

  ghost predicate Runs(s: State, steps: seq<Step>, t: State)
    decreases |steps|
  {
    if steps == [] then s == t
    else Enabled(s, steps[0]) && Runs(Next(s, steps[0]), steps[1..], t)
  }

  lemma {:induction false} RunKeepsInv(s: State, steps: seq<Step>, t: State)
    requires Inv(s) && Runs(s, steps, t)
    ensures Inv(t)
    decreases |steps|
  {
    if steps != [] {
      StepKeepsInv(s, steps[0]);
      RunKeepsInv(Next(s, steps[0]), steps[1..], t);
    }
  }

  /** Every reachable state: start and stop calls alternate, beginning with a start; the backend is
      effective exactly after a start; it is requested exactly while some context has an instance;
      and an unfinished transition has its function set and a worker callback queued. */
  lemma StartsAndStopsAlternate(steps: seq<Step>, t: State)
    requires Runs(INIT, steps, t)
    ensures forall i :: 0 <= i < |t.calls| ==> t.calls[i] == if i % 2 == 0 then Start else Stop
    ensures t.effective <==> |t.calls| > 0 && t.calls[|t.calls| - 1] == Start
    ensures t.requested <==> t.table != map[]
    ensures t.requested != t.effective ==> t.queued > 0 && t.func == Some(if t.requested then Start else Stop)
  {
    RunKeepsInv(INIT, steps, t);
  }

  /** No getter misses its wake-up: while it sleeps unnotified the worker still has a callback queued,
      running it notifies every getter with the backend started, and then the getter returns. */
  lemma BlockedGetterWakes(steps: seq<Step>, t: State, thread: nat)
    requires Runs(INIT, steps, t) && thread in t.waiters
    ensures Enabled(t, Resume(thread))
    ensures t.waiters[thread].notified ==>
      t.effective && thread !in Next(t, Resume(thread)).waiters
    ensures !t.waiters[thread].notified ==>
      && Next(t, Resume(thread)) == t
      && Enabled(t, ChangeState)
      && (var u := Next(t, ChangeState);
          && u.effective
          && (forall w :: w in t.waiters ==> w in u.waiters && u.waiters[w].notified)
          && Enabled(u, Resume(thread))
          && thread !in Next(u, Resume(thread)).waiters)
  {
    RunKeepsInv(INIT, steps, t);
    assert WaiterOk(t, t.waiters[thread]);
    if !t.waiters[thread].notified {
      assert t.waiters[thread := Waiter(t.waiters[thread].context, false)] == t.waiters;
    }
  }

  /** A notified getter cannot be put back to sleep by anyone, and returns with the backend started. */
  lemma {:induction false} NotifiedGetterStaysNotified(s: State, steps: seq<Step>, t: State, thread: nat)
    requires Inv(s) && Runs(s, steps, t)
    requires thread in s.waiters && s.waiters[thread].notified && Resume(thread) !in steps
    ensures thread in t.waiters && t.waiters[thread].notified && t.effective
    decreases |steps|
  {
    assert WaiterOk(s, s.waiters[thread]);
    if steps != [] {
      StepKeepsInv(s, steps[0]);
      assert steps[0] in steps && forall x :: x in steps[1..] ==> x in steps;
      var u := Next(s, steps[0]);
      assert thread in u.waiters && u.waiters[thread].notified by {
        assert steps[0] != Resume(thread);
        assert steps[0].Get? ==> steps[0].thread != thread;
      }
      NotifiedGetterStaysNotified(u, steps[1..], t, thread);
    }
  }

  /** Over whole runs: once the worker has run a callback, a getter that was blocked before and has not
      been scheduled since is notified and finds the backend started, whatever else has happened. */
  lemma {:induction false} WorkerReleasesGetters(s: State, steps: seq<Step>, t: State, thread: nat)
    requires Inv(s) && Runs(s, steps, t) && thread in s.waiters
    requires Resume(thread) !in steps && ChangeState in steps
    ensures thread in t.waiters && t.waiters[thread].notified && t.effective
    ensures Enabled(t, Resume(thread)) && thread !in Next(t, Resume(thread)).waiters
    decreases |steps|
  {
    if s.waiters[thread].notified {
      NotifiedGetterStaysNotified(s, steps, t, thread);
      RunKeepsInv(s, steps, t);
      assert WaiterOk(t, t.waiters[thread]);
    } else {
      var u := Next(s, steps[0]);
      assert steps == [steps[0]] + steps[1..];
      StepKeepsInv(s, steps[0]);
      GetterStays(s, steps[0], thread);
      if steps[0] == ChangeState {
        NotifiedGetterStaysNotified(u, steps[1..], t, thread);
        RunKeepsInv(u, steps[1..], t);
        assert WaiterOk(t, t.waiters[thread]);
      } else {
        WorkerReleasesGetters(u, steps[1..], t, thread);
      }
    }
  }

  lemma GetterStays(s: State, step: Step, thread: nat)
    requires Inv(s) && Enabled(s, step) && thread in s.waiters && step != Resume(thread)
    ensures thread in Next(s, step).waiters
    ensures step == ChangeState ==> Next(s, step).waiters[thread].notified
  {
    assert WaiterOk(s, s.waiters[thread]);
  }

  /** An emitted signal reaches every context present: it stays queued, with the source ready, until
      that source dispatches it, which happens after the emission. */
  lemma EmissionIsDelivered(s: State, signal: nat, steps: seq<Step>, t: State, context: nat)
    requires Inv(s) && context in s.table && Remove(context) !in steps
    requires Runs(Next(s, Emit(signal)), steps, t)
    ensures |s.delivered| <= |t.delivered| && context in t.table
    ensures
      || (signal in t.table[context].pending && t.table[context].ready)
      || (context, signal) in t.delivered[|s.delivered|..]
  {
    StepKeepsInv(s, Emit(signal));
    PostIsOk(s.table[context], signal);
    QueuedIsDelivered(Next(s, Emit(signal)), steps, t, context, signal);
  }

  lemma {:induction false} QueuedIsDelivered(s: State, steps: seq<Step>, t: State, context: nat, signal: nat)
    requires Inv(s) && Runs(s, steps, t) && Remove(context) !in steps
    requires context in s.table && signal in s.table[context].pending
    ensures |s.delivered| <= |t.delivered| && context in t.table
    ensures
      || (signal in t.table[context].pending && t.table[context].ready)
      || (context, signal) in t.delivered[|s.delivered|..]
    decreases |steps|
  {
    assert SourceOk(s.table[context]);
    if steps != [] {
      var u := Next(s, steps[0]);
      StepKeepsInv(s, steps[0]);
      assert steps[0] in steps && forall x :: x in steps[1..] ==> x in steps;
      QueuedStays(s, steps[0], context, signal);
      DeliveredGrows(u, steps[1..], t);
      if signal in u.table[context].pending {
        QueuedIsDelivered(u, steps[1..], t, context, signal);
        if (context, signal) in t.delivered[|u.delivered|..] {
          var k :| |u.delivered| <= k < |t.delivered| && t.delivered[k] == (context, signal);
          assert t.delivered[|s.delivered|..][k - |s.delivered|] == (context, signal);
        }
      } else {
        assert t.delivered[|s.delivered|..][0] == (context, signal);
        RemainsPresent(u, steps[1..], t, context);
      }
    }
  }

  lemma QueuedStays(s: State, step: Step, context: nat, signal: nat)
    requires Inv(s) && Enabled(s, step) && step != Remove(context)
    requires context in s.table && signal in s.table[context].pending
    ensures
      var u := Next(s, step);
      && s.delivered <= u.delivered
      && context in u.table
      && (signal !in u.table[context].pending ==> u.delivered == s.delivered + [(context, signal)])
  {
    if step.Emit? { PostIsOk(s.table[context], step.signal); }
  }

  lemma {:induction false} DeliveredGrows(s: State, steps: seq<Step>, t: State)
    requires Runs(s, steps, t)
    ensures s.delivered <= t.delivered
    decreases |steps|
  {
    if steps != [] { DeliveredGrows(Next(s, steps[0]), steps[1..], t); }
  }

  lemma {:induction false} RemainsPresent(s: State, steps: seq<Step>, t: State, context: nat)
    requires Runs(s, steps, t) && context in s.table && Remove(context) !in steps
    ensures context in t.table
    decreases |steps|
  {
    if steps != [] {
      assert steps[0] in steps && forall x :: x in steps[1..] ==> x in steps;
      RemainsPresent(Next(s, steps[0]), steps[1..], t, context);
    }
  }

  // ----- first in, first out -----

  predicate Waits(s: State, context: nat, a: nat, b: nat) {
    context in s.table && a != b && Ahead(s.table[context].pending, a, b)
  }

  /** Both signals have been delivered since, the first one first. */
  predicate InOrder(delivered: seq<(nat, nat)>, start: nat, context: nat, a: nat, b: nat) {
    exists i, j :: start <= i < j < |delivered| && delivered[i] == (context, a) && delivered[j] == (context, b)
  }

  /** Signals leave a source in the order in which they were emitted: if a is queued when b is emitted,
      and neither is emitted again nor the context removed, b is not delivered before a. */
  lemma FirstInFirstOut(s: State, a: nat, b: nat, steps: seq<Step>, t: State, context: nat)
    requires Inv(s) && context in s.table && a in s.table[context].pending && a != b
    requires Emit(a) !in steps && Emit(b) !in steps && Remove(context) !in steps
    requires Runs(Next(s, Emit(b)), steps, t)
    ensures |s.delivered| <= |t.delivered|
    ensures (context, b) in t.delivered[|s.delivered|..] ==> InOrder(t.delivered, |s.delivered|, context, a, b)
  {
    var u := Next(s, Emit(b));
    StepKeepsInv(s, Emit(b));
    PostedIsLast(s.table[context], b, a);
    assert Waits(u, context, a, b);
    WaitingInOrder(u, steps, t, context, a, b);
    DeliveredGrows(u, steps, t);
  }

  /** What is emitted goes behind everything that is queued. */
  lemma PostedIsLast(source: Source, signal: nat, other: nat)
    requires SourceOk(source) && other in source.pending && other != signal
    ensures Ahead(Post(source, signal).pending, other, signal)
  {
    WithoutKeepsOthers(source.pending, signal, other);
    var rest := Without(source.pending, signal);
    var i :| 0 <= i < |rest| && rest[i] == other;
    assert Post(source, signal).pending[i] == other && Post(source, signal).pending[|rest|] == signal;
  }

  lemma {:induction false} WaitingInOrder(s: State, steps: seq<Step>, t: State, context: nat, a: nat, b: nat)
    requires Inv(s) && Waits(s, context, a, b) && Runs(s, steps, t)
    requires Emit(a) !in steps && Emit(b) !in steps && Remove(context) !in steps
    ensures s.delivered <= t.delivered
    ensures (context, b) in t.delivered[|s.delivered|..] ==> InOrder(t.delivered, |s.delivered|, context, a, b)
    decreases |steps|
  {
    DeliveredGrows(s, steps, t);
    if steps != [] {
      var u, k := Next(s, steps[0]), |s.delivered|;
      assert steps[0] in steps && forall x :: x in steps[1..] ==> x in steps;
      StepKeepsInv(s, steps[0]);
      DeliveredGrows(u, steps[1..], t);
      WaitingStep(s, steps[0], context, a, b);
      if Waits(u, context, a, b) {
        WaitingInOrder(u, steps[1..], t, context, a, b);
        if (context, b) in t.delivered[k..] {
          var j :| k <= j < |t.delivered| && t.delivered[j] == (context, b);
          assert t.delivered[j] in t.delivered[|u.delivered|..];
        }
      } else if (context, b) in t.delivered[k..] {
        var j :| k <= j < |t.delivered| && t.delivered[j] == (context, b);
        assert t.delivered[k] == (context, a) && k < j;
      }
    }
  }

  /** Until the first of them is delivered, both go on waiting. */
  lemma WaitingStep(s: State, step: Step, context: nat, a: nat, b: nat)
    requires Inv(s) && Waits(s, context, a, b) && Enabled(s, step)
    requires step != Emit(a) && step != Emit(b) && step != Remove(context)
    ensures
      var u := Next(s, step);
      && s.delivered <= u.delivered
      && if Waits(u, context, a, b) then (context, b) !in u.delivered[|s.delivered|..]
         else u.delivered == s.delivered + [(context, a)]
  {
    var q := s.table[context].pending;
    assert SourceOk(s.table[context]);
    match step
    case Emit(x) =>
      WithoutKeepsOrder(q, x, a, b);
      AheadOfMore(Without(q, x), a, b, x);
    case Dispatch(c) => if c == context { AheadInRest(q, a, b); }
    case _ =>
  }

  lemma AheadOfMore(q: seq<nat>, a: nat, b: nat, x: nat)
    requires Ahead(q, a, b)
    ensures Ahead(q + [x], a, b)
  {
    var i, j :| 0 <= i < j < |q| && q[i] == a && q[j] == b;
    assert (q + [x])[i] == a && (q + [x])[j] == b;
  }

  lemma AheadInRest(q: seq<nat>, a: nat, b: nat)
    requires Ahead(q, a, b) && Distinct(q)
    ensures q[0] != b && (q[0] != a ==> Ahead(q[1..], a, b))
    ensures q[0] == a ==> !Ahead(q[1..], a, b)
  {
    var i, j :| 0 <= i < j < |q| && q[i] == a && q[j] == b;
    if q[0] != a { assert q[1..][i - 1] == a && q[1..][j - 1] == b; }
    assert q[0] == a ==> forall k :: 0 < k < |q| ==> q[k] != a;
  }

  // ----- accounts -----

  /** What a run does at one context, for one signal, and for the worker. */
  datatype Tally = Tally(
    posted: nat,                    // emissions that found the signal not yet queued
    lost: nat,                      // queued signals dropped with their context
    returned: nat,                  // references handed out by getters
    dropped: nat,                   // references given back
    started: nat,                   // transitions begun
    ran: nat)                       // worker callbacks run

  function One(b: bool): nat { if b then 1 else 0 }

  function InQueue(s: State, context: nat, signal: nat): bool {
    context in s.table && signal in s.table[context].pending
  }

  function Held(s: State, context: nat): nat {
    if context in s.table then s.table[context].held else 0
  }

  /** The step is a pass through the wait loop of a getter of the context, and the getter gets through. */
  predicate Returns(s: State, step: Step, context: nat)
    requires Enabled(s, step)
  {
    match step
    case Get(thread, c) => c == context && thread !in Next(s, step).waiters
    case Resume(thread) => s.waiters[thread].context == context && thread !in Next(s, step).waiters
    case _ => false
  }

  function Booked(s: State, step: Step, context: nat, signal: nat): Tally
    requires Enabled(s, step)
  {
    Tally(
      One(step == Emit(signal) && context in s.table && !InQueue(s, context, signal)),
      One(step == Remove(context) && InQueue(s, context, signal)),
      One(Returns(s, step, context)),
      One(step == Unref(context)),
      One(s.requested == s.effective && Next(s, step).requested != s.requested),
      One(step == ChangeState))
  }

  function Plus(a: Tally, b: Tally): Tally {
    Tally(a.posted + b.posted, a.lost + b.lost, a.returned + b.returned, a.dropped + b.dropped,
          a.started + b.started, a.ran + b.ran)
  }

  ghost function Tallied(s: State, steps: seq<Step>, context: nat, signal: nat): Tally
    decreases |steps|
  {
    if steps == [] || !Enabled(s, steps[0]) then Tally(0, 0, 0, 0, 0, 0)
    else Plus(Booked(s, steps[0], context, signal), Tallied(Next(s, steps[0]), steps[1..], context, signal))
  }

  ghost predicate Balanced(s: State, t: State, k: Tally, context: nat, signal: nat) {
    && multiset(t.delivered)[(context, signal)] + One(InQueue(t, context, signal)) + k.lost ==
       multiset(s.delivered)[(context, signal)] + One(InQueue(s, context, signal)) + k.posted
    && Held(t, context) + k.dropped == Held(s, context) + k.returned
    && t.queued + k.ran == s.queued + k.started
  }

  lemma BalancedStep(s: State, step: Step, context: nat, signal: nat)
    requires Inv(s) && Enabled(s, step)
    ensures Balanced(s, Next(s, step), Booked(s, step, context, signal), context, signal)
  {
    match step
    case Emit(x) => BalancedEmit(s, x, context, signal);
    case Dispatch(c) => BalancedDispatch(s, c, context, signal);
    case Get(thread, c) => BalancedGet(s, thread, c, context, signal);
    case Resume(thread) => BalancedResume(s, thread, context, signal);
    case _ =>
  }

  lemma BalancedResume(s: State, thread: nat, context: nat, signal: nat)
    requires Inv(s) && Enabled(s, Resume(thread))
    ensures Balanced(s, Next(s, Resume(thread)), Booked(s, Resume(thread), context, signal), context, signal)
  {
  }

  lemma BalancedEmit(s: State, x: nat, context: nat, signal: nat)
    requires Inv(s)
    ensures Balanced(s, Next(s, Emit(x)), Booked(s, Emit(x), context, signal), context, signal)
  {
    if context in s.table { PostIsOk(s.table[context], x); }
  }

  lemma BalancedGet(s: State, thread: nat, c: nat, context: nat, signal: nat)
    requires Inv(s) && Enabled(s, Get(thread, c))
    ensures Balanced(s, Next(s, Get(thread, c)), Booked(s, Get(thread, c), context, signal), context, signal)
  {
  }

  lemma BalancedDispatch(s: State, c: nat, context: nat, signal: nat)
    requires Inv(s) && Enabled(s, Dispatch(c))
    ensures Balanced(s, Next(s, Dispatch(c)), Booked(s, Dispatch(c), context, signal), context, signal)
  {
    var q := s.table[c].pending;
    assert SourceOk(s.table[c]) && q == [q[0]] + q[1..];
    assert q[0] !in q[1..];
  }

  lemma {:induction false} BalancedRun(s: State, steps: seq<Step>, t: State, context: nat, signal: nat)
    requires Inv(s) && Runs(s, steps, t)
    ensures Balanced(s, t, Tallied(s, steps, context, signal), context, signal)
    decreases |steps|
  {
    if steps != [] {
      StepKeepsInv(s, steps[0]);
      BalancedStep(s, steps[0], context, signal);
      BalancedRun(Next(s, steps[0]), steps[1..], t, context, signal);
    }
  }

  /** In every run: a signal is delivered exactly once for each emission that found it not queued, unless
      it still is or was dropped with its context; an instance is held once for each reference handed
      out and not given back; and callbacks are queued exactly for transitions begun and not yet seen
      by the worker. */
  lemma AccountsBalance(steps: seq<Step>, t: State, context: nat, signal: nat)
    requires Runs(INIT, steps, t)
    ensures
      var k := Tallied(INIT, steps, context, signal);
      && multiset(t.delivered)[(context, signal)] + One(InQueue(t, context, signal)) + k.lost == k.posted
      && Held(t, context) + k.dropped == k.returned
      && t.queued + k.ran == k.started
  {
    BalancedRun(INIT, steps, t, context, signal);
  }

  /** Some getter of the context has come since the instance was last removed. */
  predicate GotSince(steps: seq<Step>, context: nat)
    decreases |steps|
  {
    && steps != []
    && (GotSince(steps[1..], context) ||
        (steps[0].Get? && steps[0].context == context && Remove(context) !in steps[1..]))
  }

  lemma {:induction false} PresentSince(s: State, steps: seq<Step>, t: State, context: nat)
    requires Runs(s, steps, t)
    ensures context in t.table <==> GotSince(steps, context) || (context in s.table && Remove(context) !in steps)
    decreases |steps|
  {
    if steps != [] {
      var u := Next(s, steps[0]);
      PresentSince(u, steps[1..], t, context);
      assert steps == [steps[0]] + steps[1..];
      assert context in u.table <==>
        (steps[0].Get? && steps[0].context == context) || (context in s.table && steps[0] != Remove(context));
    }
  }

  /** The backend is wanted exactly while some context has an instance that was asked for and not removed. */
  lemma WantedWhilePresent(steps: seq<Step>, t: State)
    requires Runs(INIT, steps, t)
    ensures forall c :: c in t.table <==> GotSince(steps, c)
    ensures t.requested <==> exists c :: GotSince(steps, c)
  {
    RunKeepsInv(INIT, steps, t);
    forall c ensures c in t.table <==> GotSince(steps, c) { PresentSince(INIT, steps, t, c); }
    if t.table != map[] {
      var c :| c in t.table;
      assert GotSince(steps, c);
    }
  }

  // ----- the group object -----

  class Group {
    var requested: bool
    var effective: bool
    var func: Option<Func>
    var table: map<nat, Source>
    var queued: nat
    var calls: seq<Func>
    var waiters: map<nat, Waiter>
    var delivered: seq<(nat, nat)>

    ghost function S(): State reads this {
      State(requested, effective, func, table, queued, calls, waiters, delivered)
    }

    constructor ()
      ensures S() == INIT && Inv(S())
    {
      requested, effective, func, table := false, false, None, map[];
      queued, calls, waiters, delivered := 0, [], map[], [];
    }

    /** g_context_specific_group_request_state up to its wait loop. */
    method RequestState(state: bool, f: Func)
      modifies this
      ensures S() == Request(old(S()), state, f)
    {
      if state != requested {
        if effective != requested {
          assert effective == state;
          requested, func := state, None;
        } else {
          requested, func := state, Some(f);
          queued := queued + 1;
        }
      }
    }

    /** One pass through the wait loop of a getter. */
    method CheckState(thread: nat, context: nat) returns (blocked: bool)
      requires context in table && requested
      modifies this
      ensures S() == WaitOrReturn(old(S()), thread, context)
      ensures blocked <==> requested != effective
    {
      blocked := requested != effective;
      if blocked {
        waiters := waiters[thread := Waiter(context, false)];
      } else {
        assert effective;
        waiters := waiters - {thread};
        table := table[context := table[context].(held := table[context].held + 1)];
      }
    }

    /** g_context_specific_group_get, up to its return or its first wait. */
    method GetInstance(thread: nat, context: nat) returns (blocked: bool)
      requires Inv(S()) && Enabled(S(), Get(thread, context))
      modifies this
      ensures S() == Next(old(S()), Get(thread, context)) && Inv(S())
      ensures !blocked ==> effective
    {
      StepKeepsInv(S(), Get(thread, context));
      if context !in table {
        table := table[context := Source(0, [], false)];
      }
      RequestState(true, Start);
      blocked := CheckState(thread, context);
    }

    /** A blocked getter wakes up, for whatever reason, and tests its condition again. */
    method ResumeGet(thread: nat) returns (blocked: bool)
      requires Inv(S()) && Enabled(S(), Resume(thread))
      modifies this
      ensures S() == Next(old(S()), Resume(thread)) && Inv(S())
      ensures !blocked ==> effective
      ensures blocked <==> !old(waiters[thread].notified)
    {
      StepKeepsInv(S(), Resume(thread));
      assert WaiterOk(S(), waiters[thread]);
      blocked := CheckState(thread, waiters[thread].context);
    }

    /** g_context_specific_group_remove, from the finalizer of the instance. */
    method RemoveInstance(context: nat)
      requires Inv(S()) && Enabled(S(), Remove(context))
      modifies this
      ensures S() == Next(old(S()), Remove(context)) && Inv(S())
    {
      StepKeepsInv(S(), Remove(context));
      table := table - {context};
      if table == map[] {
        RequestState(false, Stop);
      }
    }

    /** g_context_specific_group_change_state, in the worker context. */
    method ChangeStateCallback()
      requires Inv(S()) && Enabled(S(), ChangeState)
      modifies this
      ensures S() == Next(old(S()), ChangeState) && Inv(S())
    {
      StepKeepsInv(S(), ChangeState);
      queued := queued - 1;
      if requested != effective {
        calls := calls + [func.value];
        effective := requested;
        func := None;
        waiters := map t | t in waiters :: waiters[t].(notified := true);
      }
    }

    /** g_context_specific_group_emit */
    method EmitSignal(signal: nat)
      requires Inv(S())
      modifies this
      ensures S() == Next(old(S()), Emit(signal)) && Inv(S())
    {
      StepKeepsInv(S(), Emit(signal));
      table := PostEverywhere(table, signal);
    }

    static method PostEverywhere(was: map<nat, Source>, signal: nat) returns (table: map<nat, Source>)
      ensures table == map c | c in was :: Post(was[c], signal)
    {
      table := was;
      var left := table.Keys;
      while left != {}
        invariant left <= was.Keys == table.Keys
        invariant forall c :: c in was ==> table[c] == if c in left then was[c] else Post(was[c], signal)
        decreases left
      {
        var c :| c in left;
        left := left - {c};
        table := table[c := Post(table[c], signal)];
      }
    }

    /** g_context_specific_source_dispatch: only called while the source is ready. */
    method DispatchSource(context: nat) returns (signal: nat)
      requires Inv(S()) && Enabled(S(), Dispatch(context))
      modifies this
      ensures S() == Next(old(S()), Dispatch(context)) && Inv(S())
      ensures signal == old(table[context].pending[0])
    {
      StepKeepsInv(S(), Dispatch(context));
      var source := table[context];
      assert source.pending != [];
      signal := source.pending[0];
      source := source.(pending := source.pending[1..]);
      if source.pending == [] {
        source := source.(ready := false);
      }
      table := table[context := source];
      delivered := delivered + [(context, signal)];
    }
  }
}
