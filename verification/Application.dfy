/** gapplication.c: the use count with its inactivity timer, and the busy count with its bindings. */
module Application {
  import opened Wrappers

  datatype State = State(
    useCount: nat,
    timeout: nat,                   // inactivity_timeout; 0 for none
    timerId: nat,                   // inactivity_timeout_id; 0 for none
    timers: set<nat>,               // timeout sources attached to the main context
    created: nat,                   // timeout sources created so far, numbered from 1
    holds: int,                     // holds minus releases
    busyCount: nat,
    marks: int,                     // explicit marks minus explicit unmarks
    bindings: map<nat, bool>,       // busy bindings and their is_busy
    busyState: bool)                // what the desktop was told last

  datatype Step =
    | Hold | Release | SetTimeout(timeout: nat) | Expire(id: nat) | ServiceStart
    | MarkBusy | UnmarkBusy | Bind(key: nat, busy: bool) | Notify(key: nat, busy: bool) | Unbind(key: nat)

  const INIT := State(0, 0, 0, {}, 0, 0, 0, 0, map[], false)

  /** Callers release what they hold and unmark what they marked; a property is bound once. */
  predicate Enabled(s: State, step: Step) {
    match step
    case Release => s.holds > 0
    case Expire(id) => id in s.timers
    case UnmarkBusy => s.marks > 0
    case Bind(key, _) => key !in s.bindings
    case Notify(key, _) => key in s.bindings
    case Unbind(key) => key in s.bindings
    case _ => true
  }

  function StartTimer(s: State): State {
    s.(timerId := s.created + 1, timers := s.timers + {s.created + 1}, created := s.created + 1)
  }

  /** g_application_mark_busy and g_application_unmark_busy */
  function Mark(s: State): State {
    s.(busyCount := s.busyCount + 1, busyState := if s.busyCount == 0 then true else s.busyState)
  }

  function Unmark(s: State): State {
    if s.busyCount == 0 then s
    else s.(busyCount := s.busyCount - 1, busyState := if s.busyCount == 1 then false else s.busyState)
  }

  /** g_application_notify_busy_binding */
  function NotifyBinding(s: State, key: nat, busy: bool): State
    requires key in s.bindings
  {
    var t := if busy && !s.bindings[key] then Mark(s) else if !busy && s.bindings[key] then Unmark(s) else s;
    t.(bindings := t.bindings[key := busy])
  }

  function Next(s: State, step: Step): State
    requires Enabled(s, step)
  {
    match step
    case Hold =>
      var t := if s.timerId != 0 then s.(timers := s.timers - {s.timerId}, timerId := 0) else s;
      t.(useCount := s.useCount + 1, holds := s.holds + 1)
    case Release =>
      if s.useCount == 0 then s
      else
        var t := s.(useCount := s.useCount - 1, holds := s.holds - 1);
        if t.useCount == 0 && s.timeout != 0 then StartTimer(t) else t
    case SetTimeout(n) => s.(timeout := n)
    case Expire(id) => s.(timerId := 0, timers := s.timers - {id})
    case ServiceStart => if s.useCount == 0 && s.timerId == 0 then StartTimer(s) else s
    case MarkBusy => Mark(s).(marks := s.marks + 1)
    case UnmarkBusy => Unmark(s).(marks := s.marks - 1)
    case Bind(key, busy) => NotifyBinding(s.(bindings := s.bindings[key := false]), key, busy)
    case Notify(key, busy) => NotifyBinding(s, key, busy)
    case Unbind(key) =>
      var t := if s.bindings[key] then Unmark(s) else s;
      t.(bindings := t.bindings - {key})
  }

  function Busy(bindings: map<nat, bool>): set<nat> { set k | k in bindings && bindings[k] }

  predicate TimerOk(s: State) {
    && s.useCount == s.holds
    && s.timers == (if s.timerId == 0 then {} else {s.timerId})
    && (s.timerId != 0 ==> s.useCount == 0)
  }

  predicate BusyOk(s: State) {
    && s.marks >= 0
    && s.busyCount == s.marks + |Busy(s.bindings)|
    && s.busyState == (s.busyCount > 0)
  }

  predicate Inv(s: State) { TimerOk(s) && BusyOk(s) }

  lemma BusyAfter(bindings: map<nat, bool>, key: nat, busy: bool)
    ensures |Busy(bindings[key := busy])| ==
      |Busy(bindings)| - (if key in Busy(bindings) then 1 else 0) + (if busy then 1 else 0)
    ensures |Busy(bindings - {key})| == |Busy(bindings)| - if key in Busy(bindings) then 1 else 0
  {
    var others := Busy(bindings) - {key};
    assert key in Busy(bindings) ==> Busy(bindings) == others + {key};
    assert key !in Busy(bindings) ==> Busy(bindings) == others;
    assert Busy(bindings - {key}) == others;
    assert Busy(bindings[key := busy]) == if busy then others + {key} else others;
  }

  lemma NotifyKeepsBusy(s: State, key: nat, busy: bool)
    requires BusyOk(s) && key in s.bindings
    ensures BusyOk(NotifyBinding(s, key, busy))
  {
    BusyAfter(s.bindings, key, busy);
  }

  lemma StepKeepsTimer(s: State, step: Step)
    requires TimerOk(s) && Enabled(s, step)
    ensures TimerOk(Next(s, step))
  {
  }

  lemma StepKeepsBusy(s: State, step: Step)
    requires BusyOk(s) && Enabled(s, step)
    ensures BusyOk(Next(s, step))
  {
    match step
    case Bind(key, busy) =>
      BusyAfter(s.bindings, key, false);
      NotifyKeepsBusy(s.(bindings := s.bindings[key := false]), key, busy);
    case Notify(key, busy) => NotifyKeepsBusy(s, key, busy);
    case Unbind(key) => BusyAfter(s.bindings, key, false);
    case _ =>
  }

  ghost predicate Runs(s: State, steps: seq<Step>, t: State)
    decreases |steps|
  {
    if steps == [] then s == t
    else Enabled(s, steps[0]) && Runs(Next(s, steps[0]), steps[1..], t)
  }

  lemma {:induction false} RunKeepsInv(s: State, steps: seq<Step>, t: State)
    requires Inv(s) && Runs(s, steps, t)
    ensures Inv(t)
    decreases |steps|
  {
    if steps != [] {
      StepKeepsTimer(s, steps[0]);
      StepKeepsBusy(s, steps[0]);
      RunKeepsInv(Next(s, steps[0]), steps[1..], t);
    }
  }

  /** In every run at most one timer exists, only while nobody holds the application, so the wait loop
      of g_application_run, unless told to quit, ends exactly when there is neither; and the busy count is
      the number of outstanding marks and busy bindings, which the desktop sees as busy or not. */
  lemma CountsAreRight(steps: seq<Step>, t: State)
    requires Runs(INIT, steps, t)
    ensures t.useCount == t.holds && |t.timers| <= 1
    ensures t.timers != {} ==> t.useCount == 0 && t.timers == {t.timerId}
    ensures t.useCount != 0 || t.timerId != 0 <==> t.holds > 0 || t.timers != {}
    ensures t.busyCount == t.marks + |Busy(t.bindings)|
    ensures t.busyState <==> t.marks > 0 || Busy(t.bindings) != {}
  {
    assert Busy(map[]) == {};
    RunKeepsInv(INIT, steps, t);
  }

  // ----- the same from what has happened -----

  function Count(steps: seq<Step>, step: Step): nat {
    if steps == [] then 0 else Count(steps[..|steps| - 1], step) + if steps[|steps| - 1] == step then 1 else 0
  }

  /** The timeout set last. */
  function Timeout(steps: seq<Step>): nat {
    if steps == [] then 0
    else match steps[|steps| - 1]
      case SetTimeout(n) => n
      case _ => Timeout(steps[..|steps| - 1])
  }

  /** What was last heard of a busy binding, if it exists. */
  function Heard(steps: seq<Step>, key: nat): Option<bool> {
    if steps == [] then None
    else match steps[|steps| - 1]
      case Bind(k, busy) => if k == key then Some(busy) else Heard(steps[..|steps| - 1], key)
      case Notify(k, busy) => if k == key then Some(busy) else Heard(steps[..|steps| - 1], key)
      case Unbind(k) => if k == key then None else Heard(steps[..|steps| - 1], key)
      case _ => Heard(steps[..|steps| - 1], key)
  }

  /** Step i asks for a timer: the last hold is released with a timeout set, or the service begins to
      wait while nobody holds the application. */
  predicate Asks(steps: seq<Step>, i: nat)
    requires i < |steps|
  {
    var holds := Count(steps[..i], Hold) - Count(steps[..i], Release);
    || (steps[i] == Release && holds == 1 && Timeout(steps[..i]) != 0)
    || (steps[i] == ServiceStart && holds == 0)
  }

  /** A timer was asked for, and since then it has neither expired nor been stopped by a hold. */
  predicate TimerDue(steps: seq<Step>) {
    exists i :: 0 <= i < |steps| && Asks(steps, i) && forall j :: i < j < |steps| ==> steps[j] != Hold && !steps[j].Expire?
  }

  lemma DueMore(steps: seq<Step>, step: Step)
    ensures TimerDue(steps + [step]) <==>
      Asks(steps + [step], |steps|) || (TimerDue(steps) && step != Hold && !step.Expire?)
  {
    var all := steps + [step];
    assert forall i :: 0 <= i < |steps| ==> all[..i] == steps[..i] && all[i] == steps[i];
    assert forall i :: 0 <= i < |steps| ==> (Asks(all, i) <==> Asks(steps, i));
    if TimerDue(steps) && step != Hold && !step.Expire? {
      var i :| 0 <= i < |steps| && Asks(steps, i) && forall j :: i < j < |steps| ==> steps[j] != Hold && !steps[j].Expire?;
      assert Asks(all, i);
    }
  }

  /** The state tells exactly what the steps so far say. */
  ghost predicate ByHistory(steps: seq<Step>, t: State) {
    && t.holds == Count(steps, Hold) - Count(steps, Release)
    && t.marks == Count(steps, MarkBusy) - Count(steps, UnmarkBusy)
    && t.timeout == Timeout(steps)
    && (t.timers != {} <==> TimerDue(steps))
    && (forall k :: if Heard(steps, k).None? then k !in t.bindings
                    else k in t.bindings && t.bindings[k] == Heard(steps, k).value)
  }

  lemma HistoryStep(steps: seq<Step>, s: State, step: Step)
    requires TimerOk(s) && ByHistory(steps, s) && Enabled(s, step)
    ensures ByHistory(steps + [step], Next(s, step))
  {
    var all := steps + [step];
    assert all[..|steps|] == steps;
    DueMore(steps, step);
  }

  lemma {:induction false} HistoryRun(all: seq<Step>, k: nat, s: State, t: State)
    requires k <= |all| && Inv(s) && ByHistory(all[..k], s) && Runs(s, all[k..], t)
    ensures ByHistory(all, t)
    decreases |all| - k
  {
    if k == |all| {
      assert all[..k] == all;
    } else {
      StepKeepsTimer(s, all[k]);
      StepKeepsBusy(s, all[k]);
      HistoryStep(all[..k], s, all[k]);
      assert all[..k] + [all[k]] == all[..k + 1] && all[k..][1..] == all[k + 1..];
      HistoryRun(all, k + 1, Next(s, all[k]), t);
    }
  }

  /** In every run: the use count is holds minus releases; a timer is pending exactly if the last hold was
      released with a timeout set, or the service started, and neither a hold nor its end came since; and
      the application is busy exactly if there are more marks than unmarks or some existing binding was
      last heard to be busy. */
  lemma CountsByHistory(steps: seq<Step>, t: State)
    requires Runs(INIT, steps, t)
    ensures t.useCount == Count(steps, Hold) - Count(steps, Release)
    ensures t.timers != {} <==> TimerDue(steps)
    ensures t.busyState <==>
      Count(steps, MarkBusy) > Count(steps, UnmarkBusy) || exists k :: Heard(steps, k) == Some(true)
  {
    assert steps[0..] == steps;
    HistoryFromStart(steps, t);
    CountsAreRight(steps, t);
    HeardBusy(steps, t);
  }

  lemma HistoryFromStart(steps: seq<Step>, t: State)
    requires Runs(INIT, steps[0..], t)
    ensures ByHistory(steps, t)
  {
    StartsEmpty(steps[..0]);
    HistoryRun(steps, 0, INIT, t);
  }

  lemma StartsEmpty(none: seq<Step>)
    requires |none| == 0
    ensures Inv(INIT) && ByHistory(none, INIT)
  {
    assert Busy(map[]) == {};
  }

  lemma HeardBusy(steps: seq<Step>, t: State)
    requires ByHistory(steps, t)
    ensures Busy(t.bindings) != {} <==> exists k :: Heard(steps, k) == Some(true)
  {
    if Busy(t.bindings) != {} {
      var k :| k in Busy(t.bindings);
      assert Heard(steps, k) == Some(true);
    }
    if k :| Heard(steps, k) == Some(true) {
      assert k in Busy(t.bindings);
    }
  }

  class GApplication {
    var useCount: nat
    var timeout: nat
    var timerId: nat
    var timers: set<nat>
    var created: nat
    var holds: int
    var busyCount: nat
    var marks: int
    var bindings: map<nat, bool>
    var busyState: bool

    ghost function S(): State reads this {
      State(useCount, timeout, timerId, timers, created, holds, busyCount, marks, bindings, busyState)
    }

    constructor ()
      ensures S() == INIT
    {
      useCount, timeout, timerId, timers, created, holds := 0, 0, 0, {}, 0, 0;
      busyCount, marks, bindings, busyState := 0, 0, map[], false;
    }

    method AddTimer()
      modifies this
      ensures S() == StartTimer(old(S()))
    {
      created := created + 1;
      timers := timers + {created};
      timerId := created;
    }

    method HoldApplication()
      modifies this
      ensures S() == Next(old(S()), Hold)
    {
      if timerId != 0 {
        timers := timers - {timerId};
        timerId := 0;
      }
      useCount, holds := useCount + 1, holds + 1;
    }

    method ReleaseApplication()
      requires Enabled(S(), Release)
      modifies this
      ensures S() == Next(old(S()), Release)
    {
      if useCount == 0 { return; }
      useCount, holds := useCount - 1, holds - 1;
      if useCount == 0 && timeout != 0 {
        AddTimer();
      }
    }

    /** inactivity_timeout_expired */
    method TimeoutExpired(id: nat)
      requires Enabled(S(), Expire(id))
      modifies this
      ensures S() == Next(old(S()), Expire(id))
    {
      timerId := 0;
      timers := timers - {id};
    }

    /** What g_application_run does for a registered service before it waits. */
    method StartService()
      modifies this
      ensures S() == Next(old(S()), ServiceStart)
    {
      if useCount == 0 && timerId == 0 {
        AddTimer();
      }
    }

    method IncreaseBusy()
      modifies this
      ensures S() == Mark(old(S()))
    {
      var wasBusy := busyCount > 0;
      busyCount := busyCount + 1;
      if !wasBusy {
        busyState := true;
      }
    }

    method DecreaseBusy()
      modifies this
      ensures S() == Unmark(old(S()))
    {
      if busyCount == 0 { return; }
      busyCount := busyCount - 1;
      if busyCount == 0 {
        busyState := false;
      }
    }

    method NotifyBusyBinding(key: nat, busy: bool)
      requires key in bindings
      modifies this
      ensures S() == NotifyBinding(old(S()), key, busy)
    {
      if busy && !bindings[key] {
        IncreaseBusy();
      } else if !busy && bindings[key] {
        DecreaseBusy();
      }
      bindings := bindings[key := busy];
    }

    /** g_application_bind_busy_property */
    method BindBusyProperty(key: nat, busy: bool)
      requires Enabled(S(), Bind(key, busy))
      modifies this
      ensures S() == Next(old(S()), Bind(key, busy))
    {
      bindings := bindings[key := false];
      NotifyBusyBinding(key, busy);
    }

    /** g_application_unbind_busy_property, which destroys the binding. */
    method UnbindBusyProperty(key: nat)
      requires Enabled(S(), Unbind(key))
      modifies this
      ensures S() == Next(old(S()), Unbind(key))
    {
      if bindings[key] {
        DecreaseBusy();
      }
      bindings := bindings - {key};
    }
  }
}
