/** gactiongroupexporter.c: coalesces the changes of an action group into batches of Changed
    signals, sent from an idle source or before the reply to any method call. */
module ActionGroupExporter {
  import opened Wrappers
  import opened Actions
  import opened RemoteActions

  // ----- event masks -----

  /** The four bits of an event mask. */
  datatype Mask = Mask(added: bool, removed: bool, state: bool, enabled: bool) {
    predicate Changes() { state || enabled }
    predicate Moves() { added || removed }
    predicate Empty() { !Changes() && !Moves() }
  }

  const NO_EVENTS := Mask(false, false, false, false)

  // ----- protocol state and its steps -----

  datatype State = State(
    group: Group,                   // the exported GActionGroup
    pending: map<string, Mask>,     // pending_changes
    source: Option<nat>,            // pending_source
    sources: set<nat>,              // idle sources attached to the main context
    created: nat,                   // idle sources created so far
    wire: seq<Message>)             // everything sent on the connection

  datatype Method = List | Describe(name: string) | DescribeAll | Activate | SetState

  datatype Step =
    | Add(name: string, action: Action)
    | Remove(name: string)
    | ChangeState(name: string, state: Variant)
    | ChangeEnabled(name: string, enabled: bool)
    | Idle
    | Call(client: nat, request: Method, reaction: seq<Step>)   // the signals it makes the group emit

  function Init(group: Group): State {
    State(group, map[], None, {}, 0, [])
  }

  function Events(s: State, name: string): Mask {
    if name in s.pending then s.pending[name] else NO_EVENTS
  }

  function SetEvents(s: State, name: string, events: Mask): State {
    var pending := if !events.Empty() then s.pending[name := events] else s.pending - {name};
    var t := s.(pending := pending);
    if pending != map[] && s.source.None? then
      t.(source := Some(s.created), sources := s.sources + {s.created}, created := s.created + 1)
    else if pending == map[] && s.source.Some? then
      t.(source := None, sources := s.sources - {s.source.value})
    else t
  }

  /** The mask that the handler of a group signal computes. */
  function NewMask(m: Mask, step: Step): Mask {
    match step
    case Add(_, _) => m.(added := true)
    case Remove(_) =>
      if m.added then m.(added := false) else m.(removed := true, state := false, enabled := false)
    case ChangeState(_, _) => if m.added then m else m.(state := true)
    case ChangeEnabled(_, _) => if m.added then m else m.(enabled := true)
    case _ => m
  }

  predicate Signals(step: Step) {
    step.Add? || step.Remove? || step.ChangeState? || step.ChangeEnabled?
  }

  /** What GObject lets a group announce: names are added when absent, and removed, re-enabled or
      given a new state (of the same type) only while present. */
  predicate Allowed(group: Group, step: Step) {
    match step
    case Add(name, _) => name !in group
    case Remove(name) => name in group
    case ChangeState(name, v) =>
      && name in group && group[name].state.Some?
      && v.typeString == group[name].state.value.typeString
    case ChangeEnabled(name, _) => name in group
    case _ => true
  }

  /** The group may emit these signals, one after the other. */
  predicate Reacts(group: Group, steps: seq<Step>)
    decreases |steps|
  {
    steps == [] ||
    (Signals(steps[0]) && Allowed(group, steps[0]) && Reacts(NewGroup(group, steps[0]), steps[1..]))
  }

  /** Only Activate and SetState call into the group, which may react before they return. */
  predicate Enabled(s: State, step: Step) {
    && Allowed(s.group, step)
    && (step.Idle? ==> s.source.Some? && s.source.value in s.sources)
    && (step.Call? ==> Reacts(s.group, step.reaction) && (Queries(step.request) ==> step.reaction == []))
  }

  predicate Queries(m: Method) {
    m.List? || m.Describe? || m.DescribeAll?
  }

  function NewGroup(group: Group, step: Step): Group
    requires Allowed(group, step)
  {
    match step
    case Add(name, action) => group[name := action]
    case Remove(name) => group - {name}
    case ChangeState(name, v) => group[name := group[name].(state := Some(v))]
    case ChangeEnabled(name, e) => group[name := group[name].(enabled := e)]
    case _ => group
  }

  /** Pending events only speak of what the group can answer. */
  predicate Answerable(name: string, group: Group, m: Mask) {
    && m.Changes() != m.Moves()
    && (name in group <==> m.added || m.Changes())
    && (m.state ==> group[name].state.Some?)
  }

  predicate AllAnswerable(group: Group, pending: map<string, Mask>) {
    forall n :: n in pending ==> Answerable(n, group, pending[n])
  }

  predicate Shape(s: State) {
    && AllAnswerable(s.group, s.pending)
    && (s.source.Some? <==> s.pending != map[])
    && s.sources == (if s.source.Some? then {s.source.value} else {})
    && (s.source.Some? ==> s.source.value < s.created)
  }

  /** The Changed signal that reports the pending events. */
  function Batch(group: Group, pending: map<string, Mask>): Changed
    requires AllAnswerable(group, pending)
  {
    Changed(
      set n | n in pending && pending[n].removed,
      map n | n in pending && pending[n].enabled :: group[n].enabled,
      map n | n in pending && pending[n].state :: group[n].state.value,
      map n | n in pending && pending[n].added :: group[n])
  }

  function Dispatch(s: State): State
    requires AllAnswerable(s.group, s.pending)
  {
    s.(pending := map[], source := None, wire := s.wire + [Signal(Batch(s.group, s.pending))])
  }

  function Flush(s: State): State
    requires Shape(s)
  {
    if s.source.Some? then Dispatch(s.(sources := s.sources - {s.source.value})) else s
  }

  function Answer(group: Group, m: Method): Reply {
    match m
    case List => Names(group.Keys)
    case Describe(name) => if name in group then Description(group[name]) else NoSuchAction(name)
    case DescribeAll => Descriptions(group)
    case Activate => Nothing
    case SetState => Nothing
  }

  /** The group changes and the handler of its signal runs. */
  function Signalled(s: State, step: Step): State
    requires Signals(step) && Allowed(s.group, step)
  {
    SetEvents(s.(group := NewGroup(s.group, step)), step.name, NewMask(Events(s, step.name), step))
  }

  function React(s: State, steps: seq<Step>): State
    requires Reacts(s.group, steps)
    decreases |steps|
  {
    if steps == [] then s else React(Signalled(s, steps[0]), steps[1..])
  }

  /** A method call: flush, let the group react, and reply. */
  function Called(s: State, client: nat, m: Method, reaction: seq<Step>): State
    requires Shape(s) && Reacts(s.group, reaction)
  {
    var t := React(Flush(s), reaction);
    t.(wire := t.wire + [Return(client, Answer(t.group, m))])
  }

  function Next(s: State, step: Step): State
    requires Shape(s) && Enabled(s, step)
  {
    match step
    case Idle =>
      var t := Dispatch(s);
      t.(sources := t.sources - {s.source.value})
    case Call(client, m, reaction) => Called(s, client, m, reaction)
    case _ => Signalled(s, step)
  }

  // ----- invariant -----

  /** How a remote copy and the group may differ at one name, given the pending events for it. */
  predicate Agree(name: string, copy: Group, group: Group, m: Mask) {
    if m.Empty() then
      (name in copy <==> name in group) && (name in group ==> copy[name] == group[name])
    else if m.Moves() then name in copy <==> m.removed
    else
      && name in copy && name in group
      && copy[name].parameterType == group[name].parameterType
      && (m.enabled || copy[name].enabled == group[name].enabled)
      && (m.state || copy[name].state == group[name].state)
      && copy[name].state.Some? == group[name].state.Some?
      && (group[name].state.Some? ==>
            copy[name].state.value.typeString == group[name].state.value.typeString)
  }

  ghost predicate Tracks(copy: Group, s: State) {
    forall name :: Agree(name, copy, s.group, Events(s, name))
  }

  ghost predicate TracksClient(client: nat, s: State) {
    var copy := Mirror(client, s.wire);
    copy.Some? ==> Tracks(copy.value, s)
  }

  ghost predicate Inv(s: State) {
    Shape(s) && forall client :: TracksClient(client, s)
  }

  /** The event mask as the C code holds it. */
  function Bits(m: Mask): bv32 {
    (if m.added then 1 else 0) | (if m.removed then 2 else 0)
    | (if m.state then 4 else 0) | (if m.enabled then 8 else 0)
  }

  /** What the assertions on queued changes test as written.  The one on a removal looks at every bit but
      the two it is about, so it cannot fail; the one on an addition fails only if both are set. */
  lemma AssertionsAsWritten(m: Mask)
    ensures !Bits(m) & !(4 | 8) != 0
    ensures !Bits(m) & (4 | 8) != 0 <==> !(m.state && m.enabled)
    ensures Bits(m) & (4 | 8) == 0 <==> !m.Changes()
  {
  }

  /** A handler turns a coherent mask into a coherent one that the new group can answer. */
  lemma MaskStaysAnswerable(name: string, group: Group, m: Mask, step: Step)
    requires Signals(step) && step.name == name && Allowed(group, step)
    requires m.Empty() || Answerable(name, group, m)
    ensures NewMask(m, step).Empty() || Answerable(name, NewGroup(group, step), NewMask(m, step))
  {
  }

  /** The difference a handler makes to the group is compensated by what it adds to the mask. */
  lemma MaskKeepsAgreement(name: string, copy: Group, group: Group, m: Mask, step: Step)
    requires Signals(step) && step.name == name && Allowed(group, step)
    requires m.Empty() || Answerable(name, group, m)
    requires Agree(name, copy, group, m)
    ensures Agree(name, copy, NewGroup(group, step), NewMask(m, step))
  {
  }

  lemma EventsAfter(s: State, name: string, events: Mask, n: string)
    ensures Events(SetEvents(s, name, events), n) == if n == name then events else Events(s, n)
  {
  }

  lemma HandlersKeepShape(s: State, step: Step)
    requires Shape(s) && Signals(step) && Allowed(s.group, step)
    ensures Shape(Signalled(s, step))
  {
  }

  lemma HandlersKeepTracking(copy: Group, s: State, step: Step)
    requires Shape(s) && Signals(step) && Allowed(s.group, step) && Tracks(copy, s)
    ensures Tracks(copy, Signalled(s, step))
  {
    var t := Signalled(s, step);
    var u := s.(group := NewGroup(s.group, step));
    forall name ensures Agree(name, copy, t.group, Events(t, name)) {
      assert Agree(name, copy, s.group, Events(s, name));
      EventsAfter(u, step.name, NewMask(Events(s, step.name), step), name);
      if name == step.name {
        MaskKeepsAgreement(name, copy, s.group, Events(s, name), step);
      }
    }
  }

  /** A whole reaction sends nothing, and what it changes is what is pending after it. */
  lemma {:induction false} ReactionKeepsTracking(copy: Group, s: State, steps: seq<Step>)
    requires Shape(s) && Reacts(s.group, steps)
    ensures Shape(React(s, steps)) && React(s, steps).wire == s.wire
    ensures Tracks(copy, s) ==> Tracks(copy, React(s, steps))
    decreases |steps|
  {
    if steps != [] {
      HandlersKeepShape(s, steps[0]);
      if Tracks(copy, s) { HandlersKeepTracking(copy, s, steps[0]); }
      ReactionKeepsTracking(copy, Signalled(s, steps[0]), steps[1..]);
    }
  }

  /** Applying the pending batch to a tracking copy gives exactly the group. */
  lemma BatchCompletes(copy: Group, s: State)
    requires Shape(s) && Tracks(copy, s)
    ensures Apply(copy, Batch(s.group, s.pending)) == s.group
  {
    var c := Batch(s.group, s.pending);
    var after := Apply(copy, c);
    forall name
      ensures name in after <==> name in s.group
      ensures name in s.group ==> after[name] == s.group[name]
    {
      assert Agree(name, copy, s.group, Events(s, name));
      assert Events(s, name).Empty() || Answerable(name, s.group, Events(s, name));
    }
  }

  lemma NothingPending(copy: Group, s: State)
    requires Tracks(copy, s) && s.pending == map[]
    ensures copy == s.group
  {
    forall name
      ensures name in copy <==> name in s.group
      ensures name in s.group ==> copy[name] == s.group[name]
    {
      assert Agree(name, copy, s.group, Events(s, name));
    }
  }

  /** Flushing makes every existing remote copy equal to the group and creates no new one. */
  lemma FlushSynchronises(s: State, client: nat)
    requires Shape(s) && TracksClient(client, s)
    ensures Mirror(client, Flush(s).wire) == if Mirror(client, s.wire).Some? then Some(s.group) else None
  {
    var copy := Mirror(client, s.wire);
    if s.source.Some? {
      MirrorSnoc(client, s.wire, Signal(Batch(s.group, s.pending)));
      if copy.Some? { BatchCompletes(copy.value, s); }
    } else if copy.Some? {
      NothingPending(copy.value, s);
    }
  }

  lemma FlushedShape(s: State)
    requires Shape(s)
    ensures Shape(Flush(s)) && Flush(s).group == s.group && Flush(s).pending == map[]
  {
  }

  /** The same, seen by any client, when the flush is followed by the group's reaction and the reply: a
      copy is the group as it was when the call arrived, and lags by what the reaction left pending. */
  lemma CallSynchronises(s: State, client: nat, m: Method, reaction: seq<Step>, other: nat)
    requires Shape(s) && TracksClient(other, s)
    requires Reacts(s.group, reaction) && (Queries(m) ==> reaction == [])
    ensures Shape(Called(s, client, m, reaction)) && TracksClient(other, Called(s, client, m, reaction))
    ensures Mirror(other, Called(s, client, m, reaction).wire) ==
      if Mirror(other, s.wire).Some? || (other == client && m.DescribeAll?) then Some(s.group) else None
  {
    FlushSynchronises(s, other);
    FlushedShape(s);
    ReactionKeepsTracking(s.group, Flush(s), reaction);
    var t := React(Flush(s), reaction);
    MirrorSnoc(other, t.wire, Return(client, Answer(t.group, m)));
    TracksByTable(s.group, t, Called(s, client, m, reaction));
  }

  lemma TracksByTable(copy: Group, s: State, t: State)
    requires Tracks(copy, s) && t.group == s.group && t.pending == s.pending
    ensures Tracks(copy, t)
  {
    forall name ensures Agree(name, copy, t.group, Events(t, name)) {
      assert Agree(name, copy, s.group, Events(s, name));
    }
  }

  lemma StepKeepsInv(s: State, step: Step)
    requires Inv(s) && Enabled(s, step)
    ensures Inv(Next(s, step))
  {
    var t := Next(s, step);
    if Signals(step) { HandlersKeepShape(s, step); }
    if step.Call? {
      FlushedShape(s);
      ReactionKeepsTracking(s.group, Flush(s), step.reaction);
    }
    forall client ensures TracksClient(client, t) {
      assert TracksClient(client, s);
      match step
      case Idle =>
        assert t == Flush(s);
        FlushSynchronises(s, client);
      case Call(caller, m, reaction) => CallSynchronises(s, caller, m, reaction, client);
      case _ =>
        if Mirror(client, s.wire).Some? { HandlersKeepTracking(Mirror(client, s.wire).value, s, step); }
    }
  }

  // ----- whole runs -----

  ghost predicate Runs(s: State, steps: seq<Step>, t: State)
    decreases |steps|
  {
    if steps == [] then s == t
    else Shape(s) && Enabled(s, steps[0]) && Runs(Next(s, steps[0]), steps[1..], t)
  }

  lemma {:induction false} RunKeepsInv(s: State, steps: seq<Step>, t: State)
    requires Inv(s) && Runs(s, steps, t)
    ensures Inv(t)
    decreases |steps|
  {
    if steps != [] {
      StepKeepsInv(s, steps[0]);
      RunKeepsInv(Next(s, steps[0]), steps[1..], t);
    }
  }

  /** In every run, the pending masks are exactly what each remote copy lacks; once the queue is
      flushed every remote copy is the group itself. */
  lemma ReplicasConverge(group: Group, steps: seq<Step>, t: State, client: nat)
    requires Runs(Init(group), steps, t)
    ensures Shape(t)
    ensures Mirror(client, t.wire).Some? ==>
      Apply(Mirror(client, t.wire).value, Batch(t.group, t.pending)) == t.group
    ensures Mirror(client, t.wire).Some? ==> Mirror(client, Flush(t).wire) == Some(t.group)
  {
    RunKeepsInv(Init(group), steps, t);
    assert TracksClient(client, t);
    FlushSynchronises(t, client);
    if Mirror(client, t.wire).Some? { BatchCompletes(Mirror(client, t.wire).value, t); }
  }

  /** A call sends what was pending, if anything, and its reply. */
  ghost predicate SentByCall(t: State, client: nat, m: Method, wire: seq<Message>) {
    && |wire| == |t.wire| + (if t.pending == map[] then 1 else 2) && t.wire <= wire
    && (t.pending != map[] ==> wire[|t.wire|].Signal?)
    && wire[|wire| - 1].Return? && wire[|wire| - 1].client == client
    && Replies(t.group, m, wire[|wire| - 1].reply)
  }

  lemma CallOnTheWire(t: State, client: nat, m: Method, reaction: seq<Step>)
    requires Shape(t) && Reacts(t.group, reaction) && (Queries(m) ==> reaction == [])
    ensures SentByCall(t, client, m, Called(t, client, m, reaction).wire)
  {
    FlushedShape(t);
    ReactionKeepsTracking(t.group, Flush(t), reaction);
  }

  /** What each method has to answer about a group. */
  ghost predicate Replies(group: Group, m: Method, reply: Reply) {
    match m
    case List => reply.Names? && forall n :: n in reply.names <==> n in group
    case Describe(name) =>
      (name in group ==> reply == Description(group[name])) && (name !in group ==> reply == NoSuchAction(name))
    case DescribeAll => reply == Descriptions(group)
    case Activate => reply == Nothing
    case SetState => reply == Nothing
  }

  /** When a method call returns, it has sent what was pending, if anything, and then the one reply, which
      describes the group as it was when the call arrived; and every replica is that group.  Queries leave
      nothing pending.  What the group did in reaction to Activate or SetState is pending, and makes
      every replica the group at the return. */
  lemma CallsSeeTheGroup(group: Group, steps: seq<Step>, t: State,
                         client: nat, m: Method, reaction: seq<Step>, other: nat)
    requires Runs(Init(group), steps, t) && Enabled(t, Call(client, m, reaction))
    ensures Shape(t)
    ensures
      var u := Next(t, Call(client, m, reaction));
      && Shape(u)
      && SentByCall(t, client, m, u.wire)
      && (Queries(m) ==> u.group == t.group && u.pending == map[])
      && (m.DescribeAll? ==> Mirror(client, u.wire) == Some(t.group))
      && (Mirror(other, u.wire).Some? ==>
            && Mirror(other, u.wire).value == t.group
            && Apply(t.group, Batch(u.group, u.pending)) == u.group)
  {
    RunKeepsInv(Init(group), steps, t);
    assert TracksClient(client, t) && TracksClient(other, t);
    FlushedShape(t);
    CallSynchronises(t, client, m, reaction, client);
    CallSynchronises(t, client, m, reaction, other);
    CallOnTheWire(t, client, m, reaction);
    var u := Next(t, Call(client, m, reaction));
    if Mirror(other, u.wire).Some? { BatchCompletes(t.group, u); }
  }

  /** SetState really leaves the replicas behind: a new state is there when the call returns, and every
      replica still shows the old one. */
  lemma SetStateLeavesReplicasBehind(group: Group, steps: seq<Step>, t: State,
                                     client: nat, name: string, state: Variant, other: nat)
    requires Runs(Init(group), steps, t) && Allowed(t.group, ChangeState(name, state))
    requires t.group[name].state != Some(state) && Mirror(other, t.wire).Some?
    ensures Shape(t) && Enabled(t, Call(client, SetState, [ChangeState(name, state)]))
    ensures
      var u := Next(t, Call(client, SetState, [ChangeState(name, state)]));
      && name in u.group && u.group[name].state == Some(state) && u.pending != map[]
      && Mirror(other, u.wire) == Some(t.group)
  {
    var step := ChangeState(name, state);
    RunKeepsInv(Init(group), steps, t);
    assert TracksClient(other, t);
    OneReaction(t, step);
    CallSynchronises(t, client, SetState, [step], other);
    FlushedShape(t);
    OneReaction(Flush(t), step);
    var u := Next(t, Call(client, SetState, [step]));
    assert Agree(name, t.group, u.group, Events(u, name));
    assert name in u.pending;
  }

  lemma OneReaction(s: State, step: Step)
    requires Signals(step) && Allowed(s.group, step)
    ensures Reacts(s.group, [step]) && React(s, [step]) == Signalled(s, step)
  {
    assert [step][1..] == [];
    assert Reacts(NewGroup(s.group, step), []);
    assert React(Signalled(s, step), []) == Signalled(s, step);
  }

  // ----- what is pending, from what has happened -----

  predicate Concerns(step: Step, name: string) { Signals(step) && step.name == name }

  predicate Comes(step: Step, name: string) { (step.Add? || step.Remove?) && step.name == name }

  predicate Moved(steps: seq<Step>, name: string) {
    exists i :: 0 <= i < |steps| && Comes(steps[i], name)
  }

  predicate StateSet(steps: seq<Step>, name: string) {
    exists i :: 0 <= i < |steps| && Concerns(steps[i], name) && steps[i].ChangeState?
  }

  predicate EnabledSet(steps: seq<Step>, name: string) {
    exists i :: 0 <= i < |steps| && Concerns(steps[i], name) && steps[i].ChangeEnabled?
  }

  lemma OneMore(steps: seq<Step>, step: Step, name: string)
    ensures Moved(steps + [step], name) <==> Moved(steps, name) || Comes(step, name)
    ensures StateSet(steps + [step], name) <==> StateSet(steps, name) || (step.ChangeState? && step.name == name)
    ensures EnabledSet(steps + [step], name) <==> EnabledSet(steps, name) || (step.ChangeEnabled? && step.name == name)
  {
    var all := steps + [step];
    assert all[|steps|] == step;
    assert forall i :: 0 <= i < |steps| ==> all[i] == steps[i];
  }

  /** The events to report at one name after a group has gone from one value to another by some signals: a
      name that is back was removed and added, and changes matter only while the name has stayed. */
  predicate ToReport(m: Mask, name: string, before: Group, after: Group, steps: seq<Step>) {
    var moved := Moved(steps, name);
    && (m.removed <==> moved && name in before)
    && (m.added <==> moved && name in after)
    && (m.state <==> !moved && StateSet(steps, name))
    && (m.enabled <==> !moved && EnabledSet(steps, name))
    && (!moved ==> (name in before <==> name in after))
  }

  lemma {:induction false} ReactSnoc(s: State, steps: seq<Step>, step: Step)
    requires Reacts(s.group, steps + [step])
    ensures Reacts(s.group, steps) && Signals(step) && Allowed(React(s, steps).group, step)
    ensures React(s, steps + [step]) == Signalled(React(s, steps), step)
    decreases |steps|
  {
    if steps == [] {
      assert steps + [step] == [step] && [step][1..] == [];
      OneReaction(s, step);
    } else {
      assert (steps + [step])[0] == steps[0] && (steps + [step])[1..] == steps[1..] + [step];
      ReactSnoc(Signalled(s, steps[0]), steps[1..], step);
    }
  }

  /** Whatever a group emits after a flush, the pending mask of a name is exactly what there is to report
      about it. */
  lemma {:induction false} MaskByHistory(s: State, steps: seq<Step>, name: string)
    requires Shape(s) && s.pending == map[] && Reacts(s.group, steps)
    ensures ToReport(Events(React(s, steps), name), name, s.group, React(s, steps).group, steps)
    decreases |steps|
  {
    if steps != [] {
      var before, step := steps[..|steps| - 1], steps[|steps| - 1];
      assert steps == before + [step];
      ReactSnoc(s, before, step);
      MaskByHistory(s, before, name);
      ReactionKeepsTracking(s.group, s, before);
      var t := React(s, before);
      ReportStep(Events(t, name), name, s.group, t.group, before, step);
      EventsAfter(t.(group := NewGroup(t.group, step)), step.name, NewMask(Events(t, step.name), step), name);
    }
  }

  /** In every run: the masks since the last flush. */
  lemma MasksSinceFlush(group: Group, steps: seq<Step>, t: State, more: seq<Step>, name: string)
    requires Runs(Init(group), steps, t) && Reacts(t.group, more)
    ensures Shape(t)
    ensures
      var u := React(Flush(t), more);
      ToReport(Events(u, name), name, t.group, u.group, more) && u.wire == Flush(t).wire
  {
    RunKeepsInv(Init(group), steps, t);
    FlushedShape(t);
    MaskByHistory(Flush(t), more, name);
    ReactionKeepsTracking(t.group, Flush(t), more);
  }

  lemma ReportStep(m: Mask, name: string, before: Group, after: Group, steps: seq<Step>, step: Step)
    requires ToReport(m, name, before, after, steps) && Signals(step) && Allowed(after, step)
    requires m.Empty() || Answerable(name, after, m)
    ensures ToReport(if step.name == name then NewMask(m, step) else m, name, before, NewGroup(after, step), steps + [step])
  {
    OneMore(steps, step, name);
    if step.name != name { assert name in NewGroup(after, step) <==> name in after; }
  }

  /** An addition that is withdrawn before it was reported leaves no trace, not even an idle source. */
  lemma AddThenRemoveIsSilent(s: State, name: string, action: Action)
    requires Shape(s) && name !in s.group && name !in s.pending
    ensures Shape(Next(s, Add(name, action))) && Enabled(Next(s, Add(name, action)), Remove(name))
    ensures
      var t := Next(Next(s, Add(name, action)), Remove(name));
      && t.group == s.group && t.pending == s.pending && t.wire == s.wire
      && t.source == s.source && t.sources == s.sources
  {
    HandlersKeepShape(s, Add(name, action));
    var u := Next(s, Add(name, action));
    assert u.pending == s.pending[name := NO_EVENTS.(added := true)];
    assert s.pending[name := NO_EVENTS.(added := true)] - {name} == s.pending;
    assert s.group[name := action] - {name} == s.group;
  }

  // ----- the exporter object -----

  class Exporter {
    var group: Group
    var pending: map<string, Mask>
    var source: Option<nat>
    var sources: set<nat>
    var created: nat
    var wire: seq<Message>

    ghost function S(): State reads this {
      State(group, pending, source, sources, created, wire)
    }

    constructor (g: Group)
      ensures S() == Init(g) && Shape(S())
    {
      group, pending, source, sources, created, wire := g, map[], None, {}, 0, [];
    }

    function GetEvents(name: string): (m: Mask)
      reads this
      ensures m == Events(S(), name)
    {
      if name in pending then pending[name] else NO_EVENTS
    }

    /** g_action_group_exporter_set_events */
    method SetPending(name: string, events: Mask)
      modifies this
      ensures S() == SetEvents(old(S()), name, events)
    {
      if !events.Empty() {
        pending := pending[name := events];
      } else {
        pending := pending - {name};
      }
      var haveEvents := pending != map[];
      var isQueued := source.Some?;
      if haveEvents && !isQueued {
        source := Some(created);
        sources := sources + {created};
        created := created + 1;
      }
      if !haveEvents && isQueued {
        sources := sources - {source.value};
        source := None;
      }
    }

    method ActionAdded(name: string, action: Action)
      requires Shape(S()) && Enabled(S(), Add(name, action))
      modifies this
      ensures S() == Next(old(S()), Add(name, action)) && Shape(S())
      ensures group == old(group)[name := action]
    {
      HandlersKeepShape(S(), Add(name, action));
      var mask := GetEvents(name);
      assert !(mask.state && mask.enabled); // the assertion as written
      assert !mask.Changes();                       // as its comment states it
      mask := mask.(added := true);
      group := group[name := action];
      SetPending(name, mask);
    }

    method ActionRemoved(name: string)
      requires Shape(S()) && Enabled(S(), Remove(name))
      modifies this
      ensures S() == Next(old(S()), Remove(name)) && Shape(S())
      ensures group == old(group) - {name}
    {
      HandlersKeepShape(S(), Remove(name));
      var mask := GetEvents(name);
      if mask.added {
        // As written the assertion also tests unused bits and cannot fail; this is its comment.
        assert !mask.Changes();
        mask := mask.(added := false);
      } else {
        mask := mask.(removed := true);
        mask := mask.(state := false, enabled := false);
      }
      group := group - {name};
      SetPending(name, mask);
    }

    method ActionStateChanged(name: string, state: Variant)
      requires Shape(S()) && Enabled(S(), ChangeState(name, state))
      modifies this
      ensures S() == Next(old(S()), ChangeState(name, state)) && Shape(S())
      ensures group == old(group)[name := old(group)[name].(state := Some(state))]
    {
      HandlersKeepShape(S(), ChangeState(name, state));
      var mask := GetEvents(name);
      assert !mask.removed || mask.added;
      if !mask.added {
        mask := mask.(state := true);
      }
      group := group[name := group[name].(state := Some(state))];
      SetPending(name, mask);
    }

    method ActionEnabledChanged(name: string, enabled: bool)
      requires Shape(S()) && Enabled(S(), ChangeEnabled(name, enabled))
      modifies this
      ensures S() == Next(old(S()), ChangeEnabled(name, enabled)) && Shape(S())
      ensures group == old(group)[name := old(group)[name].(enabled := enabled)]
    {
      HandlersKeepShape(S(), ChangeEnabled(name, enabled));
      var mask := GetEvents(name);
      assert !mask.removed || mask.added;
      if !mask.added {
        mask := mask.(enabled := true);
      }
      group := group[name := group[name].(enabled := enabled)];
      SetPending(name, mask);
    }

    /** The loop of g_action_group_exporter_dispatch_events over the pending table. */
    method Collect() returns (c: Changed)
      requires AllAnswerable(group, pending)
      ensures c == Batch(group, pending)
    {
      c := Changed({}, map[], map[], map[]);
      var left := pending.Keys;
      while left != {}
        invariant left <= pending.Keys
        invariant forall n :: Reports(c, n, group, if n in left then NO_EVENTS else GetEvents(n))
        decreases left
      {
        var name :| name in left;
        left := left - {name};
        var events := pending[name];
        assert Answerable(name, group, events);
        assert events.Changes() != events.Moves();
        if events.removed {
          c := c.(removals := c.removals + {name});
        }
        if events.enabled {
          c := c.(enableChanges := c.enableChanges[name := group[name].enabled]);
        }
        if events.state {
          c := c.(stateChanges := c.stateChanges[name := group[name].state.value]);
        }
        if events.added {
          c := c.(additions := c.additions[name := group[name]]);
        }
      }
      ReportsAreBatch(c, group, pending);
    }

    /** g_action_group_exporter_dispatch_events */
    method DispatchEvents()
      requires AllAnswerable(group, pending)
      modifies this
      ensures S() == Dispatch(old(S()))
    {
      var c := Collect();
      pending := map[];
      wire := wire + [Signal(c)];
      source := None;
    }

    /** The main loop runs the idle source, which asks to be removed. */
    method RunIdle()
      requires Shape(S()) && Enabled(S(), Idle)
      modifies this
      ensures S() == Next(old(S()), Idle) && Shape(S())
    {
      var running := source.value;
      DispatchEvents();
      sources := sources - {running};
    }

    /** g_action_group_exporter_flush_queue */
    method FlushQueue()
      requires Shape(S())
      modifies this
      ensures S() == Flush(old(S())) && Shape(S())
    {
      if source.Some? {
        sources := sources - {source.value};
        DispatchEvents();
        assert source.None?;
      }
    }

    /** The group's handlers, one after the other, as the group emits its signals. */
    method ReactTo(steps: seq<Step>)
      requires Shape(S()) && Reacts(group, steps)
      modifies this
      ensures S() == React(old(S()), steps) && Shape(S())
      decreases |steps|
    {
      if steps == [] { return; }
      match steps[0] {
        case Add(name, action) => ActionAdded(name, action);
        case Remove(name) => ActionRemoved(name);
        case ChangeState(name, state) => ActionStateChanged(name, state);
        case ChangeEnabled(name, enabled) => ActionEnabledChanged(name, enabled);
      }
      ReactTo(steps[1..]);
    }

    /** org_gtk_Actions_method_call: every call flushes the queue before it is answered, and before
        Activate and SetState call into the group. */
    method MethodCall(client: nat, request: Method, reaction: seq<Step>)
      requires Shape(S()) && Enabled(S(), Call(client, request, reaction))
      modifies this
      ensures S() == Next(old(S()), Call(client, request, reaction)) && Shape(S())
    {
      FlushQueue();
      var result := Nothing;
      match request {
        case List => result := Names(group.Keys);
        case Describe(name) =>
          if name !in group {
            result := NoSuchAction(name);
          } else {
            result := Description(group[name]);
          }
        case DescribeAll =>
          var all := DescribeEach();
          result := Descriptions(all);
        case _ => ReactTo(reaction);   // Activate and SetState
      }
      wire := wire + [Return(client, result)];
    }

    method DescribeEach() returns (all: Group)
      ensures all == group
    {
      all := map[];
      var left := group.Keys;
      while left != {}
        invariant left <= group.Keys
        invariant all == map n | n in group && n !in left :: group[n]
        decreases left
      {
        var name :| name in left;
        left := left - {name};
        all := all[name := group[name]];
      }
    }
  }

  /** What a signal says about one name. */
  predicate Reports(c: Changed, name: string, group: Group, m: Mask) {
    && (name in c.removals <==> m.removed)
    && (name in c.enableChanges <==> m.enabled)
    && (name in c.stateChanges <==> m.state)
    && (name in c.additions <==> m.added)
    && (m.enabled ==> name in group && c.enableChanges[name] == group[name].enabled)
    && (m.state ==> name in group && Some(c.stateChanges[name]) == group[name].state)
    && (m.added ==> name in group && c.additions[name] == group[name])
  }

  lemma ReportsAreBatch(c: Changed, group: Group, pending: map<string, Mask>)
    requires AllAnswerable(group, pending)
    requires forall n :: Reports(c, n, group, if n in pending then pending[n] else NO_EVENTS)
    ensures c == Batch(group, pending)
  {
  }
}
