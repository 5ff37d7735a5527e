/** Action descriptions and the messages of the org.gtk.Actions D-Bus interface. */
module Actions {
  import opened Wrappers

  /** A GVariant: its type string and its printed value. */
  datatype Variant = Variant(typeString: string, text: string)

  /** The (bgav) description of one action. */
  datatype Action = Action(enabled: bool, parameterType: string, state: Option<Variant>)

  type Group = map<string, Action>

  /** The arguments of the Changed signal.  No name occurs twice in one of the four arrays. */
  datatype Changed = Changed(
    removals: set<string>,
    enableChanges: map<string, bool>,
    stateChanges: map<string, Variant>,
    additions: map<string, Action>)

  datatype Reply =
    | Names(names: set<string>)
    | Description(action: Action)
    | NoSuchAction(name: string)
    | Descriptions(group: Group)
    | Nothing

  /** What travels from the exporter to its clients, in order. */
  datatype Message =
    | Signal(changed: Changed)
    | Return(client: nat, reply: Reply)
}

/** The remote end: GDBusActionGroup, which mirrors an exported group (gdbusactiongroup.c). */
module RemoteActions {
  import opened Wrappers
  import opened Actions

  /** The new value of one action under the enable and state changes of a Changed signal. */
  function Amend(name: string, action: Action, c: Changed): Action {
    action.(
      enabled := if name in c.enableChanges then c.enableChanges[name] else action.enabled,
      state := if && name in c.stateChanges && action.state.Some?
                  && c.stateChanges[name].typeString == action.state.value.typeString
               then Some(c.stateChanges[name])
               else action.state)
  }

  /** The effect of one Changed signal: removals, then changes, then additions of absent names. */
  function Apply(actions: Group, c: Changed): Group {
    c.additions +
    map name | name in actions && name !in c.removals :: Amend(name, actions[name], c)
  }

  /** What a client makes of a signal that does not fit its copy: changes of names it lacks or is told to
      remove are ignored, as are states of another type and additions of names it keeps.  A name it
      lacks or removes appears only as added. */
  lemma MisfitsIgnored(actions: Group, c: Changed, name: string)
    ensures name in actions && name !in c.removals ==>
      && name in Apply(actions, c)
      && var was, now := actions[name], Apply(actions, c)[name];
         && now.parameterType == was.parameterType && now.state.Some? == was.state.Some?
         && (name in c.enableChanges ==> now.enabled == c.enableChanges[name])
         && (name !in c.enableChanges ==> now.enabled == was.enabled)
         && (now.state == was.state || (name in c.stateChanges && now.state == Some(c.stateChanges[name])))
         && (was.state.Some? ==> now.state.value.typeString == was.state.value.typeString)
         && (name in c.stateChanges && was.state.Some? && now.state != Some(c.stateChanges[name]) ==>
               c.stateChanges[name].typeString != was.state.value.typeString)
    ensures name !in actions || name in c.removals ==>
      && (name in Apply(actions, c) <==> name in c.additions)
      && (name in c.additions ==> Apply(actions, c)[name] == c.additions[name])
  {
  }

  /** A client ignores signals until its DescribeAll call has been answered. */
  function Receive(client: nat, mirror: Option<Group>, m: Message): Option<Group> {
    match m
    case Signal(c) => if mirror.None? then None else Some(Apply(mirror.value, c))
    case Return(to, Descriptions(g)) => if to == client && mirror.None? then Some(g) else mirror
    case Return(_, _) => mirror
  }

  /** What the client holds after the whole wire has been delivered to it. */
  function Mirror(client: nat, wire: seq<Message>): Option<Group> {
    if wire == [] then None
    else Receive(client, Mirror(client, wire[..|wire| - 1]), wire[|wire| - 1])
  }

  lemma MirrorSnoc(client: nat, wire: seq<Message>, m: Message)
    ensures Mirror(client, wire + [m]) == Receive(client, Mirror(client, wire), m)
  {
  }

  class DBusActionGroup {
    var actions: Option<Group>

    constructor ()
      ensures actions == None
    {
      actions := None;
    }

    /** g_dbus_action_group_changed: one loop for each of the four arrays of the signal. */
    method OnChanged(c: Changed)
      modifies this
      ensures actions == if old(actions).None? then None else Some(Apply(old(actions).value, c))
    {
      if actions.None? { return; }
      var table := actions.value;
      table := Removes(table, c);
      table := EnableChanges(table, c);
      table := StateChanges(table, c);
      assert table == map n | n in old(actions).value && n !in c.removals
                          :: Amend(n, old(actions).value[n], c);
      table := Additions(table, c);
      actions := Some(table);
    }

    static method Removes(was: Group, c: Changed) returns (table: Group)
      ensures table == map n | n in was && n !in c.removals :: was[n]
    {
      table := was;
      var left := c.removals;
      while left != {}
        invariant left <= c.removals
        invariant table == map n | n in was && n !in c.removals - left :: was[n]
        decreases left
      {
        var name :| name in left;
        left := left - {name};
        if name in table {
          table := table - {name};
        }
      }
    }

    static method EnableChanges(was: Group, c: Changed) returns (table: Group)
      ensures table == map n | n in was :: was[n].(enabled := Amend(n, was[n], c).enabled)
    {
      table := was;
      var left := c.enableChanges.Keys;
      while left != {}
        invariant left <= c.enableChanges.Keys
        invariant table.Keys == was.Keys
        invariant forall n :: n in table ==>
          table[n] == if n in left then was[n] else was[n].(enabled := Amend(n, was[n], c).enabled)
        decreases left
      {
        var name :| name in left;
        left := left - {name};
        if name in table && table[name].enabled != c.enableChanges[name] {
          table := table[name := table[name].(enabled := c.enableChanges[name])];
        }
      }
    }

    static method StateChanges(was: Group, c: Changed) returns (table: Group)
      ensures table == map n | n in was :: was[n].(state := Amend(n, was[n], c).state)
    {
      table := was;
      var left := c.stateChanges.Keys;
      while left != {}
        invariant left <= c.stateChanges.Keys
        invariant table.Keys == was.Keys
        invariant forall n :: n in table ==>
          table[n] == if n in left then was[n] else was[n].(state := Amend(n, was[n], c).state)
        decreases left
      {
        var name :| name in left;
        left := left - {name};
        var state := c.stateChanges[name];
        if && name in table && table[name].state.Some? && state != table[name].state.value
           && state.typeString == table[name].state.value.typeString
        {
          table := table[name := table[name].(state := Some(state))];
        }
      }
    }

    static method Additions(was: Group, c: Changed) returns (table: Group)
      ensures table == c.additions + was
    {
      table := was;
      var left := c.additions.Keys;
      while left != {}
        invariant left <= c.additions.Keys
        invariant table == (map n | n in c.additions && n !in left :: c.additions[n]) + was
        decreases left
      {
        var name :| name in left;
        left := left - {name};
        if name !in table {
          table := table[name := c.additions[name]];
        }
      }
    }
  }
}
