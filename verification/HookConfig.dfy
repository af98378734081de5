/**
 * Editing a hook configuration: own handlers are taken out and put in again, and
 * everything else stays.
 */
module HookConfig {
  import opened Prelude
  import opened Texts
  import opened OrderedMaps

  /** A hook handler; what is not an object is kept as it is. */
  datatype Handler = Handler(command: Option<string>, rest: string) | NoHandler(raw: string)

  /** A group of handlers; what has no list of handlers is kept as it is. */
  datatype Group = Group(hooks: seq<Handler>, rest: string) | OtherGroup(raw: string)

  datatype Groups = Groups(groups: seq<Group>) | NullValue | OtherValue(raw: string)

  type Hooks = OrderedMap<Groups>

  /** The `hooks` of a configuration, if they are an object. */
  type Config = Option<Hooks>

  datatype Coordinate = Coordinate(event: string, groupIndex: nat, hookIndex: nat, group: Group, handler: Handler)

  datatype ConfigError = NotAList

  predicate IsOwn(marker: string, handler: Handler) {
    handler.Handler? && handler.command.Some? && Contains(handler.command.value, marker)
  }

  /** A handler is an own one when its command has the marker in it. */
  lemma {:induction false} OwnExact(marker: string, handler: Handler)
    ensures IsOwn(marker, handler) <==>
      handler.Handler? && handler.command.Some?
      && exists before: string, after: string :: handler.command.value == before + marker + after
  {
    if IsOwn(marker, handler) {
      var command := handler.command.value;
      var i: nat :| i <= |command| && marker <= command[i..];
      assert command == command[..i] + marker + command[i + |marker|..];
    }
    if handler.Handler? && handler.command.Some? {
      if before: string, after: string :| handler.command.value == before + marker + after {
        ContainsPart(before, marker, after);
      }
    }
  }

  function RootOf(config: Config): Hooks {
    if config.Some? then config.value else []
  }

  // ---------------------------------------------------------------------
  // Stripping.

  function Foreign(marker: string, hooks: seq<Handler>): seq<Handler> {
    FlatMap((h: Handler) => if IsOwn(marker, h) then [] else [h], hooks)
  }

  function StripGroup(marker: string, group: Group): seq<Group> {
    if group.OtherGroup? then [group]
    else if Foreign(marker, group.hooks) == [] then []
    else [group.(hooks := Foreign(marker, group.hooks))]
  }

  function StripGroups(marker: string, groups: seq<Group>): seq<Group> {
    FlatMap((g: Group) => StripGroup(marker, g), groups)
  }

  function StripEntry(marker: string, entry: Entry<Groups>): seq<Entry<Groups>> {
    if !entry.value.Groups? then [entry]
    else if StripGroups(marker, entry.value.groups) == [] then []
    else [Entry(entry.key, Groups(StripGroups(marker, entry.value.groups)))]
  }

  function StripHooks(marker: string, hooks: Hooks): Hooks {
    FlatMap((e: Entry<Groups>) => StripEntry(marker, e), hooks)
  }

  function Stripped(marker: string, config: Config): Config {
    var hooks := StripHooks(marker, RootOf(config));
    if hooks == [] then None else Some(hooks)
  }

  // ---------------------------------------------------------------------
  // Coordinates.

  function HandlerCoordinates(marker: string, event: string, groupIndex: nat, group: Group, n: nat): seq<Coordinate>
    requires group.Group? && n <= |group.hooks|
  {
    if n == 0 then [] else
      var front, handler := HandlerCoordinates(marker, event, groupIndex, group, n - 1), group.hooks[n - 1];
      if IsOwn(marker, handler) then front + [Coordinate(event, groupIndex, n - 1, group, handler)] else front
  }

  function GroupCoordinates(marker: string, event: string, groups: seq<Group>, n: nat): seq<Coordinate>
    requires n <= |groups|
  {
    if n == 0 then []
    else if groups[n - 1].OtherGroup? then GroupCoordinates(marker, event, groups, n - 1)
    else
      var front := GroupCoordinates(marker, event, groups, n - 1);
      front + HandlerCoordinates(marker, event, n - 1, groups[n - 1], |groups[n - 1].hooks|)
  }

  function EntryCoordinates(marker: string, entry: Entry<Groups>): seq<Coordinate> {
    if entry.value.Groups? then GroupCoordinates(marker, entry.key, entry.value.groups, |entry.value.groups|) else []
  }

  function CoordinatesOf(marker: string, hooks: Hooks): seq<Coordinate> {
    FlatMap((e: Entry<Groups>) => EntryCoordinates(marker, e), hooks)
  }

  // ---------------------------------------------------------------------
  // Adding.

  function WithHandler(hooks: Hooks, event: string, handler: Handler): Result<Hooks, ConfigError> {
    var group := Group([handler], "");
    if !Has(hooks, event) || Get(hooks, event).NullValue? then Ok(Put(hooks, event, Groups([group])))
    else if Get(hooks, event).Groups? then Ok(Put(hooks, event, Groups(Get(hooks, event).groups + [group])))
    else Err(NotAList)
  }

  datatype Addition = Addition(event: string, handler: Handler)

  function WithAll(hooks: Hooks, additions: seq<Addition>): Result<Hooks, ConfigError> {
    if additions == [] then Ok(hooks) else
      var front :- WithAll(hooks, additions[..|additions| - 1]);
      var last := additions[|additions| - 1];
      WithHandler(front, last.event, last.handler)
  }

  /** The configuration with fresh own handlers. With nothing to add there may be no hooks at all. */
  function Installed(marker: string, config: Config, additions: seq<Addition>): Result<Hooks, ConfigError> {
    WithAll(RootOf(Stripped(marker, config)), additions)
  }

  // ---------------------------------------------------------------------
  // The configuration object.

  class Configuration {
    var hooks: Config

    constructor (hooks: Config)
      ensures this.hooks == hooks
    {
      this.hooks := hooks;
    }

    /** Takes out every own handler, with the groups and events that are left empty. */
    method StripAgentLensHandlers(marker: string) returns (removed: seq<Coordinate>)
      modifies this
      ensures hooks == Stripped(marker, old(hooks))
      ensures removed == CoordinatesOf(marker, RootOf(old(hooks)))
    {
      var root := RootOf(hooks);
      var next: Hooks := [];
      removed := [];
      for i := 0 to |root|
        invariant next == StripHooks(marker, root[..i]) && removed == CoordinatesOf(marker, root[..i])
        invariant hooks == old(hooks)
      {
        assert root[..i + 1] == root[..i] + [root[i]];
        FlatMapSnoc((e: Entry<Groups>) => StripEntry(marker, e), root[..i], root[i]);
        FlatMapSnoc((e: Entry<Groups>) => EntryCoordinates(marker, e), root[..i], root[i]);
        if root[i].value.Groups? {
          var nextGroups, found := StripEvent(marker, root[i].key, root[i].value.groups);
          removed := removed + found;
          if |nextGroups| > 0 {
            next := next + [Entry(root[i].key, Groups(nextGroups))];
          }
        } else {
          next := next + [root[i]];
        }
      }
      assert root[..|root|] == root;
      hooks := if |next| > 0 then Some(next) else None;
    }

    method StripEvent(marker: string, event: string, groups: seq<Group>)
      returns (nextGroups: seq<Group>, removed: seq<Coordinate>)
      ensures nextGroups == StripGroups(marker, groups)
      ensures removed == GroupCoordinates(marker, event, groups, |groups|)
    {
      nextGroups, removed := [], [];
      for i := 0 to |groups|
        invariant nextGroups == StripGroups(marker, groups[..i])
        invariant removed == GroupCoordinates(marker, event, groups, i)
      {
        assert groups[..i + 1] == groups[..i] + [groups[i]];
        FlatMapSnoc((g: Group) => StripGroup(marker, g), groups[..i], groups[i]);
        if groups[i].OtherGroup? {
          nextGroups := nextGroups + [groups[i]];
        } else {
          var kept, found := StripHandlers(marker, event, i, groups[i]);
          removed := removed + found;
          if |kept| > 0 {
            nextGroups := nextGroups + [groups[i].(hooks := kept)];
          }
        }
      }
      assert groups[..|groups|] == groups;
    }

    method StripHandlers(marker: string, event: string, groupIndex: nat, group: Group)
      returns (kept: seq<Handler>, removed: seq<Coordinate>)
      requires group.Group?
      ensures kept == Foreign(marker, group.hooks)
      ensures removed == HandlerCoordinates(marker, event, groupIndex, group, |group.hooks|)
    {
      kept, removed := [], [];
      var hooks := group.hooks;
      for i := 0 to |hooks|
        invariant kept == Foreign(marker, hooks[..i])
        invariant removed == HandlerCoordinates(marker, event, groupIndex, group, i)
      {
        assert hooks[..i + 1] == hooks[..i] + [hooks[i]];
        FlatMapSnoc((h: Handler) => if IsOwn(marker, h) then [] else [h], hooks[..i], hooks[i]);
        if IsOwn(marker, hooks[i]) {
          removed := removed + [Coordinate(event, groupIndex, i, group, hooks[i])];
        } else {
          kept := kept + [hooks[i]];
        }
      }
      assert hooks[..|hooks|] == hooks;
    }

    /** Takes own handlers out; without any, the configuration stays as it is. */
    method Uninstall(marker: string) returns (removed: seq<Coordinate>)
      modifies this
      ensures hooks == Uninstalled(marker, old(hooks))
      ensures removed == CoordinatesOf(marker, RootOf(old(hooks)))
    {
      var before := hooks;
      removed := StripAgentLensHandlers(marker);
      if |removed| == 0 {
        hooks := before;
      }
    }

    method AddHandler(event: string, handler: Handler) returns (result: Result<(), ConfigError>)
      modifies this
      ensures var added := WithHandler(RootOf(old(hooks)), event, handler);
        if added.Ok? then result.Ok? && hooks == Some(added.value)
          else result.Err? && RootOf(hooks) == RootOf(old(hooks))
    {
      var root := RootOf(hooks);
      hooks := Some(root);
      var groups := [Group([handler], "")];
      if Has(root, event) && !Get(root, event).NullValue? {
        if Get(root, event).OtherValue? {
          return Err(NotAList);
        }
        groups := Get(root, event).groups + groups;
      }
      hooks := Some(Put(root, event, Groups(groups)));
      result := Ok(());
    }

    /** Strips, and adds one handler for every event. */
    method Install(marker: string, additions: seq<Addition>) returns (result: Result<seq<Coordinate>, ConfigError>)
      modifies this
      ensures match Installed(marker, old(hooks), additions)
        case Ok(installed) => RootOf(hooks) == installed && result == Ok(CoordinatesOf(marker, RootOf(old(hooks))))
        case Err(_) => result.Err?
    {
      var removed := StripAgentLensHandlers(marker);
      ghost var stripped := RootOf(hooks);
      for i := 0 to |additions|
        invariant WithAll(stripped, additions[..i]) == Ok(RootOf(hooks))
      {
        assert additions[..i + 1][..i] == additions[..i];
        var added := AddHandler(additions[i].event, additions[i].handler);
        if added.Err? {
          AddFails(stripped, additions, i + 1);
          return Err(NotAList);
        }
      }
      assert additions[..|additions|] == additions;
      result := Ok(removed);
    }
  }

  /** What uninstalling leaves: nothing is written when there was no own handler. */
  function Uninstalled(marker: string, config: Config): Config {
    if CoordinatesOf(marker, RootOf(config)) == [] then config else Stripped(marker, config)
  }

  /** A failing addition fails the whole. */
  lemma {:induction false} AddFails(hooks: Hooks, additions: seq<Addition>, n: nat)
    requires n <= |additions| && WithAll(hooks, additions[..n]).Err?
    ensures WithAll(hooks, additions).Err?
    decreases |additions| - n
  {
    if n < |additions| {
      assert additions[..n + 1][..n] == additions[..n];
      AddFails(hooks, additions, n + 1);
    } else {
      assert additions[..n] == additions;
    }
  }

  // ---------------------------------------------------------------------
  // What stripping keeps.

  /** Everything that is not an own handler, in order, with the properties of its group. */
  datatype Kept =
    | KeptHandler(event: string, groupRest: string, handler: Handler)
    | KeptGroup(event: string, raw: string)
    | KeptValue(event: string, value: Groups)

  function KeptOfGroup(marker: string, event: string, group: Group): seq<Kept> {
    if group.OtherGroup? then [KeptGroup(event, group.raw)]
    else FlatMap((h: Handler) => if IsOwn(marker, h) then [] else [KeptHandler(event, group.rest, h)], group.hooks)
  }

  function KeptOfEntry(marker: string, entry: Entry<Groups>): seq<Kept> {
    if entry.value.Groups? then FlatMap((g: Group) => KeptOfGroup(marker, entry.key, g), entry.value.groups)
    else [KeptValue(entry.key, entry.value)]
  }

  function KeptOf(marker: string, hooks: Hooks): seq<Kept> {
    FlatMap((e: Entry<Groups>) => KeptOfEntry(marker, e), hooks)
  }

  lemma {:induction false} ForeignSnoc(marker: string, front: seq<Handler>, last: Handler)
    ensures Foreign(marker, front + [last])
      == if IsOwn(marker, last) then Foreign(marker, front) else Foreign(marker, front) + [last]
  {
    FlatMapSnoc((h: Handler) => if IsOwn(marker, h) then [] else [h], front, last);
  }

  lemma {:induction false} ForeignForeign(marker: string, hooks: seq<Handler>)
    ensures Foreign(marker, Foreign(marker, hooks)) == Foreign(marker, hooks)
    ensures forall h | h in Foreign(marker, hooks) :: !IsOwn(marker, h)
  {
    if hooks != [] {
      var front, last := hooks[..|hooks| - 1], hooks[|hooks| - 1];
      assert hooks == front + [last];
      ForeignForeign(marker, front);
      ForeignSnoc(marker, front, last);
      ForeignSnoc(marker, Foreign(marker, front), last);
    }
  }

  lemma {:induction false} KeptOfForeign(marker: string, event: string, rest: string, hooks: seq<Handler>)
    ensures KeptOfGroup(marker, event, Group(Foreign(marker, hooks), rest))
      == KeptOfGroup(marker, event, Group(hooks, rest))
    ensures Foreign(marker, hooks) == [] ==> KeptOfGroup(marker, event, Group(hooks, rest)) == []
  {
    var f := (h: Handler) => if IsOwn(marker, h) then [] else [KeptHandler(event, rest, h)];
    if hooks != [] {
      var front, last := hooks[..|hooks| - 1], hooks[|hooks| - 1];
      assert hooks == front + [last];
      KeptOfForeign(marker, event, rest, front);
      ForeignSnoc(marker, front, last);
    }
  }

  lemma {:induction false} GroupThrough(marker: string, event: string, group: Group)
    ensures FlatMap((g: Group) => StripGroup(marker, g), StripGroup(marker, group)) == StripGroup(marker, group)
    ensures FlatMap((g: Group) => KeptOfGroup(marker, event, g), StripGroup(marker, group))
      == KeptOfGroup(marker, event, group)
  {
    if group.Group? {
      ForeignForeign(marker, group.hooks);
      KeptOfForeign(marker, event, group.rest, group.hooks);
    }
    if StripGroup(marker, group) != [] {
      FlatMapOne((g: Group) => StripGroup(marker, g), StripGroup(marker, group)[0]);
      FlatMapOne((g: Group) => KeptOfGroup(marker, event, g), StripGroup(marker, group)[0]);
    }
  }

  lemma {:induction false} GroupsThrough(marker: string, event: string, groups: seq<Group>)
    ensures StripGroups(marker, StripGroups(marker, groups)) == StripGroups(marker, groups)
    ensures FlatMap((g: Group) => KeptOfGroup(marker, event, g), StripGroups(marker, groups))
      == FlatMap((g: Group) => KeptOfGroup(marker, event, g), groups)
  {
    var strip, kept := (g: Group) => StripGroup(marker, g), (g: Group) => KeptOfGroup(marker, event, g);
    forall k | 0 <= k < |groups|
      ensures FlatMap(strip, strip(groups[k])) == strip(groups[k]) && FlatMap(kept, strip(groups[k])) == kept(groups[k])
    {
      GroupThrough(marker, event, groups[k]);
    }
    FlatMapThrough(strip, strip, groups);
    FlatMapThrough(strip, kept, groups);
  }

  lemma {:induction false} EntryThrough(marker: string, entry: Entry<Groups>)
    ensures FlatMap((e: Entry<Groups>) => StripEntry(marker, e), StripEntry(marker, entry)) == StripEntry(marker, entry)
    ensures FlatMap((e: Entry<Groups>) => KeptOfEntry(marker, e), StripEntry(marker, entry))
      == KeptOfEntry(marker, entry)
  {
    if entry.value.Groups? {
      GroupsThrough(marker, entry.key, entry.value.groups);
    }
    if StripEntry(marker, entry) != [] {
      FlatMapOne((e: Entry<Groups>) => StripEntry(marker, e), StripEntry(marker, entry)[0]);
      FlatMapOne((e: Entry<Groups>) => KeptOfEntry(marker, e), StripEntry(marker, entry)[0]);
    }
  }

  /** Stripping keeps everything foreign, in order and under its event, and is done after one time. */
  lemma {:induction false} StripKeepsForeign(marker: string, hooks: Hooks)
    ensures KeptOf(marker, StripHooks(marker, hooks)) == KeptOf(marker, hooks)
    ensures StripHooks(marker, StripHooks(marker, hooks)) == StripHooks(marker, hooks)
  {
    var strip, kept := (e: Entry<Groups>) => StripEntry(marker, e), (e: Entry<Groups>) => KeptOfEntry(marker, e);
    forall k | 0 <= k < |hooks|
      ensures FlatMap(strip, strip(hooks[k])) == strip(hooks[k]) && FlatMap(kept, strip(hooks[k])) == kept(hooks[k])
    {
      EntryThrough(marker, hooks[k]);
    }
    FlatMapThrough(strip, strip, hooks);
    FlatMapThrough(strip, kept, hooks);
  }

  // ---------------------------------------------------------------------
  // What stripping removes.

  lemma {:induction false} NoOwnHandlers(marker: string, event: string, groupIndex: nat, group: Group, n: nat)
    requires group.Group? && n <= |group.hooks| && forall h | h in group.hooks :: !IsOwn(marker, h)
    ensures HandlerCoordinates(marker, event, groupIndex, group, n) == []
  {
    if n > 0 {
      NoOwnHandlers(marker, event, groupIndex, group, n - 1);
    }
  }

  ghost predicate AllForeign(marker: string, group: Group) {
    group.Group? ==> forall h | h in group.hooks :: !IsOwn(marker, h)
  }

  lemma {:induction false} StrippedForeign(marker: string, groups: seq<Group>)
    ensures forall g | g in StripGroups(marker, groups) :: AllForeign(marker, g)
  {
    if groups != [] {
      StrippedForeign(marker, groups[..|groups| - 1]);
      var last := groups[|groups| - 1];
      if last.Group? {
        ForeignForeign(marker, last.hooks);
      }
    }
  }

  lemma {:induction false} NoOwnGroups(marker: string, event: string, groups: seq<Group>, n: nat)
    requires n <= |groups| && forall k | 0 <= k < |groups| :: AllForeign(marker, groups[k])
    ensures GroupCoordinates(marker, event, groups, n) == []
  {
    if n > 0 {
      NoOwnGroups(marker, event, groups, n - 1);
      if groups[n - 1].Group? {
        NoOwnHandlers(marker, event, n - 1, groups[n - 1], |groups[n - 1].hooks|);
      }
    }
  }

  ghost predicate EntryForeign(marker: string, entry: Entry<Groups>) {
    entry.value.Groups? ==> forall k | 0 <= k < |entry.value.groups| :: AllForeign(marker, entry.value.groups[k])
  }

  lemma {:induction false} StrippedEntryForeign(marker: string, entry: Entry<Groups>)
    ensures forall e | e in StripEntry(marker, entry) :: EntryForeign(marker, e)
  {
    if entry.value.Groups? {
      StrippedForeign(marker, entry.value.groups);
      var groups := StripGroups(marker, entry.value.groups);
      assert forall k | 0 <= k < |groups| :: groups[k] in groups;
    }
  }

  lemma {:induction false} StrippedEntriesForeign(marker: string, hooks: Hooks)
    ensures forall e | e in StripHooks(marker, hooks) :: EntryForeign(marker, e)
  {
    if hooks != [] {
      StrippedEntriesForeign(marker, hooks[..|hooks| - 1]);
      StrippedEntryForeign(marker, hooks[|hooks| - 1]);
    }
  }

  /** After stripping there is no own handler left. */
  lemma {:induction false} StripRemovesOwn(marker: string, hooks: Hooks)
    ensures CoordinatesOf(marker, StripHooks(marker, hooks)) == []
  {
    StrippedEntriesForeign(marker, hooks);
    var r := StripHooks(marker, hooks);
    forall k | 0 <= k < |r| ensures EntryCoordinates(marker, r[k]) == [] {
      assert r[k] in r;
      if r[k].value.Groups? {
        NoOwnGroups(marker, r[k].key, r[k].value.groups, |r[k].value.groups|);
      }
    }
    FlatMapNone((e: Entry<Groups>) => EntryCoordinates(marker, e), r);
  }

  // ---------------------------------------------------------------------
  // Installing.

  /** No event that gets a handler holds null. */
  predicate NoNulls(hooks: Hooks, additions: seq<Addition>) {
    forall k | 0 <= k < |hooks| && hooks[k].value.NullValue? :: forall a | a in additions :: a.event != hooks[k].key
  }

  predicate AllOwn(marker: string, additions: seq<Addition>) {
    forall a | a in additions :: IsOwn(marker, a.handler)
  }

  lemma {:induction false} OwnGroupStripped(marker: string, groups: seq<Group>, handler: Handler)
    requires IsOwn(marker, handler)
    ensures StripGroups(marker, groups + [Group([handler], "")]) == StripGroups(marker, groups)
  {
    FlatMapSnoc((g: Group) => StripGroup(marker, g), groups, Group([handler], ""));
    FlatMapOne((h: Handler) => if IsOwn(marker, h) then [] else [h], handler);
  }

  /** An own handler that was added is stripped without a trace. */
  lemma {:induction false} StripAdded(marker: string, hooks: Hooks, event: string, handler: Handler)
    requires IsOwn(marker, handler) && WithHandler(hooks, event, handler).Ok?
    requires Has(hooks, event) ==> !Get(hooks, event).NullValue?
    ensures StripHooks(marker, WithHandler(hooks, event, handler).value) == StripHooks(marker, hooks)
  {
    var strip := (e: Entry<Groups>) => StripEntry(marker, e);
    var n := Find(hooks, event);
    if n < |hooks| {
      OwnGroupStripped(marker, hooks[n].value.groups, handler);
      FlatMapReplace(strip, hooks, n, Entry(event, Groups(hooks[n].value.groups + [Group([handler], "")])));
    } else {
      var none: seq<Group> := [];
      OwnGroupStripped(marker, none, handler);
      assert none + [Group([handler], "")] == [Group([handler], "")];
      FlatMapSnoc(strip, hooks, Entry(event, Groups([Group([handler], "")])));
    }
  }

  lemma {:induction false} StripAllAdded(marker: string, hooks: Hooks, additions: seq<Addition>, later: seq<Addition>)
    requires AllOwn(marker, additions) && NoNulls(hooks, additions) && NoNulls(hooks, later)
      && WithAll(hooks, additions).Ok?
    ensures StripHooks(marker, WithAll(hooks, additions).value) == StripHooks(marker, hooks)
    ensures NoNulls(WithAll(hooks, additions).value, later)
  {
    if additions != [] {
      var front, last := additions[..|additions| - 1], additions[|additions| - 1];
      StripAllAdded(marker, hooks, front, later);
      StripAllAdded(marker, hooks, front, [last]);
      StripAdded(marker, WithAll(hooks, front).value, last.event, last.handler);
    }
  }

  // ---------------------------------------------------------------------
  // How many foreign parts installing leaves.

  lemma {:induction false} KeptAdded(marker: string, hooks: Hooks, event: string, handler: Handler)
    requires WithHandler(hooks, event, handler).Ok?
    ensures |KeptOf(marker, WithHandler(hooks, event, handler).value)|
      == |KeptOf(marker, hooks)| + (if IsOwn(marker, handler) then 0 else 1)
        - (if Has(hooks, event) && Get(hooks, event).NullValue? then 1 else 0)
  {
    var kept := (e: Entry<Groups>) => KeptOfEntry(marker, e);
    var n, group := Find(hooks, event), Group([handler], "");
    FlatMapOne((h: Handler) => if IsOwn(marker, h) then [] else [KeptHandler(event, "", h)], handler);
    FlatMapOne((g: Group) => KeptOfGroup(marker, event, g), group);
    if n == |hooks| {
      FlatMapSnoc(kept, hooks, Entry(event, Groups([group])));
    } else if hooks[n].value.NullValue? {
      FlatMapReplaceLength(kept, hooks, n, Entry(event, Groups([group])));
    } else {
      FlatMapSnoc((g: Group) => KeptOfGroup(marker, event, g), hooks[n].value.groups, group);
      FlatMapReplaceLength(kept, hooks, n, Entry(event, Groups(hooks[n].value.groups + [group])));
    }
  }

  /** Adding handlers keeps the places of all events, and the values of other events. */
  lemma {:induction false} WithAllKeeps(hooks: Hooks, additions: seq<Addition>, k: nat)
    requires WithAll(hooks, additions).Ok? && k < |hooks|
    ensures var m := WithAll(hooks, additions).value;
      k < |m| && m[k].key == hooks[k].key
        && ((forall a | a in additions :: a.event != hooks[k].key) ==> m[k] == hooks[k])
  {
    if additions != [] {
      WithAllKeeps(hooks, additions[..|additions| - 1], k);
    }
  }

  /** A null value of the next event is still there, and is found. */
  lemma {:induction false} NullFound(hooks: Hooks, additions: seq<Addition>, k: nat, event: string)
    requires WithAll(hooks, additions).Ok? && Distinct(Keys(hooks))
    requires k < |hooks| && hooks[k] == Entry(event, NullValue) && forall a | a in additions :: a.event != event
    ensures var m := WithAll(hooks, additions).value; Has(m, event) && Get(m, event).NullValue?
  {
    var m := WithAll(hooks, additions).value;
    forall i: nat | i < |hooks| ensures i < |m| && m[i].key == hooks[i].key {
      WithAllKeeps(hooks, additions, i);
    }
    WithAllKeeps(hooks, additions, k);
    assert forall i: nat | i < k :: Keys(hooks)[i] != Keys(hooks)[k];
    FindUnique(m, event, k);
  }

  lemma {:induction false} StripDistinct(marker: string, hooks: Hooks)
    requires Distinct(Keys(hooks))
    ensures Distinct(Keys(StripHooks(marker, hooks)))
    ensures forall key | key in Keys(StripHooks(marker, hooks)) :: key in Keys(hooks)
  {
    if hooks != [] {
      var front, last := hooks[..|hooks| - 1], hooks[|hooks| - 1];
      assert Keys(hooks) == Keys(front) + [last.key];
      StripDistinct(marker, front);
      var stripped := StripHooks(marker, front);
      assert last.key !in Keys(stripped);
      if StripEntry(marker, last) == [] {
        assert StripHooks(marker, hooks) == stripped;
      } else {
        assert Keys(StripHooks(marker, hooks)) == Keys(stripped) + [last.key];
      }
    }
  }

  /** Own handlers add no foreign part, and replace every null of their events. */
  lemma {:induction false} OwnAdded(marker: string, hooks: Hooks, additions: seq<Addition>)
    requires AllOwn(marker, additions) && WithAll(hooks, additions).Ok? && Distinct(Keys(hooks))
    ensures |KeptOf(marker, WithAll(hooks, additions).value)| <= |KeptOf(marker, hooks)|
    ensures !NoNulls(hooks, additions) ==> |KeptOf(marker, WithAll(hooks, additions).value)| < |KeptOf(marker, hooks)|
  {
    if additions != [] {
      var front, last := additions[..|additions| - 1], additions[|additions| - 1];
      OwnAdded(marker, hooks, front);
      KeptAdded(marker, WithAll(hooks, front).value, last.event, last.handler);
      if NoNulls(hooks, front) && !NoNulls(hooks, additions) {
        assert forall a | a in additions :: a in front || a == last;
        var k :| 0 <= k < |hooks| && hooks[k].value.NullValue? && hooks[k].key == last.event;
        NullFound(hooks, front, k, last.event);
      }
    }
  }

  // ---------------------------------------------------------------------
  // How many own handlers there are.

  lemma {:induction false} GroupCoordinatesFront(marker: string, event: string, front: seq<Group>, last: Group, n: nat)
    requires n <= |front|
    ensures GroupCoordinates(marker, event, front + [last], n) == GroupCoordinates(marker, event, front, n)
  {
    if n > 0 {
      GroupCoordinatesFront(marker, event, front, last, n - 1);
    }
  }

  function EventsOf(coordinates: seq<Coordinate>): (r: seq<string>)
    ensures |r| == |coordinates|
  {
    seq(|coordinates|, k requires 0 <= k < |coordinates| => coordinates[k].event)
  }

  lemma {:induction false} EventsAppend(a: seq<Coordinate>, b: seq<Coordinate>)
    ensures EventsOf(a + b) == EventsOf(a) + EventsOf(b)
  {
  }

  lemma {:induction false} HandlerEvents(marker: string, event: string, groupIndex: nat, group: Group, n: nat)
    requires group.Group? && n <= |group.hooks|
    ensures forall c | c in HandlerCoordinates(marker, event, groupIndex, group, n) :: c.event == event
  {
    if n > 0 {
      HandlerEvents(marker, event, groupIndex, group, n - 1);
    }
  }

  lemma {:induction false} GroupEvents(marker: string, event: string, groups: seq<Group>, n: nat)
    requires n <= |groups|
    ensures forall c | c in GroupCoordinates(marker, event, groups, n) :: c.event == event
  {
    if n > 0 {
      GroupEvents(marker, event, groups, n - 1);
      if groups[n - 1].Group? {
        HandlerEvents(marker, event, n - 1, groups[n - 1], |groups[n - 1].hooks|);
      }
    }
  }

  /** The event of an added handler, when it is an own one. */
  function OwnEvent(marker: string, event: string, handler: Handler): seq<string> {
    if IsOwn(marker, handler) then [event] else []
  }

  lemma {:induction false} OneGroupCoordinates(marker: string, event: string, groups: seq<Group>, handler: Handler)
    ensures EventsOf(EntryCoordinates(marker, Entry(event, Groups(groups + [Group([handler], "")]))))
      == EventsOf(GroupCoordinates(marker, event, groups, |groups|)) + OwnEvent(marker, event, handler)
  {
    var group := Group([handler], "");
    var front, own := GroupCoordinates(marker, event, groups, |groups|),
      HandlerCoordinates(marker, event, |groups|, group, 1);
    GroupCoordinatesFront(marker, event, groups, group, |groups|);
    assert HandlerCoordinates(marker, event, |groups|, group, 0) == [];
    assert EventsOf(own) == OwnEvent(marker, event, handler);
    EventsAppend(front, own);
  }

  /** One entry in the place of another that lacks some own handlers. */
  lemma {:induction false} EventsReplaced(marker: string, hooks: Hooks, n: nat, entry: Entry<Groups>, more: seq<string>)
    requires n < |hooks|
    requires EventsOf(EntryCoordinates(marker, entry)) == EventsOf(EntryCoordinates(marker, hooks[n])) + more
    ensures multiset(EventsOf(CoordinatesOf(marker, hooks[n := entry])))
      == multiset(EventsOf(CoordinatesOf(marker, hooks))) + multiset(more)
  {
    EventsSplit(marker, hooks, n);
    EventsSplit(marker, hooks[n := entry], n);
    assert hooks[n := entry][..n] == hooks[..n] && hooks[n := entry][n + 1..] == hooks[n + 1..];
  }

  lemma {:induction false} EventsSplit(marker: string, hooks: Hooks, n: nat)
    requires n < |hooks|
    ensures multiset(EventsOf(CoordinatesOf(marker, hooks)))
      == multiset(EventsOf(CoordinatesOf(marker, hooks[..n]))) + multiset(EventsOf(EntryCoordinates(marker, hooks[n])))
         + multiset(EventsOf(CoordinatesOf(marker, hooks[n + 1..])))
  {
    var own := (e: Entry<Groups>) => EntryCoordinates(marker, e);
    var front, later := hooks[..n], hooks[n + 1..];
    assert hooks == front + [hooks[n]] + later;
    FlatMapAppend(own, front + [hooks[n]], later);
    FlatMapSnoc(own, front, hooks[n]);
    EventsAppend(FlatMap(own, front + [hooks[n]]), FlatMap(own, later));
    EventsAppend(FlatMap(own, front), own(hooks[n]));
  }

  lemma {:induction false} HandlerAdded(marker: string, hooks: Hooks, event: string, handler: Handler)
    requires WithHandler(hooks, event, handler).Ok?
    ensures multiset(EventsOf(CoordinatesOf(marker, WithHandler(hooks, event, handler).value)))
      == multiset(EventsOf(CoordinatesOf(marker, hooks))) + multiset(OwnEvent(marker, event, handler))
  {
    var n, group, more := Find(hooks, event), Group([handler], ""), OwnEvent(marker, event, handler);
    var none: seq<Group> := [];
    OneGroupCoordinates(marker, event, none, handler);
    assert none + [group] == [group];
    assert EventsOf(GroupCoordinates(marker, event, none, 0)) + more == more;
    if n == |hooks| {
      FlatMapSnoc((e: Entry<Groups>) => EntryCoordinates(marker, e), hooks, Entry(event, Groups([group])));
      EventsAppend(CoordinatesOf(marker, hooks), EntryCoordinates(marker, Entry(event, Groups([group]))));
    } else if hooks[n].value.NullValue? {
      assert EventsOf(EntryCoordinates(marker, hooks[n])) + more == more;
      EventsReplaced(marker, hooks, n, Entry(event, Groups([group])), more);
    } else {
      OneGroupCoordinates(marker, event, hooks[n].value.groups, handler);
      EventsReplaced(marker, hooks, n, Entry(event, Groups(hooks[n].value.groups + [group])), more);
    }
  }

  /** The events that get an own handler, as often as they get one. */
  function AddedEvents(marker: string, additions: seq<Addition>): multiset<string> {
    if additions == [] then multiset{} else
      var last := additions[|additions| - 1];
      AddedEvents(marker, additions[..|additions| - 1]) + multiset(OwnEvent(marker, last.event, last.handler))
  }

  lemma {:induction false} HandlersAdded(marker: string, hooks: Hooks, additions: seq<Addition>)
    requires WithAll(hooks, additions).Ok?
    ensures multiset(EventsOf(CoordinatesOf(marker, WithAll(hooks, additions).value)))
      == multiset(EventsOf(CoordinatesOf(marker, hooks))) + AddedEvents(marker, additions)
  {
    if additions != [] {
      var front, last := additions[..|additions| - 1], additions[|additions| - 1];
      HandlersAdded(marker, hooks, front);
      HandlerAdded(marker, WithAll(hooks, front).value, last.event, last.handler);
    }
  }

  /** After installing, each event has exactly the own handlers that were added to it, whatever was there before. */
  lemma {:induction false} InstalledOnce(marker: string, config: Config, additions: seq<Addition>)
    requires Installed(marker, config, additions).Ok?
    ensures multiset(EventsOf(CoordinatesOf(marker, Installed(marker, config, additions).value)))
      == AddedEvents(marker, additions)
  {
    StripRemovesOwn(marker, RootOf(config));
    HandlersAdded(marker, RootOf(Stripped(marker, config)), additions);
    assert multiset(EventsOf([])) == multiset{};
  }

  lemma {:induction false} SomethingInstalled(marker: string, config: Config, additions: seq<Addition>)
    requires AllOwn(marker, additions) && Installed(marker, config, additions).Ok? && additions != []
    ensures CoordinatesOf(marker, Installed(marker, config, additions).value) != []
  {
    InstalledOnce(marker, config, additions);
    assert additions[|additions| - 1].event in AddedEvents(marker, additions);
  }

  lemma {:induction false} StripUndoesInstall(marker: string, config: Config, additions: seq<Addition>)
    requires AllOwn(marker, additions) && Installed(marker, config, additions).Ok? && Distinct(Keys(RootOf(config)))
    ensures Stripped(marker, Some(Installed(marker, config, additions).value)) == Stripped(marker, config)
      <==> NoNulls(RootOf(Stripped(marker, config)), additions)
  {
    var stripped, installed := RootOf(Stripped(marker, config)), Installed(marker, config, additions).value;
    StripKeepsForeign(marker, RootOf(config));
    StripKeepsForeign(marker, installed);
    StripDistinct(marker, RootOf(config));
    OwnAdded(marker, stripped, additions);
    if NoNulls(stripped, additions) {
      StripAllAdded(marker, stripped, additions, []);
    }
  }

  // ---------------------------------------------------------------------
  // Installing twice, event by event.

  function Lookup(hooks: Hooks, event: string): Option<Groups> {
    if Has(hooks, event) then Some(Get(hooks, event)) else None
  }

  /** The same events with the same values, in whatever order. */
  ghost predicate SameHooks(a: Hooks, b: Hooks) {
    Distinct(Keys(a)) && Distinct(Keys(b)) && forall event :: Lookup(a, event) == Lookup(b, event)
  }

  function AddedFor(additions: seq<Addition>, event: string): seq<Group> {
    if additions == [] then [] else
      var front, last := AddedFor(additions[..|additions| - 1], event), additions[|additions| - 1];
      if last.event == event then front + [Group([last.handler], "")] else front
  }

  /** The value of an event once some groups were added. */
  function Combined(value: Option<Groups>, added: seq<Group>): Option<Groups> {
    if added == [] then value
    else if value.Some? && value.value.Groups? then Some(Groups(value.value.groups + added))
    else Some(Groups(added))
  }

  function StripValue(marker: string, value: Option<Groups>): Option<Groups> {
    if value.None? || !value.value.Groups? then value
    else if StripGroups(marker, value.value.groups) == [] then None
    else Some(Groups(StripGroups(marker, value.value.groups)))
  }

  lemma {:induction false} PutLookup(hooks: Hooks, key: string, value: Groups, event: string)
    ensures Lookup(Put(hooks, key, value), event) == if event == key then Some(value) else Lookup(hooks, event)
  {
    var after := Put(hooks, key, value);
    if event == key {
      FindUnique(after, key, Find(hooks, key));
    } else if Has(hooks, event) {
      FindUnique(after, event, Find(hooks, event));
    } else {
      FindUnique(after, event, |after|);
    }
  }

  lemma {:induction false} PutDistinct(hooks: Hooks, key: string, value: Groups)
    requires Distinct(Keys(hooks))
    ensures Distinct(Keys(Put(hooks, key, value)))
  {
    HasKey(hooks, key);
  }

  lemma {:induction false} WithHandlerPuts(hooks: Hooks, event: string, handler: Handler) returns (value: Groups)
    requires WithHandler(hooks, event, handler).Ok?
    ensures WithHandler(hooks, event, handler).value == Put(hooks, event, value)
    ensures Some(value) == Combined(Lookup(hooks, event), [Group([handler], "")])
  {
    var group := Group([handler], "");
    value := if !Has(hooks, event) || Get(hooks, event).NullValue? then Groups([group])
             else Groups(Get(hooks, event).groups + [group]);
  }

  lemma {:induction false} WithHandlerLookup(hooks: Hooks, a: Addition, event: string)
    requires WithHandler(hooks, a.event, a.handler).Ok?
    ensures Lookup(WithHandler(hooks, a.event, a.handler).value, event)
      == if event == a.event then Combined(Lookup(hooks, event), [Group([a.handler], "")]) else Lookup(hooks, event)
  {
    var value := WithHandlerPuts(hooks, a.event, a.handler);
    PutLookup(hooks, a.event, value, event);
  }

  /** What installing makes of each event. */
  lemma {:induction false} WithAllLookup(hooks: Hooks, additions: seq<Addition>, event: string)
    requires WithAll(hooks, additions).Ok?
    ensures Lookup(WithAll(hooks, additions).value, event) == Combined(Lookup(hooks, event), AddedFor(additions, event))
  {
    if additions != [] {
      var front, last := additions[..|additions| - 1], additions[|additions| - 1];
      WithAllLookup(hooks, front, event);
      WithHandlerLookup(WithAll(hooks, front).value, last, event);
      CombinedTwice(Lookup(hooks, event), AddedFor(front, event), Group([last.handler], ""));
    }
  }

  lemma {:induction false} CombinedTwice(value: Option<Groups>, added: seq<Group>, group: Group)
    ensures Combined(Combined(value, added), [group]) == Combined(value, added + [group])
  {
    if added == [] {
      assert added + [group] == [group];
    } else if value.Some? && value.value.Groups? {
      Regroup(value.value.groups, added, [group]);
    }
  }

  predicate Refuses(hooks: Hooks, event: string) {
    Lookup(hooks, event).Some? && Lookup(hooks, event).value.OtherValue?
  }

  lemma {:induction false} NotAddedWhereRefused(hooks: Hooks, additions: seq<Addition>, event: string)
    requires Refuses(hooks, event) && forall k | 0 <= k < |additions| :: !Refuses(hooks, additions[k].event)
    ensures AddedFor(additions, event) == []
  {
    if additions != [] {
      NotAddedWhereRefused(hooks, additions[..|additions| - 1], event);
    }
  }

  lemma {:induction false} WithAllOk(hooks: Hooks, additions: seq<Addition>)
    ensures WithAll(hooks, additions).Ok? <==> forall k | 0 <= k < |additions| :: !Refuses(hooks, additions[k].event)
  {
    if additions != [] {
      var front, last := additions[..|additions| - 1], additions[|additions| - 1];
      WithAllOk(hooks, front);
      if WithAll(hooks, front).Ok? {
        WithAllLookup(hooks, front, last.event);
        forall k | 0 <= k < |front| ensures !Refuses(hooks, additions[k].event) {
          assert additions[k] == front[k];
        }
        if Refuses(hooks, last.event) {
          NotAddedWhereRefused(hooks, front, last.event);
        }
      } else {
        var k :| 0 <= k < |front| && Refuses(hooks, front[k].event);
        assert additions[k] == front[k];
      }
    }
  }

  lemma {:induction false} AddedSome(additions: seq<Addition>, event: string)
    ensures AddedFor(additions, event) != [] ==> exists k | 0 <= k < |additions| :: additions[k].event == event
    ensures forall k | 0 <= k < |additions| && additions[k].event == event ::
      Group([additions[k].handler], "") in AddedFor(additions, event)
  {
    if additions != [] {
      AddedSome(additions[..|additions| - 1], event);
      if additions[|additions| - 1].event != event && AddedFor(additions, event) != [] {
        var k :| 0 <= k < |additions| - 1 && additions[..|additions| - 1][k].event == event;
        assert additions[k].event == event;
      }
    }
  }

  lemma {:induction false} WithAllDistinct(hooks: Hooks, additions: seq<Addition>)
    requires Distinct(Keys(hooks)) && WithAll(hooks, additions).Ok?
    ensures Distinct(Keys(WithAll(hooks, additions).value))
  {
    if additions != [] {
      var front, last := additions[..|additions| - 1], additions[|additions| - 1];
      WithAllDistinct(hooks, front);
      var before := WithAll(hooks, front).value;
      var value := WithHandlerPuts(before, last.event, last.handler);
      PutDistinct(before, last.event, value);
    }
  }

  lemma {:induction false} LookupSnoc(front: Hooks, last: Entry<Groups>, event: string)
    requires last.key !in Keys(front)
    ensures Lookup(front + [last], event) == if event == last.key then Some(last.value) else Lookup(front, event)
  {
    HasKey(front, last.key);
    assert Put(front, last.key, last.value) == front + [last];
    PutLookup(front, last.key, last.value, event);
  }

  lemma {:induction false} StripSnoc(marker: string, front: Hooks, last: Entry<Groups>)
    ensures StripHooks(marker, front + [last]) == StripHooks(marker, front) + StripEntry(marker, last)
  {
    FlatMapSnoc((e: Entry<Groups>) => StripEntry(marker, e), front, last);
  }

  lemma {:induction false} StripEntryLookup(marker: string, front: Hooks, last: Entry<Groups>, event: string)
    requires last.key !in Keys(front)
    ensures Lookup(front + StripEntry(marker, last), event)
      == if event == last.key then StripValue(marker, Some(last.value)) else Lookup(front, event)
  {
    HasKey(front, last.key);
    if StripEntry(marker, last) == [] {
      assert front + [] == front;
    } else {
      LookupSnoc(front, StripEntry(marker, last)[0], event);
      assert front + StripEntry(marker, last) == front + [StripEntry(marker, last)[0]];
    }
  }

  /** What stripping makes of each event. */
  lemma {:induction false} StripLookup(marker: string, hooks: Hooks, event: string)
    requires Distinct(Keys(hooks))
    ensures Lookup(StripHooks(marker, hooks), event) == StripValue(marker, Lookup(hooks, event))
  {
    if hooks != [] {
      var front, last := hooks[..|hooks| - 1], hooks[|hooks| - 1];
      assert hooks == front + [last] && Keys(hooks) == Keys(front) + [last.key];
      StripLookup(marker, front, event);
      StripDistinct(marker, front);
      StripSnoc(marker, front, last);
      LookupSnoc(front, last, event);
      StripEntryLookup(marker, StripHooks(marker, front), last, event);
    }
  }

  function ForeignAdded(marker: string, additions: seq<Addition>, event: string): seq<Group> {
    StripGroups(marker, AddedFor(additions, event))
  }

  lemma {:induction false} OneGroupStripped(marker: string, handler: Handler)
    ensures StripGroup(marker, Group([handler], "")) == if IsOwn(marker, handler) then [] else [Group([handler], "")]
  {
    FlatMapOne((h: Handler) => if IsOwn(marker, h) then [] else [h], handler);
  }

  predicate HasForeign(marker: string, additions: seq<Addition>, event: string) {
    exists k | 0 <= k < |additions| :: additions[k].event == event && !IsOwn(marker, additions[k].handler)
  }

  lemma {:induction false} AddedSnoc(marker: string, front: seq<Addition>, last: Addition, event: string)
    ensures ForeignAdded(marker, front + [last], event) == ForeignAdded(marker, front, event)
      + (if last.event == event && !IsOwn(marker, last.handler) then [Group([last.handler], "")] else [])
  {
    assert (front + [last])[..|front|] == front;
    if last.event == event {
      FlatMapSnoc((g: Group) => StripGroup(marker, g), AddedFor(front, event), Group([last.handler], ""));
      OneGroupStripped(marker, last.handler);
    }
  }

  /** Of the groups added for an event, stripping leaves those whose handler is not recognised. */
  lemma {:induction false} AddedStripped(marker: string, additions: seq<Addition>, event: string)
    ensures ForeignAdded(marker, additions, event) != [] <==> HasForeign(marker, additions, event)
  {
    if additions != [] {
      var front, last := additions[..|additions| - 1], additions[|additions| - 1];
      assert additions == front + [last];
      AddedStripped(marker, front, event);
      AddedSnoc(marker, front, last, event);
      forall k | 0 <= k < |front| ensures front[k] == additions[k] {
      }
      if HasForeign(marker, front, event) {
        var k :| 0 <= k < |front| && front[k].event == event && !IsOwn(marker, front[k].handler);
        assert additions[k] == front[k];
      }
    }
  }

  /** A value as stripping leaves it: unchanged by another stripping, and no empty list of groups. */
  predicate Settled(marker: string, value: Option<Groups>) {
    value.Some? && value.value.Groups?
    ==> value.value.groups != [] && StripGroups(marker, value.value.groups) == value.value.groups
  }

  lemma {:induction false} StrippedSettled(marker: string, value: Option<Groups>)
    ensures Settled(marker, StripValue(marker, value))
  {
    if value.Some? && value.value.Groups? {
      GroupsThrough(marker, "", value.value.groups);
    }
  }

  function GroupsIn(value: Option<Groups>): seq<Group> {
    if value.Some? && value.value.Groups? then value.value.groups else []
  }

  lemma {:induction false} CombinedGroups(value: Option<Groups>, added: seq<Group>)
    requires added != [] && !(value.Some? && value.value.OtherValue?)
    ensures Combined(value, added) == Some(Groups(GroupsIn(value) + added))
  {
    if GroupsIn(value) == [] {
      assert [] + added == added;
    }
  }

  lemma {:induction false} StripMore(marker: string, groups: seq<Group>, added: seq<Group>)
    requires StripGroups(marker, groups) == groups
    ensures StripGroups(marker, groups + added) == groups + StripGroups(marker, added)
  {
    FlatMapAppend((g: Group) => StripGroup(marker, g), groups, added);
  }

  lemma {:induction false} LongerByLeft(groups: seq<Group>, left: seq<Group>, added: seq<Group>)
    ensures (groups + left) + added == groups + added <==> left == []
  {
    if left == [] {
      assert groups + left == groups;
    } else {
      assert |(groups + left) + added| != |groups + added|;
    }
  }

  /** Adding, stripping and adding again: the groups that are not recognised are there twice. */
  lemma {:induction false} AddedAgain(marker: string, value: Option<Groups>, added: seq<Group>)
    requires Settled(marker, value) && (added != [] ==> !(value.Some? && value.value.OtherValue?))
    ensures Combined(StripValue(marker, Combined(value, added)), added) == Combined(value, added)
      <==> StripGroups(marker, added) == []
  {
    if added != [] {
      var groups, left := GroupsIn(value), StripGroups(marker, added);
      assert StripGroups(marker, groups) == groups;
      CombinedGroups(value, added);
      StripMore(marker, groups, added);
      var between := StripValue(marker, Some(Groups(groups + added)));
      assert GroupsIn(between) == groups + left;
      CombinedGroups(between, added);
      LongerByLeft(groups, left, added);
    }
  }

  /** What two installations make of one event. */
  lemma {:induction false} TwiceLookup(marker: string, config: Config, additions: seq<Addition>, event: string)
    requires Distinct(Keys(RootOf(config))) && Installed(marker, config, additions).Ok?
    ensures var once := Installed(marker, config, additions).value;
      var twice := Installed(marker, Some(once), additions);
      twice.Ok? ==> (Lookup(twice.value, event) == Lookup(once, event)
        <==> ForeignAdded(marker, additions, event) == [])
  {
    var stripped, once := RootOf(Stripped(marker, config)), Installed(marker, config, additions).value;
    StripDistinct(marker, RootOf(config));
    StripLookup(marker, RootOf(config), event);
    StrippedSettled(marker, Lookup(RootOf(config), event));
    WithAllOk(stripped, additions);
    WithAllLookup(stripped, additions, event);
    WithAllDistinct(stripped, additions);
    StripLookup(marker, once, event);
    AddedSome(additions, event);
    AddedAgain(marker, Lookup(stripped, event), AddedFor(additions, event));
    if Installed(marker, Some(once), additions).Ok? {
      WithAllLookup(StripHooks(marker, once), additions, event);
    }
  }

  /** What was installed once can be installed again. */
  lemma {:induction false} TwiceOk(marker: string, config: Config, additions: seq<Addition>)
    requires Distinct(Keys(RootOf(config))) && Installed(marker, config, additions).Ok?
    ensures var once := Installed(marker, config, additions).value;
      Installed(marker, Some(once), additions).Ok? && Distinct(Keys(once))
      && Distinct(Keys(Installed(marker, Some(once), additions).value))
  {
    var stripped, once := RootOf(Stripped(marker, config)), Installed(marker, config, additions).value;
    StripDistinct(marker, RootOf(config));
    WithAllOk(stripped, additions);
    WithAllDistinct(stripped, additions);
    StripDistinct(marker, once);
    forall k | 0 <= k < |additions| ensures !Refuses(StripHooks(marker, once), additions[k].event) {
      StripLookup(marker, once, additions[k].event);
      WithAllLookup(stripped, additions, additions[k].event);
    }
    WithAllOk(StripHooks(marker, once), additions);
    WithAllDistinct(StripHooks(marker, once), additions);
  }

  /**
   * Installing twice gives the same events with the same values as installing once,
   * whatever was there before, exactly when the installed command is recognised as an own one.
   */
  lemma {:induction false} InstallTwice(marker: string, config: Config, additions: seq<Addition>)
    requires Distinct(Keys(RootOf(config))) && Installed(marker, config, additions).Ok?
    ensures var once := Installed(marker, config, additions).value;
      var twice := Installed(marker, Some(once), additions);
      twice.Ok? && (SameHooks(twice.value, once) <==> AllOwn(marker, additions))
  {
    TwiceOk(marker, config, additions);
    var once := Installed(marker, config, additions).value;
    var twice := Installed(marker, Some(once), additions).value;
    if AllOwn(marker, additions) {
      forall event: string ensures Lookup(twice, event) == Lookup(once, event) {
        TwiceLookup(marker, config, additions, event);
        AddedStripped(marker, additions, event);
      }
    } else {
      var k :| 0 <= k < |additions| && !IsOwn(marker, additions[k].handler);
      TwiceLookup(marker, config, additions, additions[k].event);
      AddedStripped(marker, additions, additions[k].event);
    }
  }

  /** The events also keep their places, unless an event that gets a handler held null. */
  lemma {:induction false} InstallTwiceInPlace(marker: string, config: Config, additions: seq<Addition>)
    requires Distinct(Keys(RootOf(config))) && Installed(marker, config, additions).Ok?
    requires AllOwn(marker, additions) && NoNulls(RootOf(Stripped(marker, config)), additions)
    ensures Installed(marker, Some(Installed(marker, config, additions).value), additions)
      == Installed(marker, config, additions)
  {
    StripUndoesInstall(marker, config, additions);
  }

  // ---------------------------------------------------------------------
  // Uninstalling.

  /** A group that stripping leaves is still there after adding and stripping. */
  lemma {:induction false} StillThere(marker: string, value: Option<Groups>, added: seq<Group>)
    requires Settled(marker, value) && !(value.Some? && value.value.OtherValue?)
    requires added != [] && StripGroups(marker, added) != []
    ensures Combined(value, added) != value && StripValue(marker, Combined(value, added)) != value
  {
    var groups := GroupsIn(value);
    CombinedGroups(value, added);
    StripMore(marker, groups, added);
    assert |groups + added| > |groups| && |groups + StripGroups(marker, added)| > |groups|;
  }

  /** With a handler that is not recognised as an own one, uninstalling does not give the stripped configuration. */
  lemma {:induction false} UnrecognisedStays(marker: string, config: Config, additions: seq<Addition>, k: nat)
    requires Installed(marker, config, additions).Ok? && Distinct(Keys(RootOf(config)))
    requires k < |additions| && !IsOwn(marker, additions[k].handler)
    ensures Uninstalled(marker, Some(Installed(marker, config, additions).value)) != Stripped(marker, config)
  {
    var event, stripped, once := additions[k].event, RootOf(Stripped(marker, config)),
      Installed(marker, config, additions).value;
    StripDistinct(marker, RootOf(config));
    StripLookup(marker, RootOf(config), event);
    StrippedSettled(marker, Lookup(RootOf(config), event));
    WithAllOk(stripped, additions);
    WithAllLookup(stripped, additions, event);
    WithAllDistinct(stripped, additions);
    StripLookup(marker, once, event);
    AddedSome(additions, event);
    AddedStripped(marker, additions, event);
    assert !Refuses(stripped, additions[k].event);
    StillThere(marker, Lookup(stripped, event), AddedFor(additions, event));
  }

  /**
   * Uninstalling after installing gives what stripping alone would have given, exactly
   * when every installed command is recognised and no event that gets a handler held null.
   */
  lemma {:induction false} UninstallUndoesInstall(marker: string, config: Config, additions: seq<Addition>)
    requires Installed(marker, config, additions).Ok? && Distinct(Keys(RootOf(config))) && additions != []
    ensures Uninstalled(marker, Some(Installed(marker, config, additions).value)) == Stripped(marker, config)
      <==> AllOwn(marker, additions) && NoNulls(RootOf(Stripped(marker, config)), additions)
  {
    if AllOwn(marker, additions) {
      SomethingInstalled(marker, config, additions);
      StripUndoesInstall(marker, config, additions);
    } else {
      var k :| 0 <= k < |additions| && !IsOwn(marker, additions[k].handler);
      UnrecognisedStays(marker, config, additions, k);
    }
  }

  lemma {:induction false} TwoEntries(marker: string, a: Entry<Groups>, b: Entry<Groups>)
    ensures StripHooks(marker, [a, b]) == StripEntry(marker, a) + StripEntry(marker, b)
  {
    FlatMapOne((e: Entry<Groups>) => StripEntry(marker, e), a);
    FlatMapSnoc((e: Entry<Groups>) => StripEntry(marker, e), [a], b);
    assert [a] + [b] == [a, b];
  }

  lemma {:induction false} OneInstalled(marker: string, hooks: Hooks, a: Addition)
    ensures Installed(marker, Some(hooks), [a]) == WithHandler(StripHooks(marker, hooks), a.event, a.handler)
  {
    assert [a][..0] == [];
    assert RootOf(Stripped(marker, Some(hooks))) == StripHooks(marker, hooks);
    assert WithAll(StripHooks(marker, hooks), [a][..0]) == Ok(StripHooks(marker, hooks));
  }

  lemma {:induction false} StripExamples(marker: string, own: Handler)
    requires IsOwn(marker, own)
    ensures StripEntry(marker, Entry("Stop", Groups([Group([own], "")]))) == []
    ensures StripEntry(marker, Entry("X", Groups([OtherGroup("x")]))) == [Entry("X", Groups([OtherGroup("x")]))]
  {
    OneGroupStripped(marker, own);
    FlatMapOne((g: Group) => StripGroup(marker, g), Group([own], ""));
    FlatMapOne((g: Group) => StripGroup(marker, g), OtherGroup("x"));
  }

  /** A null value is replaced where it stands; the second installation moves its event to the end. */
  lemma {:induction false} NullMoves(marker: string, own: Handler, mine: Entry<Groups>, foreign: Entry<Groups>)
    requires IsOwn(marker, own)
    requires mine == Entry("Stop", Groups([Group([own], "")])) && foreign == Entry("X", Groups([OtherGroup("x")]))
    ensures Installed(marker, Some([Entry("Stop", NullValue), foreign]), [Addition("Stop", own)]) == Ok([mine, foreign])
    ensures Installed(marker, Some([mine, foreign]), [Addition("Stop", own)]) == Ok([foreign, mine])
  {
    var null', a := Entry("Stop", NullValue), Addition("Stop", own);
    StripExamples(marker, own);
    TwoEntries(marker, null', foreign);
    TwoEntries(marker, mine, foreign);
    OneInstalled(marker, [null', foreign], a);
    OneInstalled(marker, [mine, foreign], a);
    PutNull(null', foreign, mine);
    PutLast(foreign, mine);
    assert StripHooks(marker, [null', foreign]) == [null', foreign];
    assert StripHooks(marker, [mine, foreign]) == [foreign];
  }

  lemma {:induction false} PutNull(null': Entry<Groups>, foreign: Entry<Groups>, mine: Entry<Groups>)
    requires null'.key == mine.key
    ensures Has([null', foreign], mine.key) && Get([null', foreign], mine.key) == null'.value
    ensures Put([null', foreign], mine.key, mine.value) == [mine, foreign]
  {
    FindUnique([null', foreign], mine.key, 0);
  }

  lemma {:induction false} PutLast(foreign: Entry<Groups>, mine: Entry<Groups>)
    requires foreign.key != mine.key
    ensures !Has([foreign], mine.key) && Put([foreign], mine.key, mine.value) == [foreign, mine]
  {
    FindUnique([foreign], mine.key, 1);
  }

  /** A null value alone: installing and uninstalling leaves nothing, where stripping leaves the null. */
  lemma {:induction false} NullIsLost(marker: string, own: Handler, mine: Entry<Groups>)
    requires IsOwn(marker, own) && mine == Entry("Stop", Groups([Group([own], "")]))
    ensures Installed(marker, Some([Entry("Stop", NullValue)]), [Addition("Stop", own)]) == Ok([mine])
    ensures Uninstalled(marker, Some([mine])) == None
    ensures Stripped(marker, Some([Entry("Stop", NullValue)])) == Some([Entry("Stop", NullValue)])
  {
    var null', a := Entry("Stop", NullValue), Addition("Stop", own);
    StripExamples(marker, own);
    FlatMapOne((e: Entry<Groups>) => StripEntry(marker, e), null');
    FlatMapOne((e: Entry<Groups>) => StripEntry(marker, e), mine);
    OneInstalled(marker, [null'], a);
    FindUnique([null'], "Stop", 0);
    assert Put([null'], "Stop", mine.value) == [mine];
    SomethingInstalled(marker, Some([null']), [a]);
  }
}
