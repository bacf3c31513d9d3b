/** The watcher part of the in-memory storage: groups, watchers and conditions
    in three maps, and the watcher upsert the application builds on them. */
module WatcherStore {
  import opened Basics

  datatype Kind = Union | Subtract

  datatype ConditionData = ConditionData(key: string, values: seq<string>)

  datatype Group = Group(id: int, clientId: int, account: string, title: string, watcherIds: seq<int>)

  datatype Watcher = Watcher(id: int, clientId: int, account: string, group: int, folder: string)

  datatype Condition = Condition(id: int, account: string, watcher: int, kind: Kind, data: ConditionData)

  /** A watcher as a client describes it. */
  datatype WatcherData = WatcherData(
    clientId: int, folder: string, union: seq<ConditionData>, subtract: seq<ConditionData>)

  datatype Store = Store(
    groups: map<int, Group>,
    watchers: map<int, Watcher>,
    conditions: map<int, Condition>,
    nextCondition: int)

  const EMPTY := Store(map[], map[], map[], 1)

  datatype Outcome<+T> = Ok(value: T) | NotFound | PermissionDenied | ValidationError

  // ---------------------------------------------------------------------- ids

  lemma {:induction false} MaximumExists(keys: set<int>)
    requires keys != {}
    ensures exists m :: m in keys && forall k :: k in keys ==> k <= m
  {
    var x := Member(keys);
    var rest := keys - {x};
    assert forall k :: k in keys ==> k == x || k in rest;
    if rest != {} {
      MaximumExists(rest);
      var m :| m in rest && forall k :: k in rest ==> k <= m;
      var top := if m < x then x else m;
      assert top in keys;
    }
  }

  /** `keys().max().map_or(1, |id| id + 1)`. */
  ghost function NextId(keys: set<int>): (id: int)
    ensures id !in keys && forall k :: k in keys ==> k < id
    ensures if keys == {} then id == 1 else id - 1 in keys
  {
    if keys == {} then 1
    else
      MaximumExists(keys);
      var m :| m in keys && forall k :: k in keys ==> k <= m;
      m + 1
  }

  method ComputeNextId(keys: set<int>) returns (id: int)
    ensures id == NextId(keys)
  {
    if keys == {} {
      return 1;
    }
    var first := Pick(keys);
    var m, todo := first, keys - {first};
    while todo != {}
      invariant todo <= keys && m in keys
      invariant forall k :: k in keys && k !in todo ==> k <= m
      decreases |todo|
    {
      var k := Pick(todo);
      todo := todo - {k};
      if m < k {
        m := k;
      }
    }
    id := m + 1;
  }

  // ---------------------------------------------------- what each call does

  /** New conditions get consecutive ids from the counter, in order. */
  function Inserted(conditions: map<int, Condition>, next: int, incoming: seq<Condition>): map<int, Condition> {
    if incoming == [] then conditions
    else
      var n := |incoming| - 1;
      Inserted(conditions, next, incoming[..n])[next + n := incoming[n].(id := next + n)]
  }

  lemma {:induction false} InsertedExactly(conditions: map<int, Condition>, next: int, incoming: seq<Condition>)
    ensures forall c :: c in Inserted(conditions, next, incoming) <==> c in conditions || next <= c < next + |incoming|
    ensures forall c :: c in Inserted(conditions, next, incoming) ==>
      Inserted(conditions, next, incoming)[c]
      == if next <= c < next + |incoming| then incoming[c - next].(id := c) else conditions[c]
  {
    if incoming != [] {
      InsertedExactly(conditions, next, incoming[..|incoming| - 1]);
    }
  }

  function WithoutConditions(conditions: map<int, Condition>, watchers: set<int>): map<int, Condition> {
    map c | c in conditions && conditions[c].watcher !in watchers :: conditions[c]
  }

  function AsConditions(account: string, watcher: int, kind: Kind, list: seq<ConditionData>): (r: seq<Condition>)
    ensures |r| == |list|
  {
    seq(|list|, i requires 0 <= i < |list| => Condition(0, account, watcher, kind, list[i]))
  }

  /** The union conditions, then the subtracting ones. */
  function Incoming(account: string, watcher: int, data: WatcherData): seq<Condition> {
    AsConditions(account, watcher, Union, data.union) + AsConditions(account, watcher, Subtract, data.subtract)
  }

  ghost function Registered(s: Store, group: Group): Store {
    var id := NextId(s.groups.Keys);
    s.(groups := s.groups[id := group.(id := id)])
  }

  ghost function Created(s: Store, account: string, group: int, data: WatcherData, folder: string): Store {
    var id := NextId(s.watchers.Keys);
    var incoming := Incoming(account, id, data);
    Store(
      if group in s.groups && id !in s.groups[group].watcherIds
      then s.groups[group := s.groups[group].(watcherIds := s.groups[group].watcherIds + [id])]
      else s.groups,
      s.watchers[id := Watcher(id, data.clientId, account, group, folder)],
      Inserted(s.conditions, s.nextCondition, incoming),
      s.nextCondition + |incoming|)
  }

  function ForWatcher(watcher: int, list: seq<Condition>): (r: seq<Condition>)
    ensures |r| == |list|
  {
    seq(|list|, i requires 0 <= i < |list| => list[i].(watcher := watcher))
  }

  function ConditionsSaved(s: Store, watcher: int, list: seq<Condition>): Store {
    s.(conditions := Inserted(WithoutConditions(s.conditions, {watcher}), s.nextCondition, ForWatcher(watcher, list)),
       nextCondition := s.nextCondition + |list|)
  }

  function WatchersOf(s: Store, account: string, group: int): set<int> {
    set w | w in s.watchers && s.watchers[w].account == account && s.watchers[w].group == group
  }

  function Deleted(s: Store, account: string, group: int): Store {
    var gone := WatchersOf(s, account, group);
    s.(groups := s.groups - {group},
       watchers := s.watchers - gone,
       conditions := WithoutConditions(s.conditions, gone))
  }

  /** The watchers `find_watcher_by_folder` may return. */
  function Matches(s: Store, account: string, group: int, folder: string): set<int> {
    set w | w in WatchersOf(s, account, group) && s.watchers[w].folder == folder
  }

  /** Upsert of a found watcher: replace its conditions unless none came in. */
  function Refreshed(s: Store, account: string, watcher: int, data: WatcherData): Store {
    if data.union == [] && data.subtract == [] then s
    else ConditionsSaved(s, watcher, Incoming(account, watcher, data))
  }

  // ---------------------------------------------------------------- the store

  class MemoryStorage {
    const normalize: string -> string
    const accepts: string -> bool
    var groups: map<int, Group>
    var watchers: map<int, Watcher>
    var conditions: map<int, Condition>
    var nextCondition: int

    function View(): Store
      reads this
    {
      Store(groups, watchers, conditions, nextCondition)
    }

    constructor (normalize: string -> string, accepts: string -> bool)
      ensures View() == EMPTY && this.normalize == normalize && this.accepts == accepts
    {
      this.normalize, this.accepts := normalize, accepts;
      groups, watchers, conditions, nextCondition := map[], map[], map[], 1;
    }

    method RegisterWatcherGroup(group: Group) returns (id: int)
      modifies this`groups
      ensures View() == Registered(old(View()), group) && id == NextId(old(groups).Keys)
    {
      id := ComputeNextId(groups.Keys);
      groups := groups[id := group.(id := id)];
    }

    /** The insertion loop of create and save. */
    method InsertConditions(list: seq<Condition>)
      modifies this`conditions, this`nextCondition
      ensures conditions == Inserted(old(conditions), old(nextCondition), list)
      ensures nextCondition == old(nextCondition) + |list|
    {
      ghost var before, next := conditions, nextCondition;
      for n := 0 to |list|
        invariant conditions == Inserted(before, next, list[..n]) && nextCondition == next + n
      {
        conditions := conditions[nextCondition := list[n].(id := nextCondition)];
        nextCondition := nextCondition + 1;
        assert list[..n + 1][..n] == list[..n];
      }
      assert list[..|list|] == list;
    }

    /** The removal loop of save and delete. */
    method RemoveConditions(of: set<int>)
      modifies this`conditions
      ensures conditions == WithoutConditions(old(conditions), of)
    {
      ghost var before := conditions;
      var doomed := set c | c in conditions && conditions[c].watcher in of;
      var todo := doomed;
      while todo != {}
        invariant todo <= doomed && conditions == before - (doomed - todo)
        decreases |todo|
      {
        var c := Pick(todo);
        todo := todo - {c};
        conditions := conditions - {c};
      }
      assert doomed - todo == doomed;
    }

    method CreateWatcher(account: string, group: int, data: WatcherData) returns (id: int)
      modifies this
      ensures View() == Created(old(View()), account, group, data, normalize(data.folder))
      ensures id == NextId(old(watchers).Keys)
    {
      id := ComputeNextId(watchers.Keys);
      watchers := watchers[id := Watcher(id, data.clientId, account, group, normalize(data.folder))];
      InsertConditions(Incoming(account, id, data));
      if group in groups && id !in groups[group].watcherIds {
        groups := groups[group := groups[group].(watcherIds := groups[group].watcherIds + [id])];
      }
    }

    method SaveWatcherConditions(watcher: int, list: seq<Condition>)
      modifies this`conditions, this`nextCondition
      ensures View() == ConditionsSaved(old(View()), watcher, list)
    {
      RemoveConditions({watcher});
      InsertConditions(ForWatcher(watcher, list));
    }

    method DeleteWatcherGroup(account: string, group: int) returns (r: Outcome<()>)
      modifies this
      ensures r == (if group !in old(groups) then NotFound
                    else if old(groups)[group].account != account then PermissionDenied else Ok(()))
      ensures View() == if r.Ok? then Deleted(old(View()), account, group) else old(View())
    {
      if group !in groups {
        return NotFound;
      }
      if groups[group].account != account {
        return PermissionDenied;
      }
      var gone := WatchersOf(View(), account, group);
      RemoveConditions(gone);
      var todo := gone;
      ghost var before := watchers;
      while todo != {}
        invariant todo <= gone && watchers == before - (gone - todo)
        invariant groups == old(groups) && nextCondition == old(nextCondition)
        invariant conditions == WithoutConditions(old(conditions), gone)
        decreases |todo|
      {
        var w := Pick(todo);
        watchers := watchers - {w};
        todo := todo - {w};
      }
      groups := groups - {group};
      r := Ok(());
    }

    method FindWatcherByFolder(account: string, group: int, folder: string) returns (r: Option<int>)
      ensures var found := Matches(View(), account, group, normalize(folder));
        if found == {} then r == None else r.Some? && r.value in found
    {
      var found := Matches(View(), account, group, normalize(folder));
      if found == {} {
        r := None;
      } else {
        var id := Pick(found);
        r := Some(id);
      }
    }

    /** `create_or_get_watcher`. */
    method CreateOrGetWatcher(account: string, group: int, data: WatcherData) returns (r: Outcome<int>)
      modifies this
      ensures !accepts(data.folder) ==> r == ValidationError && View() == old(View())
      ensures accepts(data.folder) ==>
        var s, folder := old(View()), normalize(data.folder);
        && r.Ok?
        && if Matches(s, account, group, folder) == {}
           then r.value == NextId(s.watchers.Keys) && View() == Created(s, account, group, data, folder)
           else r.value in Matches(s, account, group, folder) && View() == Refreshed(s, account, r.value, data)
    {
      if !accepts(data.folder) {
        return ValidationError;
      }
      var existing := FindWatcherByFolder(account, group, data.folder);
      if existing.Some? {
        if !(data.union == [] && data.subtract == []) {
          SaveWatcherConditions(existing.value, Incoming(account, existing.value, data));
        }
        return Ok(existing.value);
      }
      var id := CreateWatcher(account, group, data);
      r := Ok(id);
    }
  }
}
