/** What every run of the watcher store keeps: referential integrity across the
    three maps, at most one watcher per folder, and condition ids that are
    never used twice. */
module WatcherInvariants {
  import opened Basics
  import opened WatcherStore

  // -------------------------------------------------------------- invariant

  /** A group lists, once each, exactly the watchers that point at it. */
  ghost predicate ListsItsWatchers(s: Store, g: int)
    requires g in s.groups
  {
    && s.groups[g].id == g
    && Distinct(s.groups[g].watcherIds)
    && forall w :: w in s.groups[g].watcherIds <==> w in s.watchers && s.watchers[w].group == g
  }

  /** A watcher points at a live group of its own account. */
  predicate HasItsGroup(s: Store, w: int)
    requires w in s.watchers
  {
    && s.watchers[w].id == w
    && s.watchers[w].group in s.groups
    && s.groups[s.watchers[w].group].account == s.watchers[w].account
  }

  /** A condition points at a live watcher of its own account, and its id was
      handed out. */
  predicate HasItsWatcher(s: Store, c: int)
    requires c in s.conditions
  {
    && s.conditions[c].id == c && c < s.nextCondition
    && s.conditions[c].watcher in s.watchers
    && s.watchers[s.conditions[c].watcher].account == s.conditions[c].account
  }

  ghost predicate Valid(s: Store) {
    && (forall g :: g in s.groups ==> ListsItsWatchers(s, g))
    && (forall w :: w in s.watchers ==> HasItsGroup(s, w))
    && (forall c :: c in s.conditions ==> HasItsWatcher(s, c))
  }

  /** The conditions name a live watcher's own account. */
  predicate Fits(s: Store, watcher: int, list: seq<Condition>) {
    watcher in s.watchers && forall c :: c in list ==> c.account == s.watchers[watcher].account
  }

  predicate Owned(s: Store, account: string, group: int) {
    group in s.groups && s.groups[group].account == account
  }

  /** Ids are reused after deletions, yet a new id never inherits anything. */
  lemma FreshIdsInheritNothing(s: Store)
    requires Valid(s)
    ensures forall w :: w in s.watchers ==> s.watchers[w].group != NextId(s.groups.Keys)
    ensures forall g :: g in s.groups ==> NextId(s.watchers.Keys) !in s.groups[g].watcherIds
    ensures forall c :: c in s.conditions ==> s.conditions[c].watcher != NextId(s.watchers.Keys)
  {
    forall w | w in s.watchers
      ensures s.watchers[w].group != NextId(s.groups.Keys)
    {
      assert HasItsGroup(s, w);
    }
    forall g | g in s.groups
      ensures NextId(s.watchers.Keys) !in s.groups[g].watcherIds
    {
      assert ListsItsWatchers(s, g);
    }
    forall c | c in s.conditions
      ensures s.conditions[c].watcher != NextId(s.watchers.Keys)
    {
      assert HasItsWatcher(s, c);
    }
  }

  /** Registering keeps the invariant exactly when the new group comes without watchers. */
  lemma RegisteredValidIff(s: Store, group: Group)
    requires Valid(s)
    ensures Valid(Registered(s, group)) <==> group.watcherIds == []
  {
    FreshIdsInheritNothing(s);
    var t := Registered(s, group);
    var id := NextId(s.groups.Keys);
    if group.watcherIds != [] {
      var w := group.watcherIds[0];
      assert w in t.groups[id].watcherIds && !(w in t.watchers && t.watchers[w].group == id);
      assert !ListsItsWatchers(t, id);
    } else {
      forall g | g in t.groups
        ensures ListsItsWatchers(t, g)
      {
        assert g != id ==> ListsItsWatchers(s, g);
      }
      forall w | w in t.watchers
        ensures HasItsGroup(t, w)
      {
        assert HasItsGroup(s, w);
      }
      forall c | c in t.conditions
        ensures HasItsWatcher(t, c)
      {
        assert HasItsWatcher(s, c);
      }
    }
  }

  lemma CreatedConditions(s: Store, account: string, group: int, data: WatcherData, folder: string)
    requires Valid(s)
    ensures var t := Created(s, account, group, data, folder);
      forall c :: c in t.conditions ==> HasItsWatcher(t, c)
  {
    var id := NextId(s.watchers.Keys);
    InsertedExactly(s.conditions, s.nextCondition, Incoming(account, id, data));
    var t := Created(s, account, group, data, folder);
    forall c | c in t.conditions
      ensures HasItsWatcher(t, c)
    {
      if c < s.nextCondition {
        assert HasItsWatcher(s, c);
      }
    }
  }

  lemma CreatedValid(s: Store, account: string, group: int, data: WatcherData, folder: string)
    requires Valid(s) && Owned(s, account, group)
    ensures Valid(Created(s, account, group, data, folder))
  {
    var t := Created(s, account, group, data, folder);
    var id := NextId(s.watchers.Keys);
    FreshIdsInheritNothing(s);
    CreatedConditions(s, account, group, data, folder);
    forall g | g in t.groups
      ensures ListsItsWatchers(t, g)
    {
      assert ListsItsWatchers(s, g);
    }
    forall w | w in t.watchers
      ensures HasItsGroup(t, w)
    {
      assert w != id ==> HasItsGroup(s, w);
    }
  }

  /** Creating a watcher keeps the invariant exactly in a live group of the account. */
  lemma CreatedValidIff(s: Store, account: string, group: int, data: WatcherData, folder: string)
    requires Valid(s)
    ensures Valid(Created(s, account, group, data, folder)) <==> Owned(s, account, group)
  {
    if Owned(s, account, group) {
      CreatedValid(s, account, group, data, folder);
    } else {
      var t := Created(s, account, group, data, folder);
      assert !HasItsGroup(t, NextId(s.watchers.Keys));
    }
  }

  lemma SavedReferences(s: Store, watcher: int, list: seq<Condition>)
    requires Valid(s)
    ensures var t := ConditionsSaved(s, watcher, list);
      && (forall g :: g in t.groups ==> ListsItsWatchers(t, g))
      && (forall w :: w in t.watchers ==> HasItsGroup(t, w))
  {
    var t := ConditionsSaved(s, watcher, list);
    forall g | g in t.groups
      ensures ListsItsWatchers(t, g)
    {
      assert ListsItsWatchers(s, g);
    }
    forall w | w in t.watchers
      ensures HasItsGroup(t, w)
    {
      assert HasItsGroup(s, w);
    }
  }

  /** Saving conditions keeps the invariant exactly for a live watcher of the
      conditions' account (or nothing to save). */
  lemma SavedValidIff(s: Store, watcher: int, list: seq<Condition>)
    requires Valid(s)
    ensures Valid(ConditionsSaved(s, watcher, list)) <==> Fits(s, watcher, list) || list == []
  {
    var t := ConditionsSaved(s, watcher, list);
    SavedReferences(s, watcher, list);
    InsertedExactly(WithoutConditions(s.conditions, {watcher}), s.nextCondition, ForWatcher(watcher, list));
    if Fits(s, watcher, list) || list == [] {
      forall c | c in t.conditions
        ensures HasItsWatcher(t, c)
      {
        if c < s.nextCondition {
          assert HasItsWatcher(s, c);
        } else {
          assert list[c - s.nextCondition] in list;
        }
      }
    } else if watcher !in s.watchers {
      assert !HasItsWatcher(t, s.nextCondition);
    } else {
      var i :| 0 <= i < |list| && list[i].account != s.watchers[watcher].account;
      assert !HasItsWatcher(t, s.nextCondition + i);
    }
  }

  lemma DeletedValid(s: Store, account: string, group: int)
    requires Valid(s) && Owned(s, account, group)
    ensures Valid(Deleted(s, account, group))
  {
    var t := Deleted(s, account, group);
    forall w | w in s.watchers
      ensures w in t.watchers <==> s.watchers[w].group != group
    {
      assert HasItsGroup(s, w);
    }
    forall g | g in t.groups
      ensures ListsItsWatchers(t, g)
    {
      assert ListsItsWatchers(s, g);
    }
    forall w | w in t.watchers
      ensures HasItsGroup(t, w)
    {
      assert HasItsGroup(s, w);
    }
    forall c | c in t.conditions
      ensures HasItsWatcher(t, c)
    {
      assert HasItsWatcher(s, c);
    }
  }

  /** Deleting a group removes it, its watchers and their conditions, and
      nothing else. */
  lemma DeleteIsExact(s: Store, account: string, group: int)
    requires Valid(s) && Owned(s, account, group)
    ensures var t := Deleted(s, account, group);
      && t.nextCondition == s.nextCondition
      && (forall g :: g in t.groups <==> g in s.groups && g != group)
      && (forall g :: g in t.groups ==> t.groups[g] == s.groups[g])
      && (forall w :: w in t.watchers <==> w in s.watchers && s.watchers[w].group != group)
      && (forall w :: w in t.watchers ==> t.watchers[w] == s.watchers[w])
      && (forall c :: c in t.conditions <==> c in s.conditions && s.watchers[s.conditions[c].watcher].group != group)
      && (forall c :: c in t.conditions ==> t.conditions[c] == s.conditions[c])
  {
    forall w | w in s.watchers
      ensures w in WatchersOf(s, account, group) <==> s.watchers[w].group == group
    {
      assert HasItsGroup(s, w);
    }
    assert forall c :: c in s.conditions ==> HasItsWatcher(s, c);
  }

  /** Saving replaces the watcher's conditions by the listed ones under fresh
      consecutive ids, and leaves those of other watchers alone. */
  lemma SaveReplaces(s: Store, watcher: int, list: seq<Condition>)
    requires Valid(s)
    ensures var t := ConditionsSaved(s, watcher, list);
      && t.groups == s.groups && t.watchers == s.watchers
      && (forall c :: c in t.conditions && t.conditions[c].watcher == watcher
                      <==> s.nextCondition <= c < s.nextCondition + |list|)
      && (forall c :: c in t.conditions && t.conditions[c].watcher == watcher ==>
            t.conditions[c] == list[c - s.nextCondition].(id := c, watcher := watcher))
      && (forall c :: c in t.conditions && t.conditions[c].watcher != watcher
                      <==> c in s.conditions && s.conditions[c].watcher != watcher)
      && (forall c :: c in s.conditions && s.conditions[c].watcher != watcher ==> t.conditions[c] == s.conditions[c])
  {
    InsertedExactly(WithoutConditions(s.conditions, {watcher}), s.nextCondition, ForWatcher(watcher, list));
    assert forall c :: c in s.conditions ==> HasItsWatcher(s, c);
  }

  /** An upsert of a found watcher replaces its conditions by the incoming ones,
      union first; one that brings none keeps the old ones. */
  lemma RefreshReplaces(s: Store, account: string, watcher: int, data: WatcherData)
    requires Valid(s)
    ensures var t := Refreshed(s, account, watcher, data);
      var incoming := Incoming(account, watcher, data);
      if incoming == [] then t == s
      else
        && (forall c :: c in t.conditions && t.conditions[c].watcher == watcher
                        <==> s.nextCondition <= c < s.nextCondition + |incoming|)
        && (forall c :: c in t.conditions && t.conditions[c].watcher == watcher ==>
              t.conditions[c] == incoming[c - s.nextCondition].(id := c))
  {
    var incoming := Incoming(account, watcher, data);
    if incoming != [] {
      SaveReplaces(s, watcher, incoming);
      assert forall i :: 0 <= i < |incoming| ==> incoming[i].watcher == watcher;
    }
  }

  /** From an id on, the given conditions of one kind, in order. */
  predicate Holds(cs: map<int, Condition>, first: int, account: string, watcher: int, kind: Kind,
                  list: seq<ConditionData>)
  {
    forall i :: 0 <= i < |list| ==>
      first + i in cs && cs[first + i] == Condition(first + i, account, watcher, kind, list[i])
  }

  lemma UnionInserted(cs: map<int, Condition>, next: int, account: string, watcher: int, data: WatcherData)
    ensures Holds(Inserted(cs, next, Incoming(account, watcher, data)), next, account, watcher, Union, data.union)
  {
    var incoming := Incoming(account, watcher, data);
    InsertedExactly(cs, next, incoming);
    assert forall i :: 0 <= i < |data.union| ==>
      incoming[i] == Condition(0, account, watcher, Union, data.union[i]);
  }

  lemma SubtractInserted(cs: map<int, Condition>, next: int, account: string, watcher: int, data: WatcherData)
    ensures Holds(Inserted(cs, next, Incoming(account, watcher, data)), next + |data.union|,
                  account, watcher, Subtract, data.subtract)
  {
    var incoming := Incoming(account, watcher, data);
    InsertedExactly(cs, next, incoming);
    forall i | 0 <= i < |data.subtract|
      ensures incoming[|data.union| + i] == Condition(0, account, watcher, Subtract, data.subtract[i])
    {
    }
  }

  /** What an upsert writes onto a found watcher, condition by condition. */
  lemma RefreshedExactly(s: Store, account: string, watcher: int, data: WatcherData)
    requires Valid(s)
    ensures var t := Refreshed(s, account, watcher, data);
      && t.groups == s.groups && t.watchers == s.watchers
      && Holds(t.conditions, s.nextCondition, account, watcher, Union, data.union)
      && Holds(t.conditions, s.nextCondition + |data.union|, account, watcher, Subtract, data.subtract)
      && t.nextCondition == s.nextCondition + |data.union| + |data.subtract|
  {
    if data.union != [] || data.subtract != [] {
      var incoming := Incoming(account, watcher, data);
      assert ForWatcher(watcher, incoming) == incoming;
      UnionInserted(WithoutConditions(s.conditions, {watcher}), s.nextCondition, account, watcher, data);
      SubtractInserted(WithoutConditions(s.conditions, {watcher}), s.nextCondition, account, watcher, data);
    }
  }

  /** What a creation writes to watchers and groups. */
  lemma CreatedExactly(s: Store, account: string, group: int, data: WatcherData, folder: string)
    requires Valid(s)
    ensures var t, id := Created(s, account, group, data, folder), NextId(s.watchers.Keys);
      && t.watchers == s.watchers[id := Watcher(id, data.clientId, account, group, folder)]
      && t.groups.Keys == s.groups.Keys
      && (forall g :: g in s.groups && g != group ==> t.groups[g] == s.groups[g])
      && (group in s.groups ==>
            t.groups[group] == s.groups[group].(watcherIds := s.groups[group].watcherIds + [id]))
  {
    FreshIdsInheritNothing(s);
  }

  lemma InsertedKeeps(cs: map<int, Condition>, next: int, incoming: seq<Condition>)
    requires forall c :: c in cs ==> c < next
    ensures forall c :: c in cs ==> c in Inserted(cs, next, incoming) && Inserted(cs, next, incoming)[c] == cs[c]
  {
    InsertedExactly(cs, next, incoming);
  }

  /** And what it writes to the conditions. */
  lemma CreatedConditionsExactly(s: Store, account: string, group: int, data: WatcherData, folder: string)
    requires Valid(s)
    ensures var t, id := Created(s, account, group, data, folder), NextId(s.watchers.Keys);
      && (forall c :: c in s.conditions ==> c in t.conditions && t.conditions[c] == s.conditions[c])
      && Holds(t.conditions, s.nextCondition, account, id, Union, data.union)
      && Holds(t.conditions, s.nextCondition + |data.union|, account, id, Subtract, data.subtract)
      && t.nextCondition == s.nextCondition + |data.union| + |data.subtract|
  {
    var id := NextId(s.watchers.Keys);
    forall c | c in s.conditions
      ensures c < s.nextCondition
    {
      assert HasItsWatcher(s, c);
    }
    InsertedKeeps(s.conditions, s.nextCondition, Incoming(account, id, data));
    UnionInserted(s.conditions, s.nextCondition, account, id, data);
    SubtractInserted(s.conditions, s.nextCondition, account, id, data);
  }

  /** A registered group is the given one but for its id; nothing else changes. */
  lemma RegisteredExactly(s: Store, group: Group)
    ensures var t, id := Registered(s, group), NextId(s.groups.Keys);
      && t.groups == s.groups[id := Group(id, group.clientId, group.account, group.title, group.watcherIds)]
      && t.watchers == s.watchers && t.conditions == s.conditions && t.nextCondition == s.nextCondition
  {
  }

  // ------------------------------------------------------------------- runs

  /** Requests against the store. `Register` is the handler, which may create a
      first watcher in the new group; `pick` is the match an upsert happens on. */
  datatype Op =
    | Register(group: Group, first: Option<WatcherData>)
    | Create(account: string, target: int, data: WatcherData)
    | Upsert(account: string, target: int, data: WatcherData, pick: int)
    | Save(watcher: int, list: seq<Condition>)
    | Delete(account: string, target: int)

  /** Folder normalisation and validation, left open. */
  datatype Folders = Folders(normalize: string -> string, accepts: string -> bool)

  ghost function Step(s: Store, op: Op, fs: Folders): Store {
    match op
    case Register(group, None) => Registered(s, group)
    case Register(group, Some(data)) =>
      if !fs.accepts(data.folder) then s
      else Created(Registered(s, group), group.account, NextId(s.groups.Keys), data, fs.normalize(data.folder))
    case Create(account, target, data) => Created(s, account, target, data, fs.normalize(data.folder))
    case Upsert(account, target, data, pick) =>
      var found := Matches(s, account, target, fs.normalize(data.folder));
      if !fs.accepts(data.folder) then s
      else if found == {} then Created(s, account, target, data, fs.normalize(data.folder))
      else if pick in found then Refreshed(s, account, pick, data)
      else s
    case Save(watcher, list) => ConditionsSaved(s, watcher, list)
    case Delete(account, target) => if Owned(s, account, target) then Deleted(s, account, target) else s
  }

  ghost function Run(s: Store, ops: seq<Op>, fs: Folders): Store
    decreases ops
  {
    if ops == [] then s else Run(Step(s, ops[0], fs), ops[1..], fs)
  }

  /** The same but for the match an upsert happens on. */
  predicate SameRequest(op: Op, done: Op) {
    if op.Upsert? then
      done.Upsert? && done.account == op.account && done.target == op.target && done.data == op.data
    else done == op
  }

  /** The requests on the store itself. An upsert reports the match it picked. */
  method Perform(store: MemoryStorage, op: Op) returns (done: Op)
    modifies store
    ensures store.View() == Step(old(store.View()), done, Folders(store.normalize, store.accepts))
    ensures SameRequest(op, done)
  {
    done := op;
    match op
    case Register(group, first) =>
      if first.Some? && !store.accepts(first.value.folder) {
        return;
      }
      var id := store.RegisterWatcherGroup(group);
      if first.Some? {
        var _ := store.CreateWatcher(group.account, id, first.value);
      }
    case Create(account, target, data) =>
      var _ := store.CreateWatcher(account, target, data);
    case Upsert(account, target, data, _) =>
      var r := store.CreateOrGetWatcher(account, target, data);
      if r.Ok? {
        done := Upsert(account, target, data, r.value);
      }
    case Save(watcher, list) =>
      store.SaveWatcherConditions(watcher, list);
    case Delete(account, target) =>
      var _ := store.DeleteWatcherGroup(account, target);
  }

  /** So what is proved about runs holds of the store, whatever matches its
      upserts happen on. */
  method PerformAll(store: MemoryStorage, ops: seq<Op>) returns (done: seq<Op>)
    modifies store
    ensures |done| == |ops| && forall i :: 0 <= i < |ops| ==> SameRequest(ops[i], done[i])
    ensures store.View() == Run(old(store.View()), done, Folders(store.normalize, store.accepts))
  {
    ghost var start, fs := store.View(), Folders(store.normalize, store.accepts);
    done := [];
    for n := 0 to |ops|
      invariant |done| == n && store.View() == Run(start, done, fs)
      invariant forall i :: 0 <= i < n ==> SameRequest(ops[i], done[i])
    {
      var op := Perform(store, ops[n]);
      RunSnoc(start, done, op, fs);
      done := done + [op];
    }
  }

  lemma {:induction false} RunSnoc(s: Store, ops: seq<Op>, op: Op, fs: Folders)
    ensures Run(s, ops + [op], fs) == Step(Run(s, ops, fs), op, fs)
    decreases ops
  {
    if ops == [] {
      assert ([] + [op])[1..] == [];
      assert Run(Step(s, op, fs), [], fs) == Step(s, op, fs);
    } else {
      RunSnoc(Step(s, ops[0], fs), ops[1..], op, fs);
      assert (ops + [op])[1..] == ops[1..] + [op];
    }
  }

  /** What callers must respect: new groups come empty, watchers go into live
      groups of the account, conditions onto live watchers of their account. */
  predicate Live(s: Store, op: Op) {
    match op
    case Register(group, _) => group.watcherIds == []
    case Create(account, target, _) => Owned(s, account, target)
    case Upsert(account, target, _, _) => Owned(s, account, target)
    case Save(watcher, list) => Fits(s, watcher, list)
    case Delete(_, _) => true
  }

  ghost predicate LiveRun(s: Store, ops: seq<Op>, fs: Folders)
    decreases ops
  {
    ops == [] || (Live(s, ops[0]) && LiveRun(Step(s, ops[0], fs), ops[1..], fs))
  }

  lemma StepValid(s: Store, op: Op, fs: Folders)
    requires Valid(s) && Live(s, op)
    ensures Valid(Step(s, op, fs))
  {
    match op
    case Register(group, first) =>
      RegisteredValidIff(s, group);
      if first.Some? {
        CreatedValid(Registered(s, group), group.account, NextId(s.groups.Keys), first.value,
                     fs.normalize(first.value.folder));
      }
    case Create(account, target, data) =>
      CreatedValid(s, account, target, data, fs.normalize(data.folder));
    case Upsert(account, target, data, pick) =>
      CreatedValid(s, account, target, data, fs.normalize(data.folder));
      if pick in Matches(s, account, target, fs.normalize(data.folder)) {
        assert forall c :: c in Incoming(account, pick, data) ==> c.account == account;
        SavedValidIff(s, pick, Incoming(account, pick, data));
      }
    case Save(watcher, list) => SavedValidIff(s, watcher, list);
    case Delete(account, target) =>
      if Owned(s, account, target) {
        DeletedValid(s, account, target);
      }
  }

  lemma {:induction false} ValidRun(s: Store, ops: seq<Op>, fs: Folders)
    requires Valid(s) && LiveRun(s, ops, fs)
    ensures Valid(Run(s, ops, fs))
    decreases ops
  {
    if ops != [] {
      StepValid(s, ops[0], fs);
      ValidRun(Step(s, ops[0], fs), ops[1..], fs);
    }
  }

  // ------------------------------------------------------ condition ids

  lemma StepNeverReuses(s: Store, op: Op, fs: Folders, c: int)
    ensures var t := Step(s, op, fs);
      && s.nextCondition <= t.nextCondition
      && (c < s.nextCondition && c in t.conditions ==> c in s.conditions && t.conditions[c] == s.conditions[c])
  {
    match op
    case Register(group, None) =>
    case Register(group, Some(data)) =>
      var r := Registered(s, group);
      InsertedExactly(r.conditions, r.nextCondition, Incoming(group.account, NextId(r.watchers.Keys), data));
    case Create(account, target, data) =>
      InsertedExactly(s.conditions, s.nextCondition, Incoming(account, NextId(s.watchers.Keys), data));
    case Upsert(account, target, data, pick) =>
      InsertedExactly(s.conditions, s.nextCondition, Incoming(account, NextId(s.watchers.Keys), data));
      SavedNeverReuses(s, pick, Incoming(account, pick, data), c);
    case Save(watcher, list) => SavedNeverReuses(s, watcher, list, c);
    case Delete(account, target) =>
  }

  lemma SavedNeverReuses(s: Store, watcher: int, list: seq<Condition>, c: int)
    ensures var t := ConditionsSaved(s, watcher, list);
      c < s.nextCondition && c in t.conditions ==> c in s.conditions && t.conditions[c] == s.conditions[c]
  {
    InsertedExactly(WithoutConditions(s.conditions, {watcher}), s.nextCondition, ForWatcher(watcher, list));
  }

  /** In any run at all, a condition id once handed out names the same condition
      for ever, and never comes back once it is gone. */
  lemma {:induction false} ConditionIdsNeverReused(s: Store, ops: seq<Op>, fs: Folders, c: int)
    requires c < s.nextCondition && c in Run(s, ops, fs).conditions
    ensures c in s.conditions && Run(s, ops, fs).conditions[c] == s.conditions[c]
    decreases ops
  {
    if ops != [] {
      StepNeverReuses(s, ops[0], fs, c);
      ConditionIdsNeverReused(Step(s, ops[0], fs), ops[1..], fs, c);
    }
  }

  // ------------------------------------------------------ one watcher per folder

  predicate SamePlace(v: Watcher, w: Watcher) {
    v.account == w.account && v.group == w.group && v.folder == w.folder
  }

  ghost predicate UniqueFolders(s: Store) {
    forall v, w :: v in s.watchers && w in s.watchers && SamePlace(s.watchers[v], s.watchers[w]) ==> v == w
  }

  /** Creating a watcher keeps folders unique exactly if none matches yet. */
  lemma CreatedUniqueIff(s: Store, account: string, group: int, data: WatcherData, folder: string)
    requires UniqueFolders(s)
    ensures UniqueFolders(Created(s, account, group, data, folder)) <==> Matches(s, account, group, folder) == {}
  {
    var t, id := Created(s, account, group, data, folder), NextId(s.watchers.Keys);
    if Matches(s, account, group, folder) == {} {
      assert forall w :: w in s.watchers ==> w !in Matches(s, account, group, folder);
    } else {
      var w := Member(Matches(s, account, group, folder));
      assert SamePlace(t.watchers[w], t.watchers[id]) && w != id;
    }
  }

  /** A bare creation for a folder that has a watcher at that moment. */
  predicate Finds(s: Store, op: Op, fs: Folders) {
    op.Create? && Matches(s, op.account, op.target, fs.normalize(op.data.folder)) != {}
  }

  lemma NewGroupIsEmpty(s: Store, group: Group, folder: string)
    requires Valid(s)
    ensures Matches(Registered(s, group), group.account, NextId(s.groups.Keys), folder) == {}
  {
    var found := Matches(Registered(s, group), group.account, NextId(s.groups.Keys), folder);
    if found != {} {
      var w := Member(found);
      FreshIdsInheritNothing(s);
      assert false;
    }
  }

  /** Whatever the request, it keeps folders unique exactly if it is not the bare
      creation of a watcher for a folder that has one. */
  lemma StepUniqueIff(s: Store, op: Op, fs: Folders)
    requires Valid(s) && Live(s, op) && UniqueFolders(s)
    ensures UniqueFolders(Step(s, op, fs)) <==> !Finds(s, op, fs)
  {
    match op
    case Register(group, first) =>
      if first.Some? {
        var r, g := Registered(s, group), NextId(s.groups.Keys);
        var folder := fs.normalize(first.value.folder);
        NewGroupIsEmpty(s, group, folder);
        CreatedUniqueIff(r, group.account, g, first.value, folder);
      }
    case Create(account, target, data) =>
      CreatedUniqueIff(s, account, target, data, fs.normalize(data.folder));
    case Upsert(account, target, data, pick) =>
      if Matches(s, account, target, fs.normalize(data.folder)) == {} {
        CreatedUniqueIff(s, account, target, data, fs.normalize(data.folder));
      }
    case Save(watcher, list) =>
    case Delete(account, target) =>
  }

  ghost predicate FindsNone(s: Store, ops: seq<Op>, fs: Folders)
    decreases ops
  {
    ops == [] || (!Finds(s, ops[0], fs) && FindsNone(Step(s, ops[0], fs), ops[1..], fs))
  }

  /** Runs whose bare creations find no match at the moment they are made keep at
      most one watcher per account, group and normalised folder. */
  lemma {:induction false} UniqueRun(s: Store, ops: seq<Op>, fs: Folders)
    requires Valid(s) && UniqueFolders(s) && LiveRun(s, ops, fs) && FindsNone(s, ops, fs)
    ensures Valid(Run(s, ops, fs)) && UniqueFolders(Run(s, ops, fs))
    decreases ops
  {
    if ops != [] {
      StepValid(s, ops[0], fs);
      StepUniqueIff(s, ops[0], fs);
      UniqueRun(Step(s, ops[0], fs), ops[1..], fs);
    }
  }

  /** The id an upsert returns. */
  ghost function UpsertedId(s: Store, account: string, target: int, folder: string, pick: int): int {
    if Matches(s, account, target, folder) == {} then NextId(s.watchers.Keys) else pick
  }

  lemma UpsertLeavesOne(s: Store, account: string, target: int, data: WatcherData, pick: int, fs: Folders)
    requires Valid(s) && UniqueFolders(s) && Owned(s, account, target) && fs.accepts(data.folder)
    requires var found := Matches(s, account, target, fs.normalize(data.folder)); found == {} || pick in found
    ensures var folder := fs.normalize(data.folder);
      Matches(Step(s, Upsert(account, target, data, pick), fs), account, target, folder)
      == {UpsertedId(s, account, target, folder, pick)}
  {
    var folder := fs.normalize(data.folder);
    var t := Step(s, Upsert(account, target, data, pick), fs);
    StepUniqueIff(s, Upsert(account, target, data, pick), fs);
    var id := UpsertedId(s, account, target, folder, pick);
    assert id in Matches(t, account, target, folder);
    forall w | w in Matches(t, account, target, folder)
      ensures w == id
    {
      assert SamePlace(t.watchers[w], t.watchers[id]);
    }
  }

  /** After an accepted upsert exactly one watcher matches, so a second upsert,
      whichever match the map iteration yields, returns that id and adds none. */
  lemma UpsertIdempotent(s: Store, account: string, target: int, data: WatcherData, pick: int,
                         again: WatcherData, pick2: int, fs: Folders)
    requires Valid(s) && UniqueFolders(s) && Owned(s, account, target) && fs.accepts(data.folder)
    requires var found := Matches(s, account, target, fs.normalize(data.folder)); found == {} || pick in found
    requires fs.normalize(again.folder) == fs.normalize(data.folder)
    ensures var folder := fs.normalize(data.folder);
      var t := Step(s, Upsert(account, target, data, pick), fs);
      && Matches(t, account, target, folder) == {UpsertedId(s, account, target, folder, pick)}
      && Step(t, Upsert(account, target, again, pick2), fs).watchers == t.watchers
      && Step(t, Upsert(account, target, again, pick2), fs).groups == t.groups
  {
    UpsertLeavesOne(s, account, target, data, pick, fs);
  }

  // --------------------------------------- the upsert's two lock sections apart

  /** An upsert that has looked and not yet written. */
  datatype Look = Look(account: string, target: int, data: WatcherData, found: Option<int>)

  datatype Racing = Racing(store: Store, looks: map<nat, Look>)

  datatype RaceStep =
    | Find(k: nat, account: string, target: int, data: WatcherData, pick: int)
    | Write(k: nat)
    | Request(op: Op)

  /** What a lookup returns, `pick` being the match the iteration happens on. */
  function LookedUp(s: Store, account: string, target: int, folder: string, pick: int): Option<int> {
    if pick in Matches(s, account, target, folder) then Some(pick) else None
  }

  ghost function Written(s: Store, l: Look, fs: Folders): Store {
    match l.found
    case None => Created(s, l.account, l.target, l.data, fs.normalize(l.data.folder))
    case Some(w) => Refreshed(s, l.account, w, l.data)
  }

  predicate Possible(r: Racing, step: RaceStep, fs: Folders) {
    match step
    case Find(k, account, target, data, pick) =>
      var found := Matches(r.store, account, target, fs.normalize(data.folder));
      k !in r.looks && fs.accepts(data.folder) && (found == {} || pick in found)
    case Write(k) => k in r.looks
    case Request(_) => true
  }

  ghost function RaceNext(r: Racing, step: RaceStep, fs: Folders): Racing {
    if !Possible(r, step, fs) then r
    else
      match step
      case Find(k, account, target, data, pick) =>
        var found := LookedUp(r.store, account, target, fs.normalize(data.folder), pick);
        r.(looks := r.looks[k := Look(account, target, data, found)])
      case Write(k) => Racing(Written(r.store, r.looks[k], fs), r.looks - {k})
      case Request(op) => r.(store := Step(r.store, op, fs))
  }

  ghost function RaceRun(r: Racing, steps: seq<RaceStep>, fs: Folders): Racing
    decreases |steps|
  {
    if steps == [] then r else RaceRun(RaceNext(r, steps[0], fs), steps[1..], fs)
  }

  /** A write on an older lookup keeps folders unique exactly if it found a watcher
      or still none matches. */
  lemma WrittenUniqueIff(s: Store, l: Look, fs: Folders)
    requires UniqueFolders(s)
    ensures UniqueFolders(Written(s, l, fs))
       <==> l.found.Some? || Matches(s, l.account, l.target, fs.normalize(l.data.folder)) == {}
  {
    if l.found.None? {
      CreatedUniqueIff(s, l.account, l.target, l.data, fs.normalize(l.data.folder));
    }
  }

  /** It keeps integrity exactly if the group is still the account's, or the found
      watcher still lives under that account, or brings no conditions. */
  lemma WrittenValidIff(s: Store, l: Look, fs: Folders)
    requires Valid(s)
    ensures Valid(Written(s, l, fs)) <==>
      match l.found
      case None => Owned(s, l.account, l.target)
      case Some(w) =>
        || (w in s.watchers && s.watchers[w].account == l.account)
        || (l.data.union == [] && l.data.subtract == [])
  {
    match l.found
    case None => CreatedValidIff(s, l.account, l.target, l.data, fs.normalize(l.data.folder));
    case Some(w) =>
      var incoming := Incoming(l.account, w, l.data);
      assert forall c :: c in incoming ==> c.account == l.account;
      assert incoming != [] ==> incoming[0] in incoming;
      SavedValidIff(s, w, incoming);
  }

  /** Two upserts of one new folder that both look before either writes leave two
      watchers for it. */
  lemma RacingUpsertsDuplicate(s: Store, account: string, target: int, data: WatcherData, fs: Folders)
    requires UniqueFolders(s) && fs.accepts(data.folder)
    requires Matches(s, account, target, fs.normalize(data.folder)) == {}
    ensures var r := RaceRun(Racing(s, map[]),
        [Find(0, account, target, data, 0), Find(1, account, target, data, 0), Write(0), Write(1)], fs);
      !UniqueFolders(r.store)
  {
    var folder := fs.normalize(data.folder);
    var look := Look(account, target, data, None);
    var r1 := RaceNext(Racing(s, map[]), Find(0, account, target, data, 0), fs);
    assert r1 == Racing(s, map[0 := look]);
    var r2 := RaceNext(r1, Find(1, account, target, data, 0), fs);
    assert r2 == Racing(s, map[0 := look, 1 := look]);
    var r3 := RaceNext(r2, Write(0), fs);
    CreatedUniqueIff(s, account, target, data, folder);
    assert NextId(s.watchers.Keys) in Matches(r3.store, account, target, folder);
    assert r3.looks == map[1 := look];
    WrittenUniqueIff(r3.store, look, fs);
    FourSteps(Racing(s, map[]), Find(0, account, target, data, 0), Find(1, account, target, data, 0),
              Write(0), Write(1), fs);
  }

  lemma OneStep(r: Racing, a: RaceStep, rest: seq<RaceStep>, fs: Folders)
    ensures RaceRun(r, [a] + rest, fs) == RaceRun(RaceNext(r, a, fs), rest, fs)
  {
    assert ([a] + rest)[1..] == rest;
  }

  lemma ThreeSteps(r: Racing, a: RaceStep, b: RaceStep, c: RaceStep, fs: Folders)
    ensures RaceRun(r, [a, b, c], fs) == RaceNext(RaceNext(RaceNext(r, a, fs), b, fs), c, fs)
  {
    var r1 := RaceNext(r, a, fs);
    var r2 := RaceNext(r1, b, fs);
    OneStep(r, a, [b, c], fs);
    OneStep(r1, b, [c], fs);
    OneStep(r2, c, [], fs);
    assert [a] + [b, c] == [a, b, c] && [b] + [c] == [b, c] && [c] + [] == [c];
    assert RaceRun(RaceNext(r2, c, fs), [], fs) == RaceNext(r2, c, fs);
  }

  lemma FourSteps(r: Racing, a: RaceStep, b: RaceStep, c: RaceStep, d: RaceStep, fs: Folders)
    ensures RaceRun(r, [a, b, c, d], fs) == RaceNext(RaceNext(RaceNext(RaceNext(r, a, fs), b, fs), c, fs), d, fs)
  {
    OneStep(r, a, [b, c, d], fs);
    ThreeSteps(RaceNext(r, a, fs), b, c, d, fs);
    assert [a] + [b, c, d] == [a, b, c, d];
  }

  /** An upsert whose watcher is deleted between its lookup and its write leaves
      conditions that point at no watcher. */
  lemma OvertakenUpsertDangles(s: Store, account: string, target: int, data: WatcherData, pick: int, fs: Folders)
    requires Valid(s) && fs.accepts(data.folder) && Owned(s, account, target)
    requires pick in Matches(s, account, target, fs.normalize(data.folder)) && data.union + data.subtract != []
    ensures var r := RaceRun(Racing(s, map[]),
        [Find(0, account, target, data, pick), Request(Delete(account, target)), Write(0)], fs);
      !Valid(r.store)
  {
    var look := Look(account, target, data, Some(pick));
    var r1 := RaceNext(Racing(s, map[]), Find(0, account, target, data, pick), fs);
    assert r1 == Racing(s, map[0 := look]);
    var r2 := RaceNext(r1, Request(Delete(account, target)), fs);
    assert r2 == Racing(Deleted(s, account, target), map[0 := look]);
    DeletedValid(s, account, target);
    WrittenValidIff(r2.store, look, fs);
    ThreeSteps(Racing(s, map[]), Find(0, account, target, data, pick), Request(Delete(account, target)), Write(0), fs);
  }
}
