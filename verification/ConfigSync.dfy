/** The accounting of a configuration sync, for any pattern of storage
    successes and failures. */
module ConfigSync {
  import opened Basics

  datatype Lookup = Found | Missing | LookupFailed

  /** One client group with the outcomes storage gives it: of the lookup, of the
      update or registration, and of each watcher's upsert. */
  datatype Group = Group(id: int, lookup: Lookup, written: bool, watchers: seq<bool>)

  datatype Conflict =
    | UpdateFailed(id: int)
    | CreateFailed(id: int)
    | WatcherFailed(id: int)
    | CheckFailed(id: int)
    | PresetsFailed

  datatype Stats = Stats(updated: nat, created: nat, presets: nat, operations: nat)

  datatype Response = Response(success: bool, stats: Stats, conflicts: seq<Conflict>)

  /** A group found is left alone by an incremental sync that is not forced. */
  predicate Attempted(g: Group, incremental: bool, force: bool) {
    (g.lookup.Found? && (force || !incremental)) || g.lookup.Missing?
  }

  predicate Applied(g: Group, incremental: bool, force: bool) {
    Attempted(g, incremental, force) && g.written
  }

  /** How many watcher upserts failed. */
  function Failures(watchers: seq<bool>): nat {
    if watchers == [] then 0
    else Failures(watchers[..|watchers| - 1]) + if watchers[|watchers| - 1] then 0 else 1
  }

  function ConflictsIn(g: Group, incremental: bool, force: bool): seq<Conflict> {
    if g.lookup.LookupFailed? then [CheckFailed(g.id)]
    else if !Attempted(g, incremental, force) then []
    else if !g.written then [if g.lookup.Found? then UpdateFailed(g.id) else CreateFailed(g.id)]
    else seq(Failures(g.watchers), _ => WatcherFailed(g.id))
  }

  function Conflicts(groups: seq<Group>, incremental: bool, force: bool): seq<Conflict> {
    if groups == [] then []
    else Conflicts(groups[..|groups| - 1], incremental, force) + ConflictsIn(groups[|groups| - 1], incremental, force)
  }

  function CountApplied(groups: seq<Group>, incremental: bool, force: bool, lookup: Lookup): nat {
    if groups == [] then 0
    else
      var g := groups[|groups| - 1];
      CountApplied(groups[..|groups| - 1], incremental, force, lookup)
        + if g.lookup == lookup && Applied(g, incremental, force) then 1 else 0
  }

  method UpsertWatchers(g: Group, conflicts: seq<Conflict>, detected: bool)
    returns (all: seq<Conflict>, any: bool)
    ensures all == conflicts + seq(Failures(g.watchers), _ => WatcherFailed(g.id))
    ensures any <==> detected || Failures(g.watchers) > 0
  {
    all, any := conflicts, detected;
    for i := 0 to |g.watchers|
      invariant all == conflicts + seq(Failures(g.watchers[..i]), _ => WatcherFailed(g.id))
      invariant any <==> detected || Failures(g.watchers[..i]) > 0
    {
      assert g.watchers[..i + 1][..i] == g.watchers[..i];
      if !g.watchers[i] {
        all := all + [WatcherFailed(g.id)];
        any := true;
      }
    }
    assert g.watchers[..|g.watchers|] == g.watchers;
  }

  method SyncGroup(g: Group, incremental: bool, force: bool, stats: Stats, conflicts: seq<Conflict>, detected: bool)
    returns (counted: Stats, all: seq<Conflict>, any: bool)
    ensures counted.updated == stats.updated + if g.lookup.Found? && Applied(g, incremental, force) then 1 else 0
    ensures counted.created == stats.created + if g.lookup.Missing? && Applied(g, incremental, force) then 1 else 0
    ensures counted.operations == stats.operations + if Applied(g, incremental, force) then 1 else 0
    ensures counted.presets == stats.presets
    ensures all == conflicts + ConflictsIn(g, incremental, force)
    ensures any <==> detected || ConflictsIn(g, incremental, force) != []
  {
    counted, all, any := stats, conflicts, detected;
    match g.lookup {
      case Found =>
        if force || !incremental {
          if !g.written {
            all, any := all + [UpdateFailed(g.id)], true;
          } else {
            counted := stats.(updated := stats.updated + 1, operations := stats.operations + 1);
            all, any := UpsertWatchers(g, all, any);
          }
        }
      case Missing =>
        if !g.written {
          all, any := all + [CreateFailed(g.id)], true;
        } else {
          counted := stats.(created := stats.created + 1, operations := stats.operations + 1);
          all, any := UpsertWatchers(g, all, any);
        }
      case LookupFailed =>
        all, any := all + [CheckFailed(g.id)], true;
    }
  }

  lemma Unfolds(groups: seq<Group>, i: nat, incremental: bool, force: bool)
    requires i < |groups|
    ensures Conflicts(groups[..i + 1], incremental, force)
         == Conflicts(groups[..i], incremental, force) + ConflictsIn(groups[i], incremental, force)
    ensures forall lookup ::
      CountApplied(groups[..i + 1], incremental, force, lookup)
      == CountApplied(groups[..i], incremental, force, lookup)
       + (if groups[i].lookup == lookup && Applied(groups[i], incremental, force) then 1 else 0)
  {
    assert groups[..i + 1][..i] == groups[..i];
  }

  /** Success is reported exactly if there is no conflict to report; the
      operations are the groups updated and created, at most one a client group,
      and the presets; and the conflicts are those of each group in turn. */
  method SyncConfiguration(groups: seq<Group>, presets: nat, presetsWritten: bool, incremental: bool, force: bool)
    returns (r: Response)
    ensures r.success <==> r.conflicts == []
    ensures r.stats.operations == r.stats.updated + r.stats.created + r.stats.presets
    ensures r.stats.updated + r.stats.created <= |groups|
    ensures r.stats.updated == CountApplied(groups, incremental, force, Found)
    ensures r.stats.created == CountApplied(groups, incremental, force, Missing)
    ensures r.stats.presets == if presets > 0 && presetsWritten then 1 else 0
    ensures r.conflicts == Conflicts(groups, incremental, force)
                         + if presets > 0 && !presetsWritten then [PresetsFailed] else []
  {
    var stats := Stats(0, 0, 0, 0);
    var detected, conflicts := false, [];
    for i := 0 to |groups|
      invariant detected <==> conflicts != []
      invariant stats.presets == 0 && stats.operations == stats.updated + stats.created <= i
      invariant stats.updated == CountApplied(groups[..i], incremental, force, Found)
      invariant stats.created == CountApplied(groups[..i], incremental, force, Missing)
      invariant conflicts == Conflicts(groups[..i], incremental, force)
    {
      Unfolds(groups, i, incremental, force);
      stats, conflicts, detected := SyncGroup(groups[i], incremental, force, stats, conflicts, detected);
    }
    assert groups[..|groups|] == groups;
    if presets > 0 {
      if presetsWritten {
        stats := stats.(presets := 1, operations := stats.operations + 1);
      } else {
        conflicts, detected := conflicts + [PresetsFailed], true;
      }
    }
    r := Response(!detected, stats, conflicts);
  }

  // ------------------------------------------ the accounts, group by group

  function IsFalse(): bool -> bool {
    (b: bool) => !b
  }

  /** The failures are the upserts that failed. */
  lemma {:induction false} FailuresExact(watchers: seq<bool>)
    ensures Failures(watchers) == |Places(watchers, IsFalse())|
  {
    if watchers != [] {
      FailuresExact(watchers[..|watchers| - 1]);
      PlacesSnoc(watchers, IsFalse());
    } else {
      assert Places(watchers, IsFalse()) == {};
    }
  }

  function WrittenAs(lookup: Lookup): Group -> bool {
    (g: Group) => g.lookup == lookup && g.written
  }

  /** A full or forced sync counts every found group that was written; an
      incremental one none. Missing groups that were written always count. */
  lemma {:induction false} CountsExact(groups: seq<Group>, incremental: bool, force: bool)
    ensures CountApplied(groups, incremental, force, Found)
         == if force || !incremental then |Places(groups, WrittenAs(Found))| else 0
    ensures CountApplied(groups, incremental, force, Missing) == |Places(groups, WrittenAs(Missing))|
  {
    if groups != [] {
      CountsExact(groups[..|groups| - 1], incremental, force);
      PlacesSnoc(groups, WrittenAs(Found));
      PlacesSnoc(groups, WrittenAs(Missing));
    } else {
      assert Places(groups, WrittenAs(Found)) == {} && Places(groups, WrittenAs(Missing)) == {};
    }
  }

  /** What each group has to answer for, and how often. */
  lemma ConflictsInExact(g: Group, incremental: bool, force: bool)
    ensures var cs := ConflictsIn(g, incremental, force);
      match g.lookup
      case LookupFailed => cs == [CheckFailed(g.id)]
      case Found =>
        if incremental && !force then cs == []
        else if !g.written then cs == [UpdateFailed(g.id)]
        else |cs| == |Places(g.watchers, IsFalse())| && forall c :: c in cs ==> c == WatcherFailed(g.id)
      case Missing =>
        if !g.written then cs == [CreateFailed(g.id)]
        else |cs| == |Places(g.watchers, IsFalse())| && forall c :: c in cs ==> c == WatcherFailed(g.id)
  {
    FailuresExact(g.watchers);
  }

  /** The group was looked up, and if anything was to be written it was. */
  predicate Clean(g: Group, incremental: bool, force: bool) {
    && g.lookup != LookupFailed
    && (g.lookup == Missing || force || !incremental ==>
          g.written && forall i :: 0 <= i < |g.watchers| ==> g.watchers[i])
  }

  lemma {:induction false} NoFailures(watchers: seq<bool>)
    ensures Failures(watchers) == 0 <==> forall i :: 0 <= i < |watchers| ==> watchers[i]
  {
    if watchers != [] {
      NoFailures(watchers[..|watchers| - 1]);
    }
  }

  lemma CleanIff(g: Group, incremental: bool, force: bool)
    ensures ConflictsIn(g, incremental, force) == [] <==> Clean(g, incremental, force)
  {
    NoFailures(g.watchers);
  }

  /** No conflict is reported exactly if everything attempted worked. */
  lemma {:induction false} NoConflictsIff(groups: seq<Group>, incremental: bool, force: bool)
    ensures Conflicts(groups, incremental, force) == [] <==>
      forall g :: g in groups ==> Clean(g, incremental, force)
  {
    if groups != [] {
      var n := |groups| - 1;
      NoConflictsIff(groups[..n], incremental, force);
      CleanIff(groups[n], incremental, force);
      assert groups == groups[..n] + [groups[n]];
    }
  }
}
