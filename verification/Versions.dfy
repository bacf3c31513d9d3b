/** File version history: the filtered history query, and restoring an old
    version on top of an append-only version table. */
module Versions {
  import opened Basics
  import opened FileCache

  datatype Version = Version(
    account: string, path: string, group: int, fileId: nat, revision: int,
    hash: string, device: string, uploaded: int, deleted: bool)

  /** The filter part of a history request. */
  datatype Query = Query(start: Option<int>, end: Option<int>, maxVersions: Option<int>)

  const DEFAULT_LIMIT: nat := 50

  function NotBefore(q: Query): Version -> bool {
    (v: Version) => q.start.Some? ==> v.uploaded >= q.start.value
  }

  function NotAfter(q: Query): Version -> bool {
    (v: Version) => q.end.Some? ==> v.uploaded <= q.end.value
  }

  function InRange(q: Query): Version -> bool {
    (v: Version) => NotBefore(q)(v) && NotAfter(q)(v)
  }

  function Filter(vs: seq<Version>, keep: Version -> bool): seq<Version> {
    if vs == [] then []
    else Filter(vs[..|vs| - 1], keep) + if keep(vs[|vs| - 1]) then [vs[|vs| - 1]] else []
  }

  lemma {:induction false} FilterMembers(vs: seq<Version>, keep: Version -> bool)
    ensures forall v :: v in Filter(vs, keep) <==> v in vs && keep(v)
  {
    if vs != [] {
      FilterMembers(vs[..|vs| - 1], keep);
      assert vs == vs[..|vs| - 1] + [vs[|vs| - 1]];
    }
  }

  lemma {:induction false} FilterSize(vs: seq<Version>, keep: Version -> bool)
    ensures |Filter(vs, keep)| <= |vs|
    ensures |Filter(vs, keep)| == |vs| <==> forall v :: v in vs ==> keep(v)
  {
    if vs != [] {
      FilterSize(vs[..|vs| - 1], keep);
      assert vs == vs[..|vs| - 1] + [vs[|vs| - 1]];
    }
  }

  // ------------------------------------------------------------ stable sort

  predicate NewestFirst(vs: seq<Version>) {
    forall i, j :: 0 <= i < j < |vs| ==> vs[i].revision >= vs[j].revision
  }

  /** Puts a version behind all that are at least as new. */
  function Placed(vs: seq<Version>, v: Version): seq<Version> {
    if vs == [] then [v]
    else if vs[|vs| - 1].revision >= v.revision then vs + [v]
    else Placed(vs[..|vs| - 1], v) + [vs[|vs| - 1]]
  }

  /** The stable sort by descending revision. */
  function Sorted(vs: seq<Version>): seq<Version> {
    if vs == [] then [] else Placed(Sorted(vs[..|vs| - 1]), vs[|vs| - 1])
  }

  function OfRevision(r: int): Version -> bool {
    (v: Version) => v.revision == r
  }

  /** Sorted, and each revision's versions in their old order: that is what a
      stable sort by revision is. */
  ghost predicate StablySorts(sorted: seq<Version>, vs: seq<Version>) {
    NewestFirst(sorted) && forall r :: Filter(sorted, OfRevision(r)) == Filter(vs, OfRevision(r))
  }

  lemma FilterSnoc(vs: seq<Version>, v: Version, keep: Version -> bool)
    ensures Filter(vs + [v], keep) == Filter(vs, keep) + if keep(v) then [v] else []
  {
    assert (vs + [v])[..|vs|] == vs;
  }

  lemma {:induction false} PlacedKeepsOrder(vs: seq<Version>, v: Version)
    requires NewestFirst(vs)
    ensures NewestFirst(Placed(vs, v))
    ensures |Placed(vs, v)| == |vs| + 1
    ensures forall w :: w in Placed(vs, v) ==> w in vs || w == v
  {
    if vs != [] && vs[|vs| - 1].revision < v.revision {
      var rest, last := vs[..|vs| - 1], vs[|vs| - 1];
      PlacedKeepsOrder(rest, v);
      assert forall w :: w in rest ==> w.revision >= last.revision;
      assert forall i :: 0 <= i < |vs| ==> Placed(rest, v)[i] in Placed(rest, v);
    }
  }

  lemma {:induction false} PlacedIsStable(vs: seq<Version>, v: Version, r: int)
    ensures Filter(Placed(vs, v), OfRevision(r)) == Filter(vs + [v], OfRevision(r))
  {
    if vs != [] && vs[|vs| - 1].revision < v.revision {
      var rest, last := vs[..|vs| - 1], vs[|vs| - 1];
      PlacedIsStable(rest, v, r);
      assert vs == rest + [last];
      FilterSnoc(Placed(rest, v), last, OfRevision(r));
      FilterSnoc(rest, v, OfRevision(r));
      FilterSnoc(vs, v, OfRevision(r));
    } else if vs == [] {
      assert vs + [v] == [v];
    }
  }

  lemma {:induction false} SortedIsStable(vs: seq<Version>)
    ensures StablySorts(Sorted(vs), vs) && |Sorted(vs)| == |vs|
  {
    if vs != [] {
      var rest, last := vs[..|vs| - 1], vs[|vs| - 1];
      SortedIsStable(rest);
      PlacedKeepsOrder(Sorted(rest), last);
      assert vs == rest + [last];
      forall r
        ensures Filter(Sorted(vs), OfRevision(r)) == Filter(vs, OfRevision(r))
      {
        PlacedIsStable(Sorted(rest), last, r);
        FilterSnoc(Sorted(rest), last, OfRevision(r));
      }
    }
  }

  /** A stable sort has only one possible outcome. */
  lemma {:induction false} StableSortUnique(a: seq<Version>, b: seq<Version>, vs: seq<Version>)
    requires StablySorts(a, vs) && StablySorts(b, vs)
    ensures a == b
  {
    SameRevisionsSame(a, b);
  }

  lemma SameMembers(a: seq<Version>, b: seq<Version>, v: Version)
    requires forall r :: Filter(a, OfRevision(r)) == Filter(b, OfRevision(r))
    ensures v in a <==> v in b
  {
    FilterMembers(a, OfRevision(v.revision));
    FilterMembers(b, OfRevision(v.revision));
    assert v in Filter(a, OfRevision(v.revision)) <==> v in Filter(b, OfRevision(v.revision));
  }

  lemma {:induction false} SameRevisionsSame(a: seq<Version>, b: seq<Version>)
    requires NewestFirst(a) && NewestFirst(b)
    requires forall r :: Filter(a, OfRevision(r)) == Filter(b, OfRevision(r))
    ensures a == b
  {
    if a == [] {
      if b != [] {
        SameMembers(a, b, b[0]);
      }
    } else {
      SameOldest(a, b);
      var x := a[|a| - 1];
      assert a == a[..|a| - 1] + [x] && b == b[..|b| - 1] + [x];
      forall r
        ensures Filter(a[..|a| - 1], OfRevision(r)) == Filter(b[..|b| - 1], OfRevision(r))
      {
        FilterSnoc(a[..|a| - 1], x, OfRevision(r));
        FilterSnoc(b[..|b| - 1], x, OfRevision(r));
        Unappend(Filter(a[..|a| - 1], OfRevision(r)), Filter(b[..|b| - 1], OfRevision(r)),
                 if OfRevision(r)(x) then [x] else []);
      }
      SameRevisionsSame(a[..|a| - 1], b[..|b| - 1]);
    }
  }

  lemma LastOfItsRevision(vs: seq<Version>, r: int)
    requires vs != [] && vs[|vs| - 1].revision == r
    ensures var f := Filter(vs, OfRevision(r)); f != [] && f[|f| - 1] == vs[|vs| - 1]
  {
  }

  lemma OldestIsLast(vs: seq<Version>, v: Version)
    requires NewestFirst(vs) && v in vs
    ensures vs[|vs| - 1].revision <= v.revision
  {
  }

  lemma SameOldest(a: seq<Version>, b: seq<Version>)
    requires NewestFirst(a) && NewestFirst(b) && a != []
    requires forall r :: Filter(a, OfRevision(r)) == Filter(b, OfRevision(r))
    ensures b != [] && a[|a| - 1] == b[|b| - 1]
  {
    var x := a[|a| - 1];
    SameMembers(a, b, x);
    var y := b[|b| - 1];
    SameMembers(a, b, y);
    OldestIsLast(a, y);
    OldestIsLast(b, x);
    LastOfItsRevision(a, x.revision);
    LastOfItsRevision(b, x.revision);
  }

  lemma Unappend<T>(a: seq<T>, b: seq<T>, suffix: seq<T>)
    requires a + suffix == b + suffix
    ensures a == b
  {
    assert |a| == |b|;
    assert a == (a + suffix)[..|a|] && b == (b + suffix)[..|b|];
  }

  // ---------------------------------------------------------------- the query

  /** How many entries are returned at most; none given means fifty, and a
      limit that is not positive means no limit. */
  function Limit(q: Query, available: nat): nat {
    var wanted := if q.maxVersions.None? then DEFAULT_LIMIT
                  else if q.maxVersions.value > 0 then q.maxVersions.value
                  else available;
    if wanted < available then wanted else available
  }

  function Selection(vs: seq<Version>, q: Query): seq<Version> {
    Sorted(Filter(vs, InRange(q)))
  }

  /** `retain`, as the loop it is. */
  method Retain(vs: seq<Version>, keep: Version -> bool) returns (r: seq<Version>)
    ensures r == Filter(vs, keep)
  {
    r := [];
    for n := 0 to |vs|
      invariant r == Filter(vs[..n], keep)
    {
      assert vs[..n + 1][..n] == vs[..n];
      if keep(vs[n]) {
        r := r + [vs[n]];
      }
    }
    assert vs[..|vs|] == vs;
  }

  lemma {:induction false} FilterTwice(vs: seq<Version>, p: Version -> bool, q: Version -> bool, both: Version -> bool)
    requires forall v :: both(v) <==> p(v) && q(v)
    ensures Filter(Filter(vs, p), q) == Filter(vs, both)
  {
    if vs != [] {
      var rest, last := vs[..|vs| - 1], vs[|vs| - 1];
      FilterTwice(rest, p, q, both);
      if p(last) {
        FilterSnoc(Filter(rest, p), last, q);
      } else {
        assert Filter(vs, p) == Filter(rest, p);
      }
    }
  }

  lemma {:induction false} FilterAll(vs: seq<Version>, keep: Version -> bool)
    requires forall v :: keep(v)
    ensures Filter(vs, keep) == vs
  {
    if vs != [] {
      FilterAll(vs[..|vs| - 1], keep);
    }
  }

  method ApplyHistoryFilters(files: seq<Version>, q: Query) returns (r: seq<Version>)
    ensures var all := Selection(files, q); r == all[..Limit(q, |all|)]
  {
    r := files;
    if q.start.Some? {
      r := Retain(r, NotBefore(q));
    } else {
      FilterAll(files, NotBefore(q));
    }
    ghost var started := r;
    if q.end.Some? {
      r := Retain(r, NotAfter(q));
    } else {
      FilterAll(started, NotAfter(q));
    }
    FilterTwice(files, NotBefore(q), NotAfter(q), InRange(q));
    r := Sorted(r);
    if q.maxVersions.Some? {
      if q.maxVersions.value > 0 {
        r := if q.maxVersions.value < |r| then r[..q.maxVersions.value] else r;
      }
    } else {
      r := if DEFAULT_LIMIT < |r| then r[..DEFAULT_LIMIT] else r;
    }
  }

  /** Uploaded within the requested times, both ends included. */
  predicate Requested(q: Query, v: Version) {
    (q.start.Some? ==> q.start.value <= v.uploaded) && (q.end.Some? ==> v.uploaded <= q.end.value)
  }

  lemma InRangeExact(q: Query, v: Version)
    ensures InRange(q)(v) <==> Requested(q, v)
  {
    assert NotBefore(q)(v) <==> (q.start.Some? ==> v.uploaded >= q.start.value);
    assert NotAfter(q)(v) <==> (q.end.Some? ==> v.uploaded <= q.end.value);
  }

  /** How many of the versions come back: as many as asked for, 50 if nothing is
      said, all if the number is not positive. */
  lemma LimitExact(q: Query, n: nat)
    ensures q.maxVersions.None? ==> Limit(q, n) == if n < 50 then n else 50
    ensures q.maxVersions.Some? && q.maxVersions.value > 0 ==>
      Limit(q, n) == if n < q.maxVersions.value then n else q.maxVersions.value
    ensures q.maxVersions.Some? && q.maxVersions.value <= 0 ==> Limit(q, n) == n
  {
  }

  /** What a history answer holds, said without the algorithm: only versions
      uploaded in the requested times, newest first, those of one revision in
      their old order, and none that is left out is newer than one that is kept. */
  lemma SelectionIsNewest(files: seq<Version>, q: Query)
    ensures var all := Selection(files, q);
      var kept := all[..Limit(q, |all|)];
      && StablySorts(all, Filter(files, InRange(q)))
      && NewestFirst(kept)
      && (forall v :: v in kept ==> v in files && Requested(q, v))
      && (forall v :: v in all <==> v in files && Requested(q, v))
      && (forall v, w :: v in kept && w in all[|kept|..] ==> v.revision >= w.revision)
  {
    var chosen := Filter(files, InRange(q));
    var all := Selection(files, q);
    SortedIsStable(chosen);
    FilterMembers(files, InRange(q));
    forall v
      ensures v in all <==> v in files && Requested(q, v)
    {
      SameMembers(all, chosen, v);
      InRangeExact(q, v);
    }
    assert forall v :: v in all[..Limit(q, |all|)] ==> v in all;
  }

  /** Fewer versions come back than there are exactly if the limit cut some off
      or some are out of range. */
  lemma HasMoreIff(files: seq<Version>, q: Query)
    ensures var all := Selection(files, q);
      Limit(q, |all|) < |files| <==> |all| > Limit(q, |all|) || exists v :: v in files && !Requested(q, v)
  {
    SortedIsStable(Filter(files, InRange(q)));
    FilterSize(files, InRange(q));
    forall v | v in files
      ensures InRange(q)(v) <==> Requested(q, v)
    {
      InRangeExact(q, v);
    }
  }

  /** A history is the rows of one account, path and group, in table order. */
  lemma {:induction false} HistoryExact(table: seq<Version>, account: string, path: string, group: int)
    ensures var history := HistoryOf(table, account, path, group);
      forall v :: v in history <==> v in table && v.account == account && v.path == path && v.group == group
    ensures table != [] ==>
      var n := |table| - 1;
      HistoryOf(table, account, path, group)
      == HistoryOf(table[..n], account, path, group)
       + if table[n].account == account && table[n].path == path && table[n].group == group then [table[n]] else []
  {
    FilterMembers(table, SamePath(account, path, group));
  }

  datatype HistoryResponse =
    | HistoryResponse(success: bool, versions: seq<Version>, total: nat, hasMore: bool)
    | HistoryUnavailable        // the lookup failed

  function HistoryOf(table: seq<Version>, account: string, path: string, group: int): seq<Version> {
    Filter(table, SamePath(account, path, group))
  }

  function SamePath(account: string, path: string, group: int): Version -> bool {
    (v: Version) => v.account == account && v.path == path && v.group == group
  }

  predicate IsRevision(v: Version, account: string, fileId: nat, revision: int) {
    v.account == account && v.fileId == fileId && v.revision == revision
  }

  // ----------------------------------------------------------------- service

  datatype RestoreAnswer = Restored(revision: int) | Refused | Failed

  /** The version table in front of the file service. */
  class VersionService {
    const files: FileService
    var table: seq<Version>

    constructor (files: FileService)
      ensures this.files == files && table == []
    {
      this.files, table := files, [];
    }

    method GetFileHistory(account: string, path: string, group: int, q: Query, lookupOk: bool)
      returns (r: HistoryResponse)
      ensures account == "" || path == "" ==> r == HistoryResponse(false, [], 0, false)
      ensures account != "" && path != "" && !lookupOk ==> r == HistoryUnavailable
      ensures account != "" && path != "" && lookupOk ==>
        var history := HistoryOf(table, account, path, group);
        var all := Selection(history, q);
        r == HistoryResponse(true, all[..Limit(q, |all|)], |history|, Limit(q, |all|) < |history|)
    {
      if account == "" || path == "" {
        return HistoryResponse(false, [], 0, false);
      }
      if !lookupOk {
        return HistoryUnavailable;
      }
      var history := HistoryOf(table, account, path, group);
      var versions := ApplyHistoryFilters(history, q);
      r := HistoryResponse(true, versions, |history|, |versions| < |history|);
    }

    /** Any row with that account, file and revision. */
    method FindRevision(account: string, fileId: nat, revision: int) returns (r: Option<Version>)
      ensures r.Some? ==> r.value in table && IsRevision(r.value, account, fileId, revision)
      ensures r.None? ==> forall v :: v in table ==> !IsRevision(v, account, fileId, revision)
    {
      for n := 0 to |table|
        invariant forall i :: 0 <= i < n ==> !IsRevision(table[i], account, fileId, revision)
      {
        var v := table[n];
        if IsRevision(v, account, fileId, revision) {
          return Some(v);
        }
      }
      r := None;
    }

    method MaxRevision(history: seq<Version>) returns (m: int)
      ensures forall v :: v in history ==> v.revision <= m
      ensures if history == [] then m == 0 else exists v :: v in history && v.revision == m
    {
      m := 0;
      for n := 0 to |history|
        invariant forall i :: 0 <= i < n ==> history[i].revision <= m
        invariant if n == 0 then m == 0 else exists i :: 0 <= i < n && history[i].revision == m
      {
        if n == 0 || history[n].revision > m {
          m := history[n].revision;
        }
      }
    }

    /** Restoring: copy the data first, then append one new version. */
    method RestoreFileVersion(account: string, fileId: nat, target: int, device: string, now: int,
                              copyOk: bool, insertOk: bool)
      returns (r: RestoreAnswer)
      requires files.Coherent()
      modifies this`table, files
      ensures files.Coherent() && files.backing == old(files.backing)
      ensures !r.Restored? ==> table == old(table)
      ensures r.Restored? ==>
        && |table| == |old(table)| + 1 && old(table) <= table
        && Appended(old(table), table[|old(table)|], target, device)
        && table[|old(table)|].account == account && table[|old(table)|].fileId == fileId
        && table[|old(table)|].revision == r.revision && table[|old(table)|].uploaded == now
      ensures r.Restored? ==> fileId in old(files.backing).data
    {
      if account == "" || fileId == 0 {
        return Refused;
      }
      var found := FindRevision(account, fileId, target);
      if found.None? {
        return Failed;
      }
      var v := found.value;
      var history := HistoryOf(table, account, v.path, v.group);
      FilterMembers(table, SamePath(account, v.path, v.group));
      var top := MaxRevision(history);
      var restored := v.(revision := top + 1, device := device, uploaded := now, deleted := false);
      RestoreOntoItself(files.backing, fileId, copyOk);
      var copied := files.RestoreVersion(v.fileId, restored.fileId, copyOk);
      if copied != Done {
        return Failed;
      }
      if !insertOk {
        return Failed;
      }
      table := table + [restored];
      r := Restored(restored.revision);
    }

    /** One event of a run; uploads write bytes and record versions. */
    method Take(e: Event)
      requires files.Coherent()
      modifies this`table, files
      ensures files.Coherent() && files.backing == PlainRun(old(files.backing), Writes([e])).0
      ensures old(table) <= table && |table| <= |old(table)| + 1
      ensures |table| > |old(table)| ==> Accounted(old(table), table[|old(table)|], e)
    {
      match e
      case Restoring(q) =>
        var _ := RestoreFileVersion(q.account, q.fileId, q.target, q.device, q.now, q.copyOk, q.insertOk);
      case Recording(v) =>
        table := table + [v];
      case Writing(op) =>
        assert [op][..0] == [];
        var _ := files.Perform(op);
    }

    /** Any run of restores, with uploads between them: the bytes are what the
        uploads alone make them, no existing version changes, and each version
        that is added was recorded by an upload, or was a proper restore when it
        was added. */
    method TakeAll(events: seq<Event>)
      requires files.Coherent()
      modifies this`table, files
      ensures files.Coherent() && files.backing == PlainRun(old(files.backing), Writes(events)).0
      ensures old(table) <= table && |table| <= |old(table)| + |events|
      ensures AllProper(old(table), table, events)
    {
      ghost var was, bytes := table, files.backing;
      for n := 0 to |events|
        invariant files.Coherent() && files.backing == PlainRun(bytes, Writes(events[..n])).0
        invariant was <= table && |table| <= |was| + n
        invariant AllProper(was, table, events)
      {
        ghost var before := table;
        Take(events[n]);
        WritesOne(bytes, events, n);
        StillProper(was, before, table, events, events[n]);
      }
      assert events[..|events|] == events;
    }
  }

  datatype RestoreRequest = RestoreRequest(
    account: string, fileId: nat, target: int, device: string, now: int, copyOk: bool, insertOk: bool)

  /** What befalls the version table and the bytes. */
  datatype Event = Restoring(q: RestoreRequest) | Recording(v: Version) | Writing(op: Op)

  /** The writes among the events, without the restores. */
  function Writes(events: seq<Event>): seq<Op> {
    if events == [] then []
    else
      var last := events[|events| - 1];
      Writes(events[..|events| - 1]) + if last.Writing? then [last.op] else []
  }

  lemma WritesOne(b: Backing, events: seq<Event>, n: nat)
    requires n < |events|
    ensures PlainRun(b, Writes(events[..n + 1])).0
         == PlainRun(PlainRun(b, Writes(events[..n])).0, Writes([events[n]])).0
  {
    var before, e := Writes(events[..n]), events[n];
    assert events[..n + 1][..n] == events[..n] && [e][..0] == [];
    if e.Writing? {
      assert (before + [e.op])[..|before|] == before && [e.op][..0] == [];
      assert Writes([e]) == [e.op];
    } else {
      assert Writes(events[..n + 1]) == before && Writes([e]) == [];
    }
  }

  /** A version added by an event: recorded by it, or properly restored. */
  ghost predicate Accounted(table: seq<Version>, v: Version, e: Event) {
    match e
    case Restoring(q) => v.account == q.account && v.fileId == q.fileId && Appended(table, v, q.target, q.device)
    case Recording(w) => v == w
    case Writing(_) => false
  }

  ghost predicate ProperlyAdded(table: seq<Version>, i: nat, events: seq<Event>)
    requires i < |table|
  {
    exists e :: e in events && Accounted(table[..i], table[i], e)
  }

  ghost predicate AllProper(was: seq<Version>, table: seq<Version>, events: seq<Event>) {
    forall i :: |was| <= i < |table| ==> ProperlyAdded(table, i, events)
  }

  lemma StillProper(was: seq<Version>, before: seq<Version>, table: seq<Version>, events: seq<Event>, e: Event)
    requires AllProper(was, before, events) && before <= table && |table| <= |before| + 1 && e in events
    requires |table| > |before| ==> Accounted(before, table[|before|], e)
    ensures AllProper(was, table, events)
  {
    forall i | |was| <= i < |table|
      ensures ProperlyAdded(table, i, events)
    {
      if i < |before| {
        assert ProperlyAdded(before, i, events) && table[..i] == before[..i] && table[i] == before[i];
      } else {
        assert table[..i] == before;
      }
    }
  }

  /** A proper new version: undeleted, carrying the content hash of the target
      revision of its file, and one above the highest revision its path has. */
  ghost predicate Appended(table: seq<Version>, v: Version, target: int, device: string) {
    && !v.deleted && v.device == device
    && (exists t :: t in table && t.account == v.account && t.fileId == v.fileId && t.revision == target
                    && t.hash == v.hash && t.path == v.path && t.group == v.group)
    && (forall w :: w in table && w.account == v.account && w.path == v.path && w.group == v.group ==>
          w.revision < v.revision)
    && (exists w :: w in table && w.account == v.account && w.path == v.path && w.group == v.group
                    && w.revision == v.revision - 1)
  }
}
