/** The initial file sync a subscriber gets: gather the eligible records of all
    the account's groups, then push them through the subscriber's channel in
    batches, then move the device's watermark. */
module InitialSync {
  import opened Basics
  import opened SubscriberKeys

  const BATCH_SIZE: nat := 50
  const CHANNEL_CAPACITY: nat := 1024
  const TICKS_PER_SECOND: nat := 1_000_000_000

  /** Stored file metadata; `stamp` is `updated_time.seconds`. */
  datatype File = File(id: nat, account: string, device: string, group: int, stamp: int, revision: int, path: string)

  /** Whole seconds of a clock reading in nanoseconds (`timestamp()`). */
  function Sec(tick: nat): nat {
    tick / TICKS_PER_SECOND
  }

  lemma SecExact(tick: nat)
    ensures Sec(tick) * 1_000_000_000 <= tick < (Sec(tick) + 1) * 1_000_000_000
  {
  }

  /** `since_ts.unwrap_or(0).max(stored)`. */
  function EffectiveSince(since: Option<int>, stored: int): int {
    Max(if since.Some? then since.value else 0, stored)
  }

  // ---------------------------------------------------------------- delivery

  /** Progress of the delivery loops: next index, what was sent, how many were
      skipped as the device's own, and the running maximum time. */
  datatype Cursor = Cursor(pos: nat, sent: seq<File>, skipped: nat, maxTs: int)

  function BatchEnd(pos: nat, n: nat): (e: nat)
    requires pos < n
    ensures pos < e <= n
  {
    var next := (pos / BATCH_SIZE + 1) * BATCH_SIZE;
    if next < n then next else n
  }

  /** One file: skip it, send it, or (failed send, no subscriber) give up on
      the rest of its batch. */
  function CursorStep(files: seq<File>, device: string, c: Cursor, ok: bool): (r: Cursor)
    requires c.pos < |files|
    ensures c.pos < r.pos <= |files|
  {
    var f := files[c.pos];
    if f.device == device then c.(pos := c.pos + 1, skipped := c.skipped + 1)
    else if ok then Cursor(c.pos + 1, c.sent + [f], c.skipped, Max(c.maxTs, f.stamp))
    else c.(pos := BatchEnd(c.pos, |files|))
  }

  /** A send on a full channel never returns: nobody drains it yet. */
  predicate Blocks(files: seq<File>, device: string, c: Cursor, ok: bool, room: nat)
    requires c.pos < |files|
  {
    files[c.pos].device != device && ok && |c.sent| >= room
  }

  /** All the steps, up to the end of the list or to a blocked send. */
  function Drain(files: seq<File>, device: string, c: Cursor, ok: nat -> bool, room: nat): (r: Cursor)
    requires c.pos <= |files|
    ensures r.pos <= |files|
    decreases |files| - c.pos
  {
    if c.pos == |files| || Blocks(files, device, c, ok(c.pos), room) then c
    else Drain(files, device, CursorStep(files, device, c, ok(c.pos)), ok, room)
  }

  function Start(since: int): Cursor {
    Cursor(0, [], 0, since)
  }

  predicate AtBatch(pos: nat) {
    pos % BATCH_SIZE == 0
  }

  lemma BatchEndOf(batchStart: nat, i: nat, n: nat)
    requires AtBatch(batchStart) && batchStart <= i < n && i < batchStart + BATCH_SIZE
    ensures BatchEnd(i, n) == if batchStart + BATCH_SIZE < n then batchStart + BATCH_SIZE else n
  {
    assert i / BATCH_SIZE == batchStart / BATCH_SIZE;
  }

  lemma WholeBatch(start: nat, n: nat)
    requires AtBatch(start) && start < n
    ensures var end := if start + BATCH_SIZE < n then start + BATCH_SIZE else n;
      (AtBatch(end) || end == n) && forall i :: start <= i < end ==> BatchEnd(i, n) == end
  {
    var end := if start + BATCH_SIZE < n then start + BATCH_SIZE else n;
    forall i | start <= i < end
      ensures BatchEnd(i, n) == end
    {
      BatchEndOf(start, i, n);
    }
  }

  /** One batch: stops early at a failed send, or hangs (`!returned`). */
  method DeliverBatch(files: seq<File>, device: string, start: Cursor, batchEnd: nat, ok: nat -> bool, room: nat)
    returns (c: Cursor, returned: bool)
    requires start.pos < batchEnd <= |files|
    requires forall i :: start.pos <= i < batchEnd ==> BatchEnd(i, |files|) == batchEnd
    ensures c.pos <= |files| && Drain(files, device, c, ok, room) == Drain(files, device, start, ok, room)
    ensures if returned then c.pos == batchEnd else Drain(files, device, c, ok, room) == c
  {
    c := start;
    while c.pos < batchEnd
      invariant start.pos <= c.pos <= batchEnd
      invariant Drain(files, device, c, ok, room) == Drain(files, device, start, ok, room)
    {
      var f := files[c.pos];
      if f.device == device {
        c := c.(pos := c.pos + 1, skipped := c.skipped + 1);
      } else if !ok(c.pos) {
        c := c.(pos := batchEnd);
        break;
      } else if |c.sent| >= room {
        return c, false;
      } else {
        c := Cursor(c.pos + 1, c.sent + [f], c.skipped, if f.stamp > c.maxTs then f.stamp else c.maxTs);
      }
    }
    returned := true;
  }

  method DeliverFiles(files: seq<File>, device: string, since: int, ok: nat -> bool, room: nat) returns (c: Cursor)
    ensures c == Drain(files, device, Start(since), ok, room)
  {
    c := Start(since);
    while c.pos < |files|
      invariant c.pos <= |files|
      invariant AtBatch(c.pos) || c.pos == |files|
      invariant Drain(files, device, c, ok, room) == Drain(files, device, Start(since), ok, room)
    {
      var batchEnd := if c.pos + BATCH_SIZE < |files| then c.pos + BATCH_SIZE else |files|;
      WholeBatch(c.pos, |files|);
      var returned;
      c, returned := DeliverBatch(files, device, c, batchEnd, ok, room);
      if !returned {
        return;
      }
    }
  }

  // ------------------------------------------------- what delivery amounts to

  /** The files uploaded from elsewhere, in listing order. */
  function Others(files: seq<File>, device: string): (r: seq<File>)
    ensures |r| <= |files|
  {
    if files == [] then []
    else (if files[0].device == device then [] else [files[0]]) + Others(files[1..], device)
  }

  lemma {:induction false} OthersMembers(files: seq<File>, device: string)
    ensures forall f :: f in Others(files, device) <==> f in files && f.device != device
  {
    if files != [] {
      OthersMembers(files[1..], device);
    }
  }

  function MaxStamp(files: seq<File>, base: int): int {
    if files == [] then base else MaxStamp(files[1..], Max(base, files[0].stamp))
  }

  lemma {:induction false} MaxStampIsMaximum(files: seq<File>, base: int)
    ensures base <= MaxStamp(files, base) && forall f :: f in files ==> f.stamp <= MaxStamp(files, base)
    ensures MaxStamp(files, base) == base || exists f :: f in files && f.stamp == MaxStamp(files, base)
  {
    if files != [] {
      MaxStampIsMaximum(files[1..], Max(base, files[0].stamp));
    }
  }

  ghost predicate Subsequence<T>(a: seq<T>, b: seq<T>) {
    a == [] || (b != [] && ((a[0] == b[0] && Subsequence(a[1..], b[1..])) || Subsequence(a, b[1..])))
  }

  lemma OthersStep(files: seq<File>, device: string, pos: nat)
    requires pos < |files|
    ensures Others(files[pos..], device)
         == (if files[pos].device == device then [] else [files[pos]]) + Others(files[pos + 1..], device)
  {
    assert files[pos..][1..] == files[pos + 1..];
  }

  /** If every send succeeds and the channel has room for all the others,
      exactly they are sent, in order, and the counts add up. */
  lemma {:induction false} DrainSendsAll(files: seq<File>, device: string, c: Cursor, ok: nat -> bool, room: nat)
    requires c.pos <= |files| && forall i :: ok(i)
    requires |c.sent| + |Others(files[c.pos..], device)| <= room
    ensures
      var rest := Others(files[c.pos..], device);
      Drain(files, device, c, ok, room)
      == Cursor(|files|, c.sent + rest, c.skipped + |files| - c.pos - |rest|, MaxStamp(rest, c.maxTs))
    decreases |files| - c.pos
  {
    if c.pos == |files| {
      assert c.sent + [] == c.sent;
    } else {
      var f, rest := files[c.pos], Others(files[c.pos + 1..], device);
      var next := CursorStep(files, device, c, ok(c.pos));
      OthersStep(files, device, c.pos);
      DrainSendsAll(files, device, next, ok, room);
      assert Drain(files, device, c, ok, room) == Drain(files, device, next, ok, room);
      if f.device == device {
        assert Others(files[c.pos..], device) == rest;
      } else {
        ConsLaws(c.sent, f, rest, c.maxTs);
      }
    }
  }

  lemma ConsLaws(sent: seq<File>, f: File, rest: seq<File>, base: int)
    ensures sent + ([f] + rest) == sent + [f] + rest
    ensures MaxStamp([f] + rest, base) == MaxStamp(rest, Max(base, f.stamp))
  {
    assert ([f] + rest)[1..] == rest;
  }

  /** If every send succeeds and there is too little room, the loop hangs. */
  lemma {:induction false} DrainHangs(files: seq<File>, device: string, c: Cursor, ok: nat -> bool, room: nat)
    requires c.pos <= |files| && forall i :: ok(i)
    requires |c.sent| <= room < |c.sent| + |Others(files[c.pos..], device)|
    ensures Drain(files, device, c, ok, room).pos < |files|
    decreases |files| - c.pos
  {
    OthersStep(files, device, c.pos);
    if !Blocks(files, device, c, ok(c.pos), room) {
      DrainHangs(files, device, CursorStep(files, device, c, ok(c.pos)), ok, room);
    }
  }

  lemma {:induction false} SubsequenceOfLonger<T>(a: seq<T>, b: seq<T>, k: nat)
    requires k <= |b| && Subsequence(a, b[k..])
    ensures Subsequence(a, b)
  {
    if k > 0 && a != [] {
      assert b[1..][k - 1..] == b[k..];
      SubsequenceOfLonger(a, b[1..], k - 1);
    }
  }

  /** What a delivery from `c` to `r` may have done, whatever failed: it sent a
      subsequence of the files passed over, none of them the device's own, and
      its counts never exceed the number of files passed over. */
  ghost predicate Progress(files: seq<File>, device: string, c: Cursor, r: Cursor)
    requires c.pos <= |files|
  {
    && c.pos <= r.pos <= |files|
    && c.sent <= r.sent
    && Subsequence(r.sent[|c.sent|..], files[c.pos..])
    && (forall f :: f in r.sent[|c.sent|..] ==> f.device != device)
    && |r.sent| - |c.sent| + r.skipped - c.skipped <= r.pos - c.pos
    && c.skipped <= r.skipped
    && r.maxTs == MaxStamp(r.sent[|c.sent|..], c.maxTs)
  }

  lemma ProgressStep(files: seq<File>, device: string, c: Cursor, ok: bool, r: Cursor)
    requires c.pos < |files|
    requires Progress(files, device, CursorStep(files, device, c, ok), r)
    ensures Progress(files, device, c, r)
  {
    var next := CursorStep(files, device, c, ok);
    var tail := files[c.pos..];
    assert tail[next.pos - c.pos..] == files[next.pos..];
    if |next.sent| == |c.sent| {
      SubsequenceOfLonger(r.sent[|c.sent|..], tail, next.pos - c.pos);
    } else {
      var more := r.sent[|next.sent|..];
      assert r.sent[..|next.sent|] == next.sent;
      assert r.sent[|c.sent|..] == [tail[0]] + more;
      assert ([tail[0]] + more)[1..] == more;
      assert c.sent <= r.sent;
    }
  }

  lemma {:induction false} DrainWithFailures(files: seq<File>, device: string, c: Cursor, ok: nat -> bool, room: nat)
    requires c.pos <= |files|
    ensures Progress(files, device, c, Drain(files, device, c, ok, room))
    decreases |files| - c.pos
  {
    if c.pos < |files| && !Blocks(files, device, c, ok(c.pos), room) {
      var next := CursorStep(files, device, c, ok(c.pos));
      DrainWithFailures(files, device, next, ok, room);
      ProgressStep(files, device, c, ok(c.pos), Drain(files, device, next, ok, room));
    }
  }

  // -------------------------------------------- exactly what failures cost

  /** No send of the file's batch has failed before it. */
  predicate Clear(files: seq<File>, device: string, ok: nat -> bool, i: nat)
    requires i < |files|
  {
    forall j :: i / 50 * 50 <= j < i ==> files[j].device == device || ok(j)
  }

  function ClearAt(files: seq<File>, device: string, ok: nat -> bool): nat -> bool {
    (i: nat) => i < |files| && Clear(files, device, ok, i)
  }

  /** The files sent from an index on: those of other devices whose own send and
      all before it in the batch of 50 (`clear`) succeed. */
  function Picked(files: seq<File>, device: string, ok: nat -> bool, clear: nat -> bool, from: nat): seq<File>
    requires from <= |files|
    decreases |files| - from
  {
    if from == |files| then []
    else
      (if files[from].device != device && ok(from) && clear(from) then [files[from]] else [])
      + Picked(files, device, ok, clear, from + 1)
  }

  /** The device's own files met before a failure in their batch. */
  function Passed(files: seq<File>, device: string, clear: nat -> bool, from: nat): nat
    requires from <= |files|
    decreases |files| - from
  {
    if from == |files| then 0
    else (if files[from].device == device && clear(from) then 1 else 0) + Passed(files, device, clear, from + 1)
  }

  lemma {:induction false} NothingPicked(files: seq<File>, device: string, ok: nat -> bool, clear: nat -> bool,
                                         from: nat, to: nat)
    requires from <= to <= |files| && forall i :: from <= i < to ==> !clear(i)
    ensures Picked(files, device, ok, clear, from) == Picked(files, device, ok, clear, to)
    ensures Passed(files, device, clear, from) == Passed(files, device, clear, to)
    decreases |files| - from
  {
    if from < to {
      NothingPicked(files, device, ok, clear, from + 1, to);
    }
  }

  lemma BatchEndExact(pos: nat, n: nat)
    requires pos < n
    ensures BatchEnd(pos, n) == n || BatchEnd(pos, n) % 50 == 0
    ensures forall i :: pos < i < BatchEnd(pos, n) ==> i / 50 * 50 <= pos
  {
  }

  lemma FailureClearsNothing(files: seq<File>, device: string, ok: nat -> bool, pos: nat)
    requires pos < |files| && files[pos].device != device && !ok(pos)
    ensures forall i :: pos < i < BatchEnd(pos, |files|) ==> !ClearAt(files, device, ok)(i)
  {
    BatchEndExact(pos, |files|);
  }

  lemma ClearNext(files: seq<File>, device: string, ok: nat -> bool, pos: nat)
    requires pos + 1 < |files| && Clear(files, device, ok, pos) && (files[pos].device == device || ok(pos))
    ensures Clear(files, device, ok, pos + 1)
  {
    assert (pos + 1) / 50 * 50 <= pos ==> (pos + 1) / 50 * 50 == pos / 50 * 50;
  }

  lemma BatchStartsClear(files: seq<File>, device: string, ok: nat -> bool, pos: nat)
    requires pos < |files| && BatchEnd(pos, |files|) < |files|
    ensures Clear(files, device, ok, BatchEnd(pos, |files|))
  {
    BatchEndExact(pos, |files|);
  }

  /** What is sent and skipped so far, and what will be from here on. */
  ghost predicate SameOutcome(files: seq<File>, device: string, ok: nat -> bool, clear: nat -> bool,
                              c: Cursor, d: Cursor)
    requires c.pos <= |files| && d.pos <= |files|
  {
    && d.sent + Picked(files, device, ok, clear, d.pos) == c.sent + Picked(files, device, ok, clear, c.pos)
    && d.skipped + Passed(files, device, clear, d.pos) == c.skipped + Passed(files, device, clear, c.pos)
  }

  lemma FailureStep(files: seq<File>, device: string, c: Cursor, ok: nat -> bool, clear: nat -> bool)
    requires c.pos < |files| && files[c.pos].device != device && !ok(c.pos)
    requires forall i :: c.pos < i < BatchEnd(c.pos, |files|) ==> !clear(i)
    ensures SameOutcome(files, device, ok, clear, c, CursorStep(files, device, c, ok(c.pos)))
  {
    NothingPicked(files, device, ok, clear, c.pos + 1, BatchEnd(c.pos, |files|));
  }

  lemma SuccessStep(files: seq<File>, device: string, c: Cursor, ok: nat -> bool, clear: nat -> bool)
    requires c.pos < |files| && (files[c.pos].device == device || ok(c.pos)) && clear(c.pos)
    ensures SameOutcome(files, device, ok, clear, c, CursorStep(files, device, c, ok(c.pos)))
  {
    if files[c.pos].device != device {
      ConsLaws(c.sent, files[c.pos], Picked(files, device, ok, clear, c.pos + 1), c.maxTs);
    }
  }

  /** With room for all, and any sends failing: exactly these files are sent, in
      order, and the count of skipped files is exact too. */
  lemma {:induction false} DrainExact(files: seq<File>, device: string, c: Cursor, ok: nat -> bool, room: nat)
    requires c.pos <= |files| && |c.sent| + |files| - c.pos <= room
    requires c.pos < |files| ==> Clear(files, device, ok, c.pos)
    ensures var r := Drain(files, device, c, ok, room);
      && r.pos == |files| && r.sent == c.sent + Picked(files, device, ok, ClearAt(files, device, ok), c.pos)
      && r.skipped == c.skipped + Passed(files, device, ClearAt(files, device, ok), c.pos)
    decreases |files| - c.pos
  {
    if c.pos < |files| {
      var next, clear := CursorStep(files, device, c, ok(c.pos)), ClearAt(files, device, ok);
      if files[c.pos].device == device || ok(c.pos) {
        SuccessStep(files, device, c, ok, clear);
        if next.pos < |files| {
          ClearNext(files, device, ok, c.pos);
        }
      } else {
        FailureClearsNothing(files, device, ok, c.pos);
        FailureStep(files, device, c, ok, clear);
        if next.pos < |files| {
          BatchStartsClear(files, device, ok, c.pos);
        }
      }
      DrainExact(files, device, next, ok, room);
    }
  }

  // -------------------------------------------------------------- the service

  predicate Listed(f: File, account: string, group: int, from: int) {
    f.account == account && f.group == group && f.stamp >= from
  }

  predicate KeyedById(files: map<nat, File>) {
    forall id :: id in files ==> files[id].id == id
  }

  function Listing(files: map<nat, File>, account: string, group: int, from: int): set<File> {
    set id | id in files && Listed(files[id], account, group, from) :: files[id]
  }

  function GroupsOf(groups: map<int, string>, account: string): set<int> {
    set g | g in groups && groups[g] == account
  }

  /** Everything the initial sync looks at. */
  function Gathered(files: map<nat, File>, groups: map<int, string>, account: string, from: int): set<File> {
    set id | id in files
             && files[id].group in GroupsOf(groups, account)
             && Listed(files[id], account, files[id].group, from) :: files[id]
  }

  class SyncService {
    var files: map<nat, File>
    var groups: map<int, string>   // group id -> owning account
    var devices: map<Dev, nat>     // device -> last_sync clock reading

    ghost predicate Valid()
      reads this
    {
      KeyedById(files)
    }

    constructor ()
      ensures Valid() && files == map[] && groups == map[] && devices == map[]
    {
      files, groups, devices := map[], map[], map[];
    }

    method ListFiles(account: string, group: int, from: int) returns (r: seq<File>)
      requires Valid()
      ensures Enumerates(r, Listing(files, account, group, from))
    {
      r := [];
      var todo := files.Keys;
      while todo != {}
        invariant todo <= files.Keys
        invariant forall f :: f in r <==>
          f.id in files && f.id !in todo && files[f.id] == f && Listed(f, account, group, from)
        invariant Distinct(r)
        decreases |todo|
      {
        var id := Pick(todo);
        todo := todo - {id};
        if Listed(files[id], account, group, from) {
          r := r + [files[id]];
        }
      }
    }

    method WatcherGroups(account: string) returns (r: seq<int>)
      ensures Enumerates(r, GroupsOf(groups, account))
    {
      r := [];
      var todo := groups.Keys;
      while todo != {}
        invariant todo <= groups.Keys
        invariant forall g :: g in r <==> g in groups && g !in todo && groups[g] == account
        invariant Distinct(r)
        decreases |todo|
      {
        var g := Pick(todo);
        todo := todo - {g};
        if groups[g] == account {
          r := r + [g];
        }
      }
    }

    method Gather(account: string, from: int) returns (r: seq<File>)
      requires Valid()
      ensures Enumerates(r, Gathered(files, groups, account, from))
    {
      var gs := WatcherGroups(account);
      r := [];
      for n := 0 to |gs|
        invariant forall f :: f in r <==> f.group in gs[..n] && f in Listing(files, account, f.group, from)
        invariant Distinct(r)
      {
        var fs := ListFiles(account, gs[n], from);
        assert gs[..n + 1] == gs[..n] + [gs[n]];
        assert gs[n] !in gs[..n];
        DistinctConcat(r, fs);
        r := r + fs;
      }
      assert gs[..|gs|] == gs;
    }

    /** The whole initial sync with nothing interleaved. A send that finds the
        channel full hangs, which is `!finished`; the watermark then stays. */
    method SendInitialFileSync(d: Dev, since: Option<int>, ok: nat -> bool, queued: nat, now: nat)
      returns (listing: seq<File>, c: Cursor, finished: bool)
      requires Valid() && queued <= CHANNEL_CAPACITY
      modifies this`devices
      ensures
        var stored := if d in old(devices) then Sec(old(devices)[d]) else 0;
        var from := EffectiveSince(since, stored);
        && Enumerates(listing, Gathered(files, groups, d.account, from))
        && c == Drain(listing, d.device, Start(from), ok, CHANNEL_CAPACITY - queued)
        && finished == (c.pos == |listing|)
        && devices == (if finished && c.maxTs > stored && d in old(devices)
                       then old(devices)[d := now] else old(devices))
    {
      var stored := if d in devices then Sec(devices[d]) else 0;
      var from := EffectiveSince(since, stored);
      listing := Gather(d.account, from);
      c := DeliverFiles(listing, d.device, from, ok, CHANNEL_CAPACITY - queued);
      finished := c.pos == |listing|;
      if finished && c.maxTs > stored && d in devices {
        devices := devices[d := now];
      }
    }
  }

  /** The eligible records: in the account's groups, recent enough, not the device's own. */
  function Eligible(files: map<nat, File>, groups: map<int, string>, d: Dev, from: int): set<File> {
    set f | f in Gathered(files, groups, d.account, from) && f.device != d.device
  }

  lemma EligibleExact(files: map<nat, File>, groups: map<int, string>, d: Dev, from: int, f: File)
    requires KeyedById(files)
    ensures f in Eligible(files, groups, d, from) <==>
      && f.id in files && files[f.id] == f && f.account == d.account && f.device != d.device
      && f.group in groups && groups[f.group] == d.account && f.stamp >= from
  {
  }

  /** Listings start from the later of the stored watermark and the time the
      client names, which is zero if it names none. */
  lemma EffectiveSinceExact(since: Option<int>, stored: int)
    ensures var asked := if since.Some? then since.value else 0;
      EffectiveSince(since, stored) == if asked <= stored then stored else asked
  {
  }

  /** Exactness of the outcome `SendInitialFileSync` promises: with every send
      succeeding it finishes iff the eligible records fit into the channel, and
      then each is sent exactly once and every listed file is accounted for. */
  lemma InitialSyncExact(files: map<nat, File>, groups: map<int, string>, d: Dev, from: int,
                         listing: seq<File>, ok: nat -> bool, queued: nat)
    requires queued <= CHANNEL_CAPACITY && forall i :: ok(i)
    requires Enumerates(listing, Gathered(files, groups, d.account, from))
    ensures
      var c := Drain(listing, d.device, Start(from), ok, CHANNEL_CAPACITY - queued);
      var eligible := Eligible(files, groups, d, from);
      && (c.pos == |listing| <==> queued + |eligible| <= 1024)
      && (c.pos == |listing| ==>
            && Enumerates(c.sent, eligible)
            && |c.sent| + c.skipped == |listing|
            && c.maxTs == MaxStamp(c.sent, from))
  {
    var others := Others(listing, d.device);
    var eligible := Eligible(files, groups, d, from);
    OthersMembers(listing, d.device);
    OthersDistinct(listing, d.device);
    EnumerationSize(others, eligible);
    assert listing[0..] == listing;
    if queued + |eligible| <= CHANNEL_CAPACITY {
      DrainSendsAll(listing, d.device, Start(from), ok, CHANNEL_CAPACITY - queued);
      assert [] + others == others;
    } else {
      DrainHangs(listing, d.device, Start(from), ok, CHANNEL_CAPACITY - queued);
    }
  }

  lemma {:induction false} OthersDistinct(files: seq<File>, device: string)
    requires Distinct(files)
    ensures Distinct(Others(files, device))
  {
    if files != [] {
      OthersDistinct(files[1..], device);
      OthersMembers(files[1..], device);
    }
  }
}
