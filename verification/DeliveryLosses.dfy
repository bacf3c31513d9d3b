/** What can go wrong in update delivery: exactly which steps lose a record, that
    a lost record stays lost, and a run into each kind of loss. */
module DeliveryLosses {
  import opened Basics
  import opened SubscriberKeys
  import opened InitialSync
  import opened Delivery

  /** Owed, never sent, no broadcast to come, and below the watermark. */
  predicate Lost(s: State, d: Dev, f: File) {
    Waiting(s, d, f) && !Awaits(s, d, f) && f.stamp < Watermark(s, d)
  }

  // --------------------------------------------------- which steps lose a record

  /** The upload's broadcast is the only one still to come. */
  predicate LastHope(s: State, u: nat, d: Dev, f: File) {
    && u in s.uploads && IsFor(s.uploads[u], d, f)
    && forall v :: v in s.uploads && v != u ==> !IsFor(s.uploads[v], d, f)
  }

  /** An upload ends without reaching a device that has synced past it, a receiver
      goes away with a record queued that its device has synced past, or a
      watermark is written that passes a waiting record. */
  predicate Loses(s: State, step: Step, d: Dev, f: File) {
    match step
    case Happens(_) => Drops(s, step, d, f) && !Awaits(s, d, f) && f.stamp < Watermark(s, d)
    case Uploads(u, Broadcast) => Waiting(s, d, f) && LastHope(s, u, d, f) && f.stamp < Watermark(s, d) && !Alive(s, d)
    case Uploads(u, Abandon) => Waiting(s, d, f) && LastHope(s, u, d, f) && f.stamp < Watermark(s, d)
    case Syncs(sid, WriteBack) =>
      && Waiting(s, d, f) && sid in s.sessions && s.sessions[sid].phase.Writing? && s.sessions[sid].dev == d
      && !Awaits(s, d, f) && f.stamp < Sec(s.sessions[sid].phase.clock)
    case _ => false
  }

  lemma EventLosesIff(s: State, e: Event, d: Dev, f: File)
    requires EventEnabled(s, e) && !Lost(s, d, f)
    ensures Lost(AfterEvent(s, e), d, f) <==> Loses(s, Happens(e), d, f)
  {
    var t := AfterEvent(s, e);
    if Waiting(t, d, f) {
      EventWaiting(s, e, d, f);
      if f.stamp >= Watermark(s, d) {
        EventKeepsWatermark(s, e, d, f);
      }
    }
    if Drops(s, Happens(e), d, f) {
      assert t.uploads == s.uploads && t.owed == s.owed && t.devices == s.devices;
      assert Awaits(t, d, f) <==> Awaits(s, d, f);
    }
  }

  lemma UploadAwaits(s: State, u: nat, a: UploadStep, d: Dev, f: File)
    requires UploadEnabled(s, u, a) && (a.Broadcast? || a.Abandon?)
    ensures Awaits(AfterUpload(s, u, a), d, f) <==> Awaits(s, d, f) && !LastHope(s, u, d, f)
  {
    var t := AfterUpload(s, u, a);
    if Awaits(s, d, f) && !LastHope(s, u, d, f) {
      var v :| v in s.uploads && IsFor(s.uploads[v], d, f);
      if v == u {
        var w :| w in s.uploads && w != u && IsFor(s.uploads[w], d, f);
        assert w in t.uploads && IsFor(t.uploads[w], d, f);
      } else {
        assert v in t.uploads && IsFor(t.uploads[v], d, f);
      }
    }
    if Awaits(t, d, f) {
      var v :| v in t.uploads && IsFor(t.uploads[v], d, f);
      assert v in s.uploads && v != u && IsFor(s.uploads[v], d, f);
    }
  }

  lemma UploadSends(s: State, u: nat, a: UploadStep, d: Dev, f: File)
    requires Registry(s) && Obligations(s) && UploadEnabled(s, u, a) && Owes(s, d, f)
    ensures (d, f) in AfterUpload(s, u, a).delivered
       <==> (d, f) in s.delivered || (a.Broadcast? && s.uploads[u].file == f && Alive(s, d))
  {
    FileTestExact(d);
    assert Obliges(s, d, f);
  }

  lemma UploadLosesIff(s: State, u: nat, a: UploadStep, d: Dev, f: File)
    requires Registry(s) && Obligations(s) && UploadEnabled(s, u, a) && !Lost(s, d, f)
    ensures Lost(AfterUpload(s, u, a), d, f) <==> Loses(s, Uploads(u, a), d, f)
  {
    if a.Broadcast? || a.Abandon? {
      UploadAwaits(s, u, a, d, f);
      if Owes(s, d, f) {
        UploadSends(s, u, a, d, f);
      }
    } else if Waiting(AfterUpload(s, u, a), d, f) {
      UploadWaiting(s, u, a, d, f);
    }
  }

  lemma SyncLosesIff(s: State, sid: nat, p: SyncStep, d: Dev, f: File)
    requires Registry(s) && SyncEnabled(s, sid, p) && !Lost(s, d, f)
    ensures Lost(AfterSync(s, sid, p), d, f) <==> Loses(s, Syncs(sid, p), d, f)
  {
    SyncOwed(s, sid, p, d, f);
    if Waiting(AfterSync(s, sid, p), d, f) {
      SyncWaiting(s, sid, p, d, f);
    }
  }

  /** In any state at all, a step loses a record exactly in these cases: the end
      of its last upload without reaching a device that has synced past it, the
      end of a receiver that has it queued for such a device, and the write of a
      watermark above it while it waits. */
  lemma StepLosesIff(s: State, step: Step, d: Dev, f: File)
    requires Registry(s) && Obligations(s) && !Lost(s, d, f)
    ensures Lost(Next(s, step), d, f) <==> Enabled(s, step) && Loses(s, step, d, f)
  {
    if Enabled(s, step) {
      match step
      case Happens(e) => EventLosesIff(s, e, d, f);
      case Uploads(u, a) => UploadLosesIff(s, u, a, d, f);
      case Syncs(sid, p) => SyncLosesIff(s, sid, p, d, f);
    }
  }

  // --------------------------------------------------- a lost record stays lost

  /** The session will neither send the record nor write a watermark below it. */
  predicate Blind(x: Session, f: File) {
    match x.phase
    case Registered => true
    case Watermarked(_) => f.stamp < From(x)
    case Gathering(_, _, found) => f.stamp < From(x) && f !in found
    case Draining(_, listing, cursor) => cursor.pos <= |listing| && f !in listing[cursor.pos..]
    case Fetched => true
    case Writing(clock) => f.stamp < Sec(clock)
  }

  ghost predicate AllBlind(s: State, d: Dev, f: File) {
    forall sid :: sid in s.sessions && s.sessions[sid].dev == d ==> Blind(s.sessions[sid], f)
  }

  /** A new upload of the very record, or an end to the obligation. */
  predicate Revives(s: State, step: Step, d: Dev, f: File) {
    || Withdraws(step, d, f) || Replaces(s, step, f)
    || (step.Uploads? && step.a.Broadcast? && step.u in s.uploads && s.uploads[step.u].file == f)
  }

  lemma OnwardStaysBlind(s: State, x: Session, p: SyncStep, f: File)
    requires Ready(s, x, p) && Onward(s, x, p).Some? && Blind(x, f) && f.stamp < Watermark(s, x.dev) <= Sec(s.now)
    ensures Blind(x.(phase := Onward(s, x, p).value), f) && (x.dev, f) !in Sent(s, x, p)
  {
    if p.Deliver? {
      var next := Onward(s, x, p).value.cursor.pos;
      assert x.phase.listing[next..] == x.phase.listing[x.phase.cursor.pos..][next - x.phase.cursor.pos..];
      assert x.phase.listing[x.phase.cursor.pos] in x.phase.listing[x.phase.cursor.pos..];
    }
  }

  lemma SyncKeepsLost(s: State, sid: nat, p: SyncStep, d: Dev, f: File)
    requires Registry(s) && SyncEnabled(s, sid, p) && Lost(s, d, f) && AllBlind(s, d, f)
    ensures Lost(AfterSync(s, sid, p), d, f) && AllBlind(AfterSync(s, sid, p), d, f)
  {
    SyncOwed(s, sid, p, d, f);
    SyncKeepsUploads(s, sid, p);
    if !p.Subscribe? {
      var x := s.sessions[sid];
      if x.dev == d && Onward(s, x, p).Some? {
        OnwardStaysBlind(s, x, p, f);
      }
    }
  }

  lemma UploadKeepsLost(s: State, u: nat, a: UploadStep, d: Dev, f: File)
    requires Registry(s) && Obligations(s) && UploadEnabled(s, u, a)
    requires Lost(s, d, f) && AllBlind(s, d, f) && !Revives(s, Uploads(u, a), d, f)
    ensures Lost(AfterUpload(s, u, a), d, f) && AllBlind(AfterUpload(s, u, a), d, f)
  {
    UploadOwed(s, u, a, d, f);
    UploadSends(s, u, a, d, f);
    UploadKeepsSessions(s, u, a);
    var t := AfterUpload(s, u, a);
    forall v | v in t.uploads
      ensures !IsFor(t.uploads[v], d, f)
    {
      assert v in s.uploads ==> !IsFor(s.uploads[v], d, f);
    }
  }

  lemma EventKeepsLost(s: State, e: Event, d: Dev, f: File)
    requires EventEnabled(s, e) && Obligations(s) && Lost(s, d, f) && AllBlind(s, d, f)
    requires !Revives(s, Happens(e), d, f)
    ensures Lost(AfterEvent(s, e), d, f) && AllBlind(AfterEvent(s, e), d, f)
  {
    EventOwed(s, e, d, f);
    EventKeepsSessions(s, e);
    var t := AfterEvent(s, e);
    forall v | v in t.uploads
      ensures !IsFor(t.uploads[v], d, f)
    {
      assert !IsFor(s.uploads[v], d, f);
    }
  }

  lemma LostKept(s: State, step: Step, d: Dev, f: File)
    requires Registry(s) && Obligations(s) && Lost(s, d, f) && AllBlind(s, d, f) && !Revives(s, step, d, f)
    ensures Lost(Next(s, step), d, f) && AllBlind(Next(s, step), d, f)
  {
    if Enabled(s, step) {
      match step
      case Happens(e) => EventKeepsLost(s, e, d, f);
      case Uploads(u, a) => UploadKeepsLost(s, u, a, d, f);
      case Syncs(sid, p) => SyncKeepsLost(s, sid, p, d, f);
    }
  }

  ghost predicate NeverRevived(s: State, steps: seq<Step>, d: Dev, f: File) {
    steps == [] ||
    var before := steps[..|steps| - 1];
    NeverRevived(s, before, d, f) && !Revives(RunFrom(s, before), steps[|steps| - 1], d, f)
  }

  /** A record lost to all sessions under way is lost for good: in every run on,
      whatever else is uploaded and however often the device subscribes, it is
      never sent and no listing of the device holds it, until it is uploaded
      anew or the obligation ends. */
  lemma {:induction false} LostForGood(s: State, steps: seq<Step>, d: Dev, f: File)
    requires Registry(s) && Obligations(s) && Lost(s, d, f) && AllBlind(s, d, f) && NeverRevived(s, steps, d, f)
    ensures var t := RunFrom(s, steps);
      Registry(t) && Obligations(t) && Lost(t, d, f) && AllBlind(t, d, f)
    ensures var t := RunFrom(s, steps);
      forall sid :: sid in t.sessions && t.sessions[sid].dev == d && t.sessions[sid].phase.Gathering? ==>
        f !in Listing(t.files, d.account, f.group, From(t.sessions[sid]))
  {
    if steps != [] {
      var n := |steps| - 1;
      LostForGood(s, steps[..n], d, f);
      var t := RunFrom(s, steps[..n]);
      LostKept(t, steps[n], d, f);
      if Enabled(t, steps[n]) {
        RegistryKept(t, steps[n]);
        ObligationsKept(t, steps[n]);
      }
    }
    assert forall sid :: sid in RunFrom(s, steps).sessions && RunFrom(s, steps).sessions[sid].dev == d ==>
      Blind(RunFrom(s, steps).sessions[sid], f);
  }

  // ----------------------------------------------------- a run into each loss

  /** An orderly run from one state to another. */
  ghost predicate Leads(s: State, steps: seq<Step>, t: State) {
    RunFrom(s, steps) == t && OrderlyRun(s, steps)
  }

  lemma LeadsOne(s: State, step: Step)
    requires Orderly(s, step)
    ensures Leads(s, [step], Next(s, step))
  {
    var none: seq<Step> := [step][..0];
    assert RunFrom(s, none) == s && OrderlyRun(s, none);
  }

  lemma LeadsSnoc(s: State, steps: seq<Step>, t: State, step: Step)
    requires Leads(s, steps, t) && Orderly(t, step)
    ensures Leads(s, steps + [step], Next(t, step))
  {
    assert (steps + [step])[..|steps|] == steps;
  }

  lemma Unsnoc(s: State, steps: seq<Step>)
    requires steps != [] && OrderlyRun(s, steps)
    ensures var n := |steps| - 1; var t := RunFrom(s, steps[..n]);
      Leads(s, steps[..n], t) && Orderly(t, steps[n]) && RunFrom(s, steps) == Next(t, steps[n])
  {
  }

  lemma {:induction false} LeadsOn(s: State, before: seq<Step>, t: State, after: seq<Step>, r: State)
    requires Leads(s, before, t) && Leads(t, after, r)
    ensures Leads(s, before + after, r)
    decreases |after|
  {
    if after == [] {
      assert before + after == before;
    } else {
      var n := |after| - 1;
      Unsnoc(t, after);
      var q := RunFrom(t, after[..n]);
      LeadsOn(s, before, t, after[..n], q);
      LeadsSnoc(s, before + after[..n], q, after[n]);
      assert before + after[..n] + [after[n]] == before + after;
    }
  }

  lemma LeadsTwo(s: State, a: Step, b: Step)
    requires Orderly(s, a) && Orderly(Next(s, a), b)
    ensures Leads(s, [a, b], Next(Next(s, a), b))
  {
    LeadsOne(s, a);
    LeadsOne(Next(s, a), b);
    LeadsOn(s, [a], Next(s, a), [b], Next(Next(s, a), b));
    assert [a] + [b] == [a, b];
  }

  lemma LeadsThree(s: State, a: Step, b: Step, c: Step)
    requires Orderly(s, a) && Orderly(Next(s, a), b) && Orderly(Next(Next(s, a), b), c)
    ensures Leads(s, [a, b, c], Next(Next(Next(s, a), b), c))
  {
    LeadsTwo(s, a, b);
    LeadsOne(Next(Next(s, a), b), c);
    LeadsOn(s, [a, b], Next(Next(s, a), b), [c], Next(Next(Next(s, a), b), c));
    assert [a, b] + [c] == [a, b, c];
  }

  /** How a sync that moves the watermark ends, some time later. */
  function EndSteps(sid: nat, later: nat): seq<Step> {
    [Happens(Tick(later))] + [Syncs(sid, Finish), Syncs(sid, ReadClock), Syncs(sid, WriteBack)]
  }

  function Ended(s: State, sid: nat, later: nat): State
    requires sid in s.sessions
  {
    var d := s.sessions[sid].dev;
    s.(now := later, sessions := s.sessions - {sid}, devices := s.devices[d := later])
  }

  predicate AboutToMove(s: State, sid: nat) {
    && sid in s.sessions && s.sessions[sid].phase.Draining? && Moves(s, s.sessions[sid])
    && s.sessions[sid].phase.cursor.pos == |s.sessions[sid].phase.listing|
  }

  lemma EndLeads(s: State, sid: nat, later: nat)
    requires AboutToMove(s, sid) && s.now <= later && s.owed.Keys == s.devices.Keys
    ensures Leads(s, EndSteps(sid, later), Ended(s, sid, later))
  {
    var x := s.sessions[sid];
    var s1 := s.(now := later);
    var s2 := s1.(sessions := s.sessions[sid := x.(phase := Fetched)]);
    var s3 := s1.(sessions := s.sessions[sid := x.(phase := Writing(later))]);
    assert Next(s, Happens(Tick(later))) == s1;
    FinishMoves(s1, sid);
    ClockThenWrite(s2, sid);
    assert s2.sessions[sid := x.(phase := Writing(later))] == s3.sessions;
    assert s3.sessions - {sid} == s.sessions - {sid};
    LeadsOne(s, Happens(Tick(later)));
    LeadsThree(s1, Syncs(sid, Finish), Syncs(sid, ReadClock), Syncs(sid, WriteBack));
    LeadsOn(s, [Happens(Tick(later))], s1,
            [Syncs(sid, Finish), Syncs(sid, ReadClock), Syncs(sid, WriteBack)], Ended(s, sid, later));
  }

  lemma FinishMoves(s: State, sid: nat)
    requires AboutToMove(s, sid)
    ensures Next(s, Syncs(sid, Finish)) == s.(sessions := s.sessions[sid := s.sessions[sid].(phase := Fetched)])
  {
    assert s.delivered + {} == s.delivered;
  }

  lemma ClockThenWrite(s: State, sid: nat)
    requires sid in s.sessions && s.sessions[sid].phase.Fetched? && s.sessions[sid].dev in s.owed
    ensures var x := s.sessions[sid];
      var t := s.(sessions := s.sessions[sid := x.(phase := Writing(s.now))]);
      && Next(s, Syncs(sid, ReadClock)) == t
      && Next(t, Syncs(sid, WriteBack)) == s.(sessions := t.sessions - {sid}, devices := s.devices[x.dev := s.now])
  {
    assert s.delivered + {} == s.delivered;
  }

  /** A record that waits when a sync ends is lost, if the watermark moves. */
  lemma EndLoses(s: State, sid: nat, f: File, later: nat)
    requires AboutToMove(s, sid) && s.sessions.Keys == {sid} && f.stamp < Sec(later)
    requires Waiting(s, s.sessions[sid].dev, f) && !Awaits(s, s.sessions[sid].dev, f)
    ensures var t := Ended(s, sid, later); var d := s.sessions[sid].dev;
      Lost(t, d, f) && AllBlind(t, d, f)
  {
    var t, d := Ended(s, sid, later), s.sessions[sid].dev;
    assert t.uploads == s.uploads;
    assert Awaits(t, d, f) <==> Awaits(s, d, f);
    assert t.sessions.Keys == {};
  }

  // The scene of the runs: one registered device and one registered group.

  const READER: Dev := Dev("a", "x")

  function Record(id: nat, tick: nat): File {
    File(id, "a", "y", 1, Sec(tick), 0, "p")
  }

  function Scene(now: nat, files: map<nat, File>, watermark: nat, subs: map<Dev, bool>, sessions: map<nat, Session>,
                 uploads: map<nat, Upload>, delivered: set<(Dev, File)>, owed: set<File>): State
  {
    State(now, files, map[1 := "a"], map[READER := watermark], subs, sessions, uploads, delivered, {},
          map[READER := owed])
  }

  lemma SceneStamps(s: State, u: nat, f: File)
    requires s.groups == map[1 := "a"] && s.devices.Keys == {READER} && u !in s.uploads
    requires f.account == "a" && f.device == "y" && f.group == 1 && f.stamp == Sec(s.now)
    ensures Next(s, Uploads(u, Stamp(f))) == s.(uploads := s.uploads[u := Upload(f, {READER}, false)])
  {
    assert Audience(s, f) == {READER};
  }

  lemma SceneStores(s: State, u: nat, f: File, owed: set<File>)
    requires u in s.uploads && s.uploads[u] == Upload(f, {READER}, false)
    requires s.owed == map[READER := owed] && forall g :: g in owed ==> g.id != f.id
    ensures Next(s, Uploads(u, Store))
         == s.(files := s.files[f.id := f], uploads := s.uploads[u := Upload(f, {READER}, true)],
               owed := map[READER := owed + {f}])
  {
    assert OwedAfterStore(s, s.uploads[u])[READER] == owed + {f};
  }

  lemma SceneBroadcasts(s: State, u: nat)
    requires u in s.uploads && s.uploads[u].stored && forall d :: d in s.subs ==> !s.subs[d]
    ensures Next(s, Uploads(u, Broadcast)) == s.(uploads := s.uploads - {u})
  {
    assert Reached(s, s.uploads[u].file) == {};
    assert s.delivered + {} == s.delivered;
  }

  function UploadSteps(u: nat, f: File): seq<Step> {
    [Uploads(u, Stamp(f)), Uploads(u, Store), Uploads(u, Broadcast)]
  }

  /** A whole upload that finds nobody connected leaves its record waiting. */
  lemma UploadUnheard(s: State, u: nat, f: File, owed: set<File>)
    requires s.groups == map[1 := "a"] && s.devices.Keys == {READER} && s.uploads == map[]
    requires s.owed == map[READER := owed]
    requires f.account == "a" && f.device == "y" && f.group == 1 && f.stamp == Sec(s.now)
    requires (forall g :: g in owed ==> g.id != f.id) && forall d :: d in s.subs ==> !s.subs[d]
    ensures Leads(s, UploadSteps(u, f), s.(files := s.files[f.id := f], owed := map[READER := owed + {f}]))
  {
    SceneStamps(s, u, f);
    var s1 := Next(s, Uploads(u, Stamp(f)));
    SceneStores(s1, u, f, owed);
    var s2 := Next(s1, Uploads(u, Store));
    SceneBroadcasts(s2, u);
    assert s2.uploads - {u} == map[];
    LeadsThree(s, Uploads(u, Stamp(f)), Uploads(u, Store), Uploads(u, Broadcast));
  }

  /** One record waits for the registered, unconnected device. */
  function Opening(start: nat, tick: nat): State {
    Scene(tick, map[1 := Record(1, tick)], start, map[], map[], map[], {}, {Record(1, tick)})
  }

  function OpeningSteps(tick: nat): seq<Step> {
    [Happens(RegisterDevice(READER)), Happens(RegisterGroup(1, "a")), Happens(Tick(tick))]
      + UploadSteps(0, Record(1, tick))
  }

  lemma OpeningLeads(start: nat, tick: nat)
    requires start <= tick
    ensures Leads(Init(start), OpeningSteps(tick), Opening(start, tick))
  {
    var s := Scene(tick, map[], start, map[], map[], map[], {}, {});
    SetUp(start, tick);
    UploadUnheard(s, 0, Record(1, tick), {});
    assert s.files[1 := Record(1, tick)] == map[1 := Record(1, tick)];
    assert {} + {Record(1, tick)} == {Record(1, tick)};
    LeadsOn(Init(start), [Happens(RegisterDevice(READER)), Happens(RegisterGroup(1, "a")), Happens(Tick(tick))], s,
            UploadSteps(0, Record(1, tick)), Opening(start, tick));
  }

  lemma SetUp(start: nat, tick: nat)
    requires start <= tick
    ensures Leads(Init(start), [Happens(RegisterDevice(READER)), Happens(RegisterGroup(1, "a")), Happens(Tick(tick))],
                  Scene(tick, map[], start, map[], map[], map[], {}, {}))
  {
    var s := Init(start);
    var s1 := Next(s, Happens(RegisterDevice(READER)));
    assert WithoutDevice(s.uploads, READER) == map[];
    assert s1 == s.(devices := map[READER := start], owed := map[READER := {}]);
    var s2 := Next(s1, Happens(RegisterGroup(1, "a")));
    assert s2 == s1.(groups := map[1 := "a"]);
    LeadsThree(s, Happens(RegisterDevice(READER)), Happens(RegisterGroup(1, "a")), Happens(Tick(tick)));
  }

  function InPhase(s: State, since: Option<int>, phase: Phase): State {
    s.(subs := map[READER := true], sessions := map[0 := Session(READER, since, phase)])
  }

  lemma SceneSubscribes(start: nat, tick: nat, since: Option<int>)
    ensures var s := Opening(start, tick);
      && Next(s, Syncs(0, Subscribe(READER, since))) == InPhase(s, since, Registered)
      && Next(InPhase(s, since, Registered), Syncs(0, ReadWatermark)) == InPhase(s, since, Watermarked(Sec(start)))
  {
    var s := Opening(start, tick);
    assert s.delivered + {} == s.delivered;
  }

  lemma SceneReadsGroups(start: nat, tick: nat, since: Option<int>)
    ensures var s := Opening(start, tick);
      Next(InPhase(s, since, Watermarked(Sec(start))), Syncs(0, ReadGroups([1])))
      == InPhase(s, since, Gathering(Sec(start), [1], []))
  {
    var s := Opening(start, tick);
    assert GroupsOf(s.groups, "a") == {1};
    assert s.delivered + {} == s.delivered;
  }

  lemma SceneLists(start: nat, tick: nat, since: Option<int>, listing: seq<File>)
    requires Enumerates(listing, Listing(map[1 := Record(1, tick)], "a", 1, EffectiveSince(since, Sec(start))))
    ensures Next(InPhase(Opening(start, tick), since, Gathering(Sec(start), [1], [])), Syncs(0, ListGroup(listing)))
         == InPhase(Opening(start, tick), since, Gathering(Sec(start), [], listing))
  {
    var s := InPhase(Opening(start, tick), since, Gathering(Sec(start), [1], []));
    assert Ready(s, s.sessions[0], ListGroup(listing));
    assert s.delivered + {} == s.delivered;
    assert [1][1..] == [] && [] + listing == listing;
  }

  lemma SceneBegins(start: nat, tick: nat, since: Option<int>, listing: seq<File>)
    ensures Next(InPhase(Opening(start, tick), since, Gathering(Sec(start), [], listing)), Syncs(0, BeginDelivery))
         == InPhase(Opening(start, tick), since,
                    Draining(Sec(start), listing, Start(EffectiveSince(since, Sec(start)))))
  {
    var s := InPhase(Opening(start, tick), since, Gathering(Sec(start), [], listing));
    assert s.delivered + {} == s.delivered;
  }

  function ReadSteps(listing: seq<File>): seq<Step> {
    [Syncs(0, ReadGroups([1])), Syncs(0, ListGroup(listing)), Syncs(0, BeginDelivery)]
  }

  lemma ReadingLeads(start: nat, tick: nat, since: Option<int>, listing: seq<File>)
    requires Enumerates(listing, Listing(map[1 := Record(1, tick)], "a", 1, EffectiveSince(since, Sec(start))))
    ensures var s := Opening(start, tick);
      Leads(InPhase(s, since, Watermarked(Sec(start))), ReadSteps(listing),
            InPhase(s, since, Draining(Sec(start), listing, Start(EffectiveSince(since, Sec(start))))))
  {
    var s := InPhase(Opening(start, tick), since, Watermarked(Sec(start)));
    SceneReadsGroups(start, tick, since);
    SceneLists(start, tick, since, listing);
    SceneBegins(start, tick, since, listing);
    LeadsThree(s, Syncs(0, ReadGroups([1])), Syncs(0, ListGroup(listing)), Syncs(0, BeginDelivery));
  }

  lemma SubscribingLeads(start: nat, tick: nat, since: Option<int>)
    requires start <= tick
    ensures Leads(Init(start), OpeningSteps(tick) + [Syncs(0, Subscribe(READER, since))],
                  InPhase(Opening(start, tick), since, Registered))
  {
    var s := Opening(start, tick);
    OpeningLeads(start, tick);
    SceneSubscribes(start, tick, since);
    LeadsSnoc(Init(start), OpeningSteps(tick), s, Syncs(0, Subscribe(READER, since)));
  }

  /** An orderly run, one step that is not, and an orderly run after it, at the
      end of which the record is lost for good. */
  ghost predicate LosesAfter(start: nat, before: seq<Step>, step: Step, after: seq<Step>, d: Dev, f: File) {
    var s := RunFrom(Init(start), before);
    var t := RunFrom(Next(s, step), after);
    && OrderlyRun(Init(start), before) && Enabled(s, step) && OrderlyRun(Next(s, step), after)
    && Lost(t, d, f) && AllBlind(t, d, f)
  }

  /** A client that asks from a time above its own watermark. */
  lemma SinceAheadLoses(start: nat, since: int, later: nat)
    returns (before: seq<Step>, after: seq<Step>, d: Dev, f: File)
    requires Sec(start) < since && start <= later && Sec(start) < Sec(later)
    ensures LosesAfter(start, before, Syncs(0, ReadWatermark), after, d, f)
    ensures var s := RunFrom(Init(start), before);
      s.sessions[0].since == Some(since) && Watermark(s, s.sessions[0].dev) == Sec(start)
  {
    d, f := READER, Record(1, start);
    var x, s := Some(since), Opening(start, start);
    before := OpeningSteps(start) + [Syncs(0, Subscribe(READER, x))];
    SubscribingLeads(start, start, x);
    SceneSubscribes(start, start, x);
    assert Listing(map[1 := f], "a", 1, since) == {};
    ReadingLeads(start, start, x, []);
    var ready := InPhase(s, x, Draining(Sec(start), [], Start(since)));
    EndLeads(ready, 0, later);
    EndLoses(ready, 0, f, later);
    after := ReadSteps([]) + EndSteps(0, later);
    LeadsOn(InPhase(s, x, Watermarked(Sec(start))), ReadSteps([]), ready, EndSteps(0, later), Ended(ready, 0, later));
  }

  /** An initial sync that has sent the waiting record and is about to end; the
      device has received the record, or not yet. */
  function Sending(start: nat, tick: nat): State {
    var f := Record(1, tick);
    InPhase(Opening(start, tick), None, Draining(Sec(start), [f], Cursor(1, [f], 0, Sec(tick))))
      .(delivered := {(READER, f)})
  }

  function Poised(start: nat, tick: nat): State {
    Sending(start, tick).(received := {(READER, Record(1, tick))})
  }

  function SendingSteps(tick: nat): seq<Step> {
    OpeningSteps(tick) + [Syncs(0, Subscribe(READER, None))] + [Syncs(0, ReadWatermark)] + ReadSteps([Record(1, tick)])
      + [Syncs(0, Deliver)]
  }

  function PoisedSteps(tick: nat): seq<Step> {
    SendingSteps(tick) + [Happens(Receive(READER, Record(1, tick)))]
  }

  lemma SceneDelivers(start: nat, tick: nat)
    requires Sec(start) < Sec(tick)
    ensures var f := Record(1, tick);
      Next(InPhase(Opening(start, tick), None, Draining(Sec(start), [f], Start(Sec(start)))), Syncs(0, Deliver))
      == Sending(start, tick)
  {
    var f := Record(1, tick);
    var none: set<(Dev, File)>, empty: seq<File> := {}, [];
    assert none + {(READER, f)} == {(READER, f)} && empty + [f] == [f];
  }

  lemma ListsTheRecord(start: nat, tick: nat)
    requires Sec(start) < Sec(tick)
    ensures Enumerates([Record(1, tick)], Listing(map[1 := Record(1, tick)], "a", 1, Sec(start)))
  {
    var files := map[1 := Record(1, tick)];
    assert files[1] in Listing(files, "a", 1, Sec(start));
  }

  lemma SendingLeads(start: nat, tick: nat)
    requires Sec(start) < Sec(tick)
    ensures Leads(Init(start), SendingSteps(tick), Sending(start, tick)) && AboutToMove(Sending(start, tick), 0)
  {
    var s, f := Opening(start, tick), Record(1, tick);
    var subscribed := OpeningSteps(tick) + [Syncs(0, Subscribe(READER, None))];
    var reading := subscribed + [Syncs(0, ReadWatermark)];
    SubscribingLeads(start, tick, None);
    SceneSubscribes(start, tick, None);
    LeadsSnoc(Init(start), subscribed, InPhase(s, None, Registered), Syncs(0, ReadWatermark));
    ListsTheRecord(start, tick);
    ReadingLeads(start, tick, None, [f]);
    var sending := InPhase(s, None, Draining(Sec(start), [f], Start(Sec(start))));
    LeadsOn(Init(start), reading, InPhase(s, None, Watermarked(Sec(start))), ReadSteps([f]), sending);
    SceneDelivers(start, tick);
    LeadsSnoc(Init(start), reading + ReadSteps([f]), sending, Syncs(0, Deliver));
  }

  lemma PoisedLeads(start: nat, tick: nat)
    requires Sec(start) < Sec(tick)
    ensures Leads(Init(start), PoisedSteps(tick), Poised(start, tick)) && AboutToMove(Poised(start, tick), 0)
  {
    var s, f := Sending(start, tick), Record(1, tick);
    SendingLeads(start, tick);
    assert s.received + {(READER, f)} == {(READER, f)};
    LeadsSnoc(Init(start), SendingSteps(tick), s, Happens(Receive(READER, f)));
  }

  lemma DropLoses(s: State, d: Dev, f: File)
    requires s.sessions == map[] && s.uploads == map[]
    requires Owes(s, d, f) && Queued(s, d, f) && f.stamp < Watermark(s, d)
    ensures KeepsAway(s, d)
    ensures var t := Next(s, Happens(Disconnect(d))); Lost(t, d, f) && AllBlind(t, d, f)
  {
    assert (d, f) in Dropped(s, Disconnect(d));
  }

  /** The device goes away after its sync, with a record still queued. */
  lemma DisconnectWithQueueLoses(start: nat, tick: nat, later: nat)
    returns (before: seq<Step>, after: seq<Step>, d: Dev, f: File)
    requires Sec(start) < Sec(tick) < Sec(later)
    ensures LosesAfter(start, before, Happens(Disconnect(d)), after, d, f)
    ensures var s := RunFrom(Init(start), before);
      KeepsAway(s, d) && Queued(s, d, f)
  {
    d, f, after := READER, Record(1, tick), [];
    before := SendingSteps(tick) + EndSteps(0, later);
    var ready := Sending(start, tick);
    SendingLeads(start, tick);
    EndLeads(ready, 0, later);
    var s := Ended(ready, 0, later);
    LeadsOn(Init(start), SendingSteps(tick), ready, EndSteps(0, later), s);
    DropLoses(s, d, f);
  }

  /** The poised sync without its channel, and then with one more record that
      nobody was told of. */
  function Cut(start: nat, tick: nat): State {
    Poised(start, tick).(subs := map[])
  }

  function Unheard(start: nat, tick: nat): State {
    Poised(start, tick).(subs := map[], files := map[1 := Record(1, tick), 2 := Record(2, tick)],
      owed := map[READER := {Record(1, tick), Record(2, tick)}])
  }

  lemma CutLeads(start: nat, tick: nat)
    requires Sec(start) < Sec(tick)
    ensures Next(Poised(start, tick), Happens(Unsubscribe(READER))) == Cut(start, tick)
    ensures Leads(Cut(start, tick), UploadSteps(1, Record(2, tick)), Unheard(start, tick))
  {
    assert Poised(start, tick).subs - {READER} == map[];
    UploadUnheard(Cut(start, tick), 1, Record(2, tick), {Record(1, tick)});
    assert {Record(1, tick)} + {Record(2, tick)} == {Record(1, tick), Record(2, tick)};
  }

  lemma UnheardIsLost(start: nat, tick: nat, later: nat)
    requires Sec(start) < Sec(tick) < Sec(later)
    ensures var s, f := Unheard(start, tick), Record(2, tick);
      && Leads(s, EndSteps(0, later), Ended(s, 0, later))
      && Lost(Ended(s, 0, later), READER, f) && AllBlind(Ended(s, 0, later), READER, f)
  {
    var s, f := Unheard(start, tick), Record(2, tick);
    EndLeads(s, 0, later);
    assert Waiting(s, READER, f);
    EndLoses(s, 0, f, later);
  }

  /** The channel goes, by the timer of an older subscription, while an initial
      sync runs. */
  lemma UnsubscribeDuringSyncLoses(start: nat, tick: nat, later: nat)
    returns (before: seq<Step>, after: seq<Step>, d: Dev, f: File)
    requires Sec(start) < Sec(tick) < Sec(later)
    ensures LosesAfter(start, before, Happens(Unsubscribe(d)), after, d, f)
    ensures InSession(RunFrom(Init(start), before), d)
  {
    d, f := READER, Record(2, tick);
    before, after := PoisedSteps(tick), UploadSteps(1, f) + EndSteps(0, later);
    PoisedLeads(start, tick);
    assert Poised(start, tick).sessions[0].dev == d;
    CutLeads(start, tick);
    UnheardIsLost(start, tick, later);
    var ready := Unheard(start, tick);
    LeadsOn(Cut(start, tick), UploadSteps(1, f), ready, EndSteps(0, later), Ended(ready, 0, later));
  }

  /** The poised sync with a second upload stamped, and then also stored. */
  function Stamped(start: nat, tick: nat, stored: bool): State {
    var s, f := Poised(start, tick), Record(2, tick);
    if stored then
      s.(uploads := map[1 := Upload(f, {READER}, true)], files := s.files[2 := f],
         owed := map[READER := {Record(1, tick)} + {f}])
    else s.(uploads := map[1 := Upload(f, {READER}, false)])
  }

  lemma PoisedStamps(start: nat, tick: nat)
    ensures Next(Poised(start, tick), Uploads(1, Stamp(Record(2, tick)))) == Stamped(start, tick, false)
  {
    var s, f := Poised(start, tick), Record(2, tick);
    SceneStamps(s, 1, f);
    assert s.uploads[1 := Upload(f, {READER}, false)] == map[1 := Upload(f, {READER}, false)];
  }

  lemma PoisedStores(start: nat, tick: nat)
    ensures Next(Stamped(start, tick, false), Uploads(1, Store)) == Stamped(start, tick, true)
  {
    SceneStores(Stamped(start, tick, false), 1, Record(2, tick), {Record(1, tick)});
  }

  lemma StampedLeads(start: nat, tick: nat)
    requires Sec(start) < Sec(tick)
    ensures var f := Record(2, tick);
      && Leads(Init(start), PoisedSteps(tick) + [Uploads(1, Stamp(f))], Stamped(start, tick, false))
      && Leads(Init(start), PoisedSteps(tick) + [Uploads(1, Stamp(f))] + [Uploads(1, Store)],
               Stamped(start, tick, true))
  {
    var f := Record(2, tick);
    PoisedLeads(start, tick);
    PoisedStamps(start, tick);
    PoisedStores(start, tick);
    LeadsSnoc(Init(start), PoisedSteps(tick), Poised(start, tick), Uploads(1, Stamp(f)));
    LeadsSnoc(Init(start), PoisedSteps(tick) + [Uploads(1, Stamp(f))], Stamped(start, tick, false), Uploads(1, Store));
  }

  /** The data write fails after the record is stored, while an initial sync that
      did not list it runs. */
  lemma FailedWriteLoses(start: nat, tick: nat, later: nat)
    returns (before: seq<Step>, after: seq<Step>, d: Dev, f: File)
    requires Sec(start) < Sec(tick) < Sec(later)
    ensures LosesAfter(start, before, Uploads(1, Abandon), after, d, f)
  {
    d, f := READER, Record(2, tick);
    before := PoisedSteps(tick) + [Uploads(1, Stamp(f))] + [Uploads(1, Store)];
    StampedLeads(start, tick);
    PoisedLeads(start, tick);
    var s := Stamped(start, tick, true);
    var ready := s.(uploads := map[]);
    assert s.uploads - {1} == map[];
    assert Waiting(ready, d, f);
    EndLeads(ready, 0, later);
    EndLoses(ready, 0, f, later);
    after := EndSteps(0, later);
  }

  lemma ConcludesUnheard(s: State, u: nat, f: File, owed: set<File>)
    requires s.uploads == map[u := Upload(f, {READER}, false)] && s.owed == map[READER := owed]
    requires (forall g :: g in owed ==> g.id != f.id) && forall d :: d in s.subs ==> !s.subs[d]
    ensures Leads(s, [Uploads(u, Store), Uploads(u, Broadcast)],
                  s.(files := s.files[f.id := f], uploads := map[], owed := map[READER := owed + {f}]))
  {
    SceneStores(s, u, f, owed);
    var t := Next(s, Uploads(u, Store));
    SceneBroadcasts(t, u);
    assert t.uploads - {u} == map[];
    LeadsTwo(s, Uploads(u, Store), Uploads(u, Broadcast));
  }

  /** Past the sync, with the upload still to be stored. */
  function Synced(start: nat, tick: nat, later: nat, connected: bool): State {
    Stamped(start, tick, false)
      .(now := later, sessions := map[], devices := map[READER := later], subs := map[READER := connected])
  }

  lemma SyncedLeads(start: nat, tick: nat, later: nat)
    requires Sec(start) < Sec(tick) < Sec(later)
    ensures Leads(Init(start), PoisedSteps(tick) + [Uploads(1, Stamp(Record(2, tick)))] + EndSteps(0, later),
                  Synced(start, tick, later, true))
  {
    var stamped := Stamped(start, tick, false);
    StampedLeads(start, tick);
    EndLeads(stamped, 0, later);
    assert stamped.sessions - {0} == map[];
    assert stamped.devices[READER := later] == map[READER := later];
    LeadsOn(Init(start), PoisedSteps(tick) + [Uploads(1, Stamp(Record(2, tick)))], stamped,
            EndSteps(0, later), Synced(start, tick, later, true));
  }

  lemma SyncedThenCut(start: nat, tick: nat, later: nat)
    requires Sec(tick) < Sec(later)
    ensures Next(Synced(start, tick, later, true), Happens(Disconnect(READER))) == Synced(start, tick, later, false)
    ensures var f := Record(2, tick);
      exists t :: Leads(Synced(start, tick, later, false), [Uploads(1, Store), Uploads(1, Broadcast)], t)
               && Lost(t, READER, f) && AllBlind(t, READER, f)
  {
    var s, f := Synced(start, tick, later, false), Record(2, tick);
    var joined := Synced(start, tick, later, true);
    assert Dropped(joined, Disconnect(READER)) == {};
    assert joined.delivered - {} == joined.delivered;
    ConcludesUnheard(s, 1, f, {Record(1, tick)});
    var t := s.(files := s.files[2 := f], uploads := map[], owed := map[READER := {Record(1, tick)} + {f}]);
    assert Lost(t, READER, f) && AllBlind(t, READER, f);
  }

  /** A device syncs past the stamp of an upload that is not stored yet, and
      disconnects before the broadcast. */
  lemma DisconnectBeforeBroadcastLoses(start: nat, tick: nat, later: nat)
    returns (before: seq<Step>, after: seq<Step>, d: Dev, f: File)
    requires Sec(start) < Sec(tick) < Sec(later)
    ensures LosesAfter(start, before, Happens(Disconnect(d)), after, d, f)
    ensures !InSession(RunFrom(Init(start), before), d)
  {
    d, f := READER, Record(2, tick);
    before := PoisedSteps(tick) + [Uploads(1, Stamp(f))] + EndSteps(0, later);
    after := [Uploads(1, Store), Uploads(1, Broadcast)];
    SyncedLeads(start, tick, later);
    SyncedThenCut(start, tick, later);
  }
}
