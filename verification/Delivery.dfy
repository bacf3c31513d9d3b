/** Update delivery as a protocol. An upload is stamped, stored and broadcast in
    separate steps, a subscription goes through the lock sections of its initial
    sync one by one, and steps of any number of uploads and subscriptions
    interleave freely under a clock that never runs backwards. */
module Delivery {
  import opened Basics
  import opened SubscriberKeys
  import opened InitialSync

  /** How far a subscription has got. */
  datatype Phase =
    | Registered                                                    // sender registered
    | Watermarked(stored: int)                                      // last_sync read
    | Gathering(stored: int, todo: seq<int>, found: seq<File>)      // listing group by group
    | Draining(stored: int, listing: seq<File>, cursor: Cursor)     // sending file by file
    | Fetched                                                       // device read for its update
    | Writing(clock: nat)                                           // new last_sync chosen

  datatype Session = Session(dev: Dev, since: Option<int>, phase: Phase)

  /** An upload on its way, with the devices that must learn of it: those
      registered when it was stamped (see `OwedExactly`). */
  datatype Upload = Upload(file: File, audience: set<Dev>, stored: bool)

  /** The server, plus three records of what happened: which records are in a
      channel of which device or were received from it, which were received, and
      which stored records each registered device is owed. `subs[d]` tells
      whether the registered sender still has a receiver. */
  datatype State = State(
    now: nat,
    files: map<nat, File>,
    groups: map<int, string>,
    devices: map<Dev, nat>,
    subs: map<Dev, bool>,
    sessions: map<nat, Session>,
    uploads: map<nat, Upload>,
    delivered: set<(Dev, File)>,
    received: set<(Dev, File)>,
    owed: map<Dev, set<File>>)

  /** Requests that neither upload nor subscribe, and the passing of time. */
  datatype Event =
    | Tick(to: nat)
    | RegisterDevice(d: Dev)
    | DeleteDevice(d: Dev)
    | RegisterGroup(g: int, account: string)
    | DeleteGroup(g: int)
    | DeleteFile(id: nat)
    | Receive(d: Dev, f: File)
    | Unsubscribe(d: Dev)      // the seven-day timer removes the sender
    | Disconnect(d: Dev)       // the receiver goes away, with all it has queued
    | Discard(d: Dev, lost: set<File>)   // so does one of an older subscription

  /** The steps of one upload. */
  datatype UploadStep =
    | Stamp(f: File)
    | Store
    | Broadcast
    | Abandon                  // a storage write fails

  /** The steps of one subscription. */
  datatype SyncStep =
    | Subscribe(d: Dev, since: Option<int>)
    | ReadWatermark
    | ReadGroups(order: seq<int>)
    | ListGroup(listing: seq<File>)
    | BeginDelivery
    | Deliver
    | Finish
    | ReadClock
    | WriteBack
    | Abort                    // the request is dropped half-way

  datatype Step = Happens(e: Event) | Uploads(u: nat, a: UploadStep) | Syncs(sid: nat, p: SyncStep)

  function Init(start: nat): State {
    State(start, map[], map[], map[], map[], map[], map[], {}, {}, map[])
  }

  predicate Stored(s: State, f: File) {
    f.id in s.files && s.files[f.id] == f
  }

  predicate Alive(s: State, d: Dev) {
    d in s.subs && s.subs[d]
  }

  function Watermark(s: State, d: Dev): nat {
    if d in s.devices then Sec(s.devices[d]) else 0
  }

  /** Lower time bound of a session's listings. */
  function From(x: Session): int
    requires x.phase.Watermarked? || x.phase.Gathering? || x.phase.Draining?
  {
    EffectiveSince(x.since, x.phase.stored)
  }

  /** A record the device must learn of. */
  predicate Obliges(s: State, d: Dev, f: File) {
    Addressed(d, f.account, Some(f.device)) && f.group in GroupsOf(s.groups, f.account)
  }

  predicate EventEnabled(s: State, e: Event) {
    match e
    case Tick(to) => s.now <= to
    case RegisterDevice(d) => HashLike(d)
    case RegisterGroup(g, _) => g !in s.groups
    case Receive(d, f) => (d, f) in s.delivered
    case _ => true
  }

  predicate UploadEnabled(s: State, u: nat, a: UploadStep) {
    match a
    case Stamp(f) => u !in s.uploads && f.stamp == Sec(s.now)
    case Store => u in s.uploads && !s.uploads[u].stored
    case Broadcast => u in s.uploads && s.uploads[u].stored
    case Abandon => u in s.uploads
  }

  /** Subscribing apart, what a session may do next depends on its phase. */
  ghost predicate Ready(s: State, x: Session, p: SyncStep) {
    match p
    case Subscribe(_, _) => false
    case ReadWatermark => x.phase.Registered?
    case ReadGroups(order) => x.phase.Watermarked? && Enumerates(order, GroupsOf(s.groups, x.dev.account))
    case ListGroup(listing) =>
      && x.phase.Gathering? && x.phase.todo != []
      && Enumerates(listing, Listing(s.files, x.dev.account, x.phase.todo[0], From(x)))
    case BeginDelivery => x.phase.Gathering? && x.phase.todo == []
    case Deliver => x.phase.Draining? && x.phase.cursor.pos < |x.phase.listing|
    case Finish => x.phase.Draining? && x.phase.cursor.pos == |x.phase.listing|
    case ReadClock => x.phase.Fetched?
    case WriteBack => x.phase.Writing?
    case Abort => true
  }

  ghost predicate SyncEnabled(s: State, sid: nat, p: SyncStep) {
    if p.Subscribe? then sid !in s.sessions && HashLike(p.d) else sid in s.sessions && Ready(s, s.sessions[sid], p)
  }

  ghost predicate Enabled(s: State, step: Step) {
    match step
    case Happens(e) => EventEnabled(s, e)
    case Uploads(u, a) => UploadEnabled(s, u, a)
    case Syncs(sid, p) => SyncEnabled(s, sid, p)
  }

  function WithoutDevice(uploads: map<nat, Upload>, d: Dev): map<nat, Upload> {
    map u | u in uploads :: uploads[u].(audience := uploads[u].audience - {d})
  }

  function WithoutGroup(uploads: map<nat, Upload>, g: int): map<nat, Upload> {
    map u | u in uploads :: uploads[u].(audience := if uploads[u].file.group == g then {} else uploads[u].audience)
  }

  /** Obligations about whatever was stored under an id end when that changes. */
  function WithoutId(owed: map<Dev, set<File>>, id: nat): map<Dev, set<File>> {
    map d | d in owed :: set f | f in owed[d] && f.id != id
  }

  function WithoutFilesOf(owed: map<Dev, set<File>>, g: int): map<Dev, set<File>> {
    map d | d in owed :: set f | f in owed[d] && f.group != g
  }

  function OwedAfterStore(s: State, up: Upload): map<Dev, set<File>> {
    map d | d in s.owed :: (set f | f in s.owed[d] && f.id != up.file.id) + if d in up.audience then {up.file} else {}
  }

  /** The registered devices that must learn of an upload. */
  function Audience(s: State, f: File): set<Dev> {
    set d | d in s.devices && Obliges(s, d, f)
  }

  /** Whom a broadcast reaches. */
  function Reached(s: State, f: File): set<(Dev, File)> {
    set d | d in s.subs && s.subs[d] && FileTest(Key(d), f.account, f.device, true) :: (d, f)
  }

  function AfterEvent(s: State, e: Event): State {
    match e
    case Tick(to) => s.(now := to)
    case RegisterDevice(d) =>
      s.(devices := s.devices[d := s.now], owed := s.owed[d := {}], uploads := WithoutDevice(s.uploads, d))
    case DeleteDevice(d) =>
      s.(devices := s.devices - {d}, owed := s.owed - {d}, uploads := WithoutDevice(s.uploads, d))
    case RegisterGroup(g, account) => s.(groups := s.groups[g := account])
    case DeleteGroup(g) =>
      s.(groups := s.groups - {g}, owed := WithoutFilesOf(s.owed, g), uploads := WithoutGroup(s.uploads, g))
    case DeleteFile(id) => s.(files := s.files - {id}, owed := WithoutId(s.owed, id))
    case Receive(d, f) => s.(received := s.received + {(d, f)})
    case Unsubscribe(d) => s.(subs := s.subs - {d})
    case Disconnect(d) =>
      s.(subs := if d in s.subs then s.subs[d := false] else s.subs, delivered := s.delivered - Dropped(s, e))
    case Discard(_, _) => s.(delivered := s.delivered - Dropped(s, e))
  }

  /** The records that go with a receiver: queued in it and not yet received. */
  function Dropped(s: State, e: Event): set<(Dev, File)> {
    set q | q in s.delivered && q !in s.received
            && (e == Disconnect(q.0) || (e.Discard? && e.d == q.0 && q.1 in e.lost))
  }

  function AfterUpload(s: State, u: nat, a: UploadStep): State
    requires UploadEnabled(s, u, a)
  {
    match a
    case Stamp(f) => s.(uploads := s.uploads[u := Upload(f, Audience(s, f), false)])
    case Store =>
      var up := s.uploads[u];
      s.(files := s.files[up.file.id := up.file],
         uploads := s.uploads[u := up.(stored := true)],
         owed := OwedAfterStore(s, up))
    case Broadcast =>
      s.(uploads := s.uploads - {u}, delivered := s.delivered + Reached(s, s.uploads[u].file))
    case Abandon => s.(uploads := s.uploads - {u})
  }

  /** Whether the end of a sync goes on to move its device's watermark. */
  predicate Moves(s: State, x: Session)
    requires x.phase.Draining?
  {
    x.phase.cursor.maxTs > x.phase.stored && x.dev in s.devices
  }

  /** A session after its next step; `None` when it is over. */
  ghost function Onward(s: State, x: Session, p: SyncStep): Option<Phase>
    requires Ready(s, x, p)
  {
    match p
    case ReadWatermark => Some(Watermarked(Watermark(s, x.dev)))
    case ReadGroups(order) => Some(Gathering(x.phase.stored, order, []))
    case ListGroup(listing) => Some(Gathering(x.phase.stored, x.phase.todo[1..], x.phase.found + listing))
    case BeginDelivery => Some(Draining(x.phase.stored, x.phase.found, Start(From(x))))
    case Deliver =>
      Some(x.phase.(cursor := CursorStep(x.phase.listing, x.dev.device, x.phase.cursor, Alive(s, x.dev))))
    case Finish => if Moves(s, x) then Some(Fetched) else None
    case ReadClock => Some(Writing(s.now))
    case WriteBack => None
    case Abort => None
  }

  /** What a step of the session puts into its device's channel. */
  function Sent(s: State, x: Session, p: SyncStep): set<(Dev, File)> {
    if p.Deliver? && x.phase.Draining? && x.phase.cursor.pos < |x.phase.listing| then
      var f := x.phase.listing[x.phase.cursor.pos];
      if f.device != x.dev.device && Alive(s, x.dev) then {(x.dev, f)} else {}
    else {}
  }

  function Continued(sessions: map<nat, Session>, sid: nat, phase: Option<Phase>): map<nat, Session>
    requires sid in sessions
  {
    if phase.Some? then sessions[sid := sessions[sid].(phase := phase.value)] else sessions - {sid}
  }

  /** The device record is written whole, so one deleted meanwhile comes back. */
  function Rewritten(s: State, d: Dev, clock: nat): State {
    s.(devices := s.devices[d := clock], owed := if d in s.owed then s.owed else s.owed[d := {}])
  }

  ghost function AfterSync(s: State, sid: nat, p: SyncStep): State
    requires SyncEnabled(s, sid, p)
  {
    if p.Subscribe? then
      s.(subs := s.subs[p.d := true], sessions := s.sessions[sid := Session(p.d, p.since, Registered)])
    else
      var x := s.sessions[sid];
      var t := if p.WriteBack? then Rewritten(s, x.dev, x.phase.clock) else s;
      t.(sessions := Continued(s.sessions, sid, Onward(s, x, p)), delivered := s.delivered + Sent(s, x, p))
  }

  ghost function Apply(s: State, step: Step): State
    requires Enabled(s, step)
  {
    match step
    case Happens(e) => AfterEvent(s, e)
    case Uploads(u, a) => AfterUpload(s, u, a)
    case Syncs(sid, p) => AfterSync(s, sid, p)
  }

  /** Steps that are not enabled do nothing. */
  ghost function Next(s: State, step: Step): State {
    if Enabled(s, step) then Apply(s, step) else s
  }

  ghost function RunFrom(s: State, steps: seq<Step>): State {
    if steps == [] then s else Next(RunFrom(s, steps[..|steps| - 1]), steps[|steps| - 1])
  }

  // ------------------------------------------------------------ the discipline

  predicate InSession(s: State, d: Dev) {
    exists sid :: sid in s.sessions && s.sessions[sid].dev == d
  }

  /** The device's watermark has not passed an upload under way to it. */
  predicate NotPast(s: State, d: Dev, up: Upload) {
    d in up.audience ==> up.file.stamp >= Watermark(s, d)
  }

  /** What the environment must respect: a client asks for nothing later than
      its own watermark; a device keeps its channel while its initial sync runs,
      and while an upload stamped before its watermark is on its way to it; no
      storage write fails half-way through an upload in the same situations; and
      a receiver goes away only while no initial sync runs, and with nothing
      queued in it that is below the device's watermark. */
  predicate Orderly(s: State, step: Step) {
    match step
    case Happens(Unsubscribe(d)) => KeepsAway(s, d)
    case Happens(Disconnect(d)) => KeepsAway(s, d) && DropsSafely(s, step.e, d)
    case Happens(Discard(d, _)) => !InSession(s, d) && DropsSafely(s, step.e, d)
    case Uploads(u, Abandon) =>
      u in s.uploads && s.uploads[u].stored ==>
        forall d :: d in s.uploads[u].audience ==> !InSession(s, d) && NotPast(s, d, s.uploads[u])
    case Syncs(sid, ReadWatermark) =>
      sid in s.sessions ==>
        s.sessions[sid].since.None? || s.sessions[sid].since.value <= Watermark(s, s.sessions[sid].dev)
    case _ => true
  }

  predicate DropsSafely(s: State, e: Event, d: Dev) {
    d in s.owed ==> forall f :: f in s.owed[d] && (d, f) in Dropped(s, e) ==> f.stamp >= Watermark(s, d)
  }

  /** Nothing that is under way relies on the device's channel. */
  predicate KeepsAway(s: State, d: Dev) {
    !InSession(s, d) && forall u :: u in s.uploads ==> NotPast(s, d, s.uploads[u])
  }

  ghost predicate OrderlyRun(s: State, steps: seq<Step>) {
    steps == [] ||
    (OrderlyRun(s, steps[..|steps| - 1]) && Orderly(RunFrom(s, steps[..|steps| - 1]), steps[|steps| - 1]))
  }

  // -------------------------------------------------------------- the invariant

  predicate Owes(s: State, d: Dev, f: File) {
    d in s.owed && f in s.owed[d]
  }

  /** A stored record the device is owed and was never sent. */
  predicate Waiting(s: State, d: Dev, f: File) {
    Owes(s, d, f) && (d, f) !in s.delivered
  }

  predicate IsFor(up: Upload, d: Dev, f: File) {
    up.stored && up.file == f && d in up.audience
  }

  /** The broadcast of the stored record is still to come. */
  predicate Awaits(s: State, d: Dev, f: File) {
    exists u :: u in s.uploads && IsFor(s.uploads[u], d, f)
  }

  /** The session has not yet passed over the record. */
  predicate Ahead(x: Session, f: File) {
    match x.phase
    case Registered => true
    case Watermarked(_) => f.stamp >= From(x)
    case Gathering(_, todo, found) => f.stamp >= From(x) && (f.group in todo || f in found)
    case Draining(_, listing, cursor) => cursor.pos <= |listing| && f in listing[cursor.pos..]
    case Fetched => false
    case Writing(_) => false
  }

  predicate Clocked(s: State, x: Session) {
    HashLike(x.dev) && (x.phase.Writing? ==> x.phase.clock <= s.now)
  }

  ghost predicate Registry(s: State) {
    && KeyedById(s.files)
    && s.owed.Keys == s.devices.Keys
    && (forall d :: d in s.devices ==> HashLike(d) && s.devices[d] <= s.now)
    && (forall sid :: sid in s.sessions ==> Clocked(s, s.sessions[sid]))
  }

  ghost predicate Channels(s: State) {
    forall sid :: sid in s.sessions ==> Alive(s, s.sessions[sid].dev)
  }

  predicate FitsAudience(s: State, up: Upload) {
    forall d :: d in up.audience ==> d in s.devices && Obliges(s, d, up.file)
  }

  ghost predicate Obligations(s: State) {
    && (forall d, f :: Owes(s, d, f) ==> Obliges(s, d, f) && Stored(s, f))
    && (forall u :: u in s.uploads ==> FitsAudience(s, s.uploads[u]))
  }

  /** An upload under way will be sent to each device it is for, or the device
      has not synced past it. */
  predicate OnItsWay(s: State, up: Upload) {
    forall d :: d in up.audience ==> Alive(s, d) || up.file.stamp >= Watermark(s, d)
  }

  ghost predicate Safe(s: State) {
    && Registry(s) && Channels(s) && Obligations(s)
    && (forall u :: u in s.uploads ==> OnItsWay(s, s.uploads[u]))
    && (forall d, f :: Waiting(s, d, f) ==> Awaits(s, d, f) || f.stamp >= Watermark(s, d))
    && (forall sid, f :: sid in s.sessions && Waiting(s, s.sessions[sid].dev, f) ==>
          Awaits(s, s.sessions[sid].dev, f) || Ahead(s.sessions[sid], f))
  }

  // ------------------------------------------------- the parts every step keeps

  lemma EventKeepsRegistry(s: State, e: Event)
    requires Registry(s) && EventEnabled(s, e)
    ensures Registry(AfterEvent(s, e))
  {
  }

  lemma SyncKeepsRegistry(s: State, sid: nat, p: SyncStep)
    requires Registry(s) && SyncEnabled(s, sid, p)
    ensures Registry(AfterSync(s, sid, p))
  {
    if !p.Subscribe? {
      assert Clocked(s, s.sessions[sid]);
    }
  }

  lemma UploadKeepsRegistry(s: State, u: nat, a: UploadStep)
    requires Registry(s) && UploadEnabled(s, u, a)
    ensures Registry(AfterUpload(s, u, a))
  {
  }

  lemma RegistryKept(s: State, step: Step)
    requires Registry(s) && Enabled(s, step)
    ensures Registry(Apply(s, step))
  {
    match step
    case Happens(e) => EventKeepsRegistry(s, e);
    case Uploads(u, a) => UploadKeepsRegistry(s, u, a);
    case Syncs(sid, p) => SyncKeepsRegistry(s, sid, p);
  }

  lemma EventKeepsChannels(s: State, e: Event)
    requires Channels(s) && EventEnabled(s, e) && Orderly(s, Happens(e))
    ensures Channels(AfterEvent(s, e))
  {
  }

  lemma UploadKeepsChannels(s: State, u: nat, a: UploadStep)
    requires Channels(s) && UploadEnabled(s, u, a)
    ensures Channels(AfterUpload(s, u, a))
  {
  }

  lemma SyncKeepsChannels(s: State, sid: nat, p: SyncStep)
    requires Channels(s) && SyncEnabled(s, sid, p)
    ensures Channels(AfterSync(s, sid, p))
  {
    if !p.Subscribe? {
      assert Alive(s, s.sessions[sid].dev);
    }
  }

  lemma ChannelsKept(s: State, step: Step)
    requires Channels(s) && Enabled(s, step) && Orderly(s, step)
    ensures Channels(Apply(s, step))
  {
    match step
    case Happens(e) => EventKeepsChannels(s, e);
    case Uploads(u, a) => UploadKeepsChannels(s, u, a);
    case Syncs(sid, p) => SyncKeepsChannels(s, sid, p);
  }

  // ---------------------------------------------------------------- obligations

  lemma EventKeepsObligations(s: State, e: Event)
    requires Obligations(s) && EventEnabled(s, e)
    ensures Obligations(AfterEvent(s, e))
  {
    var t := AfterEvent(s, e);
    forall d, f | Owes(t, d, f)
      ensures Obliges(t, d, f) && Stored(t, f)
    {
      assert Owes(s, d, f);
    }
    forall u | u in t.uploads
      ensures FitsAudience(t, t.uploads[u])
    {
      assert FitsAudience(s, s.uploads[u]);
    }
  }

  lemma UploadKeepsObligations(s: State, u: nat, a: UploadStep)
    requires Obligations(s) && UploadEnabled(s, u, a)
    ensures Obligations(AfterUpload(s, u, a))
  {
    var t := AfterUpload(s, u, a);
    forall d, f | Owes(t, d, f)
      ensures Obliges(t, d, f) && Stored(t, f)
    {
      if !Owes(s, d, f) {
        assert FitsAudience(s, s.uploads[u]);
      }
    }
    forall v | v in t.uploads
      ensures FitsAudience(t, t.uploads[v])
    {
      assert v in s.uploads ==> FitsAudience(s, s.uploads[v]);
    }
  }

  lemma SyncKeepsObligations(s: State, sid: nat, p: SyncStep)
    requires Obligations(s) && SyncEnabled(s, sid, p)
    ensures Obligations(AfterSync(s, sid, p))
  {
    var t := AfterSync(s, sid, p);
    forall d, f | Owes(t, d, f)
      ensures Obliges(t, d, f) && Stored(t, f)
    {
      assert Owes(s, d, f);
    }
    forall u | u in t.uploads
      ensures FitsAudience(t, t.uploads[u])
    {
      assert FitsAudience(s, s.uploads[u]);
    }
  }

  lemma ObligationsKept(s: State, step: Step)
    requires Obligations(s) && Enabled(s, step)
    ensures Obligations(Apply(s, step))
  {
    match step
    case Happens(e) => EventKeepsObligations(s, e);
    case Uploads(u, a) => UploadKeepsObligations(s, u, a);
    case Syncs(sid, p) => SyncKeepsObligations(s, sid, p);
  }

  // ---------------------------------------------------------- uploads under way

  lemma UploadKeepsOnItsWay(s: State, v: nat, a: UploadStep, u: nat)
    requires Registry(s) && UploadEnabled(s, v, a) && u in AfterUpload(s, v, a).uploads
    requires u in s.uploads ==> OnItsWay(s, s.uploads[u])
    ensures OnItsWay(AfterUpload(s, v, a), AfterUpload(s, v, a).uploads[u])
  {
  }

  lemma EventKeepsOnItsWay(s: State, e: Event, u: nat)
    requires EventEnabled(s, e) && Orderly(s, Happens(e)) && u in AfterEvent(s, e).uploads
    requires u in s.uploads ==> OnItsWay(s, s.uploads[u])
    ensures OnItsWay(AfterEvent(s, e), AfterEvent(s, e).uploads[u])
  {
    var up := AfterEvent(s, e).uploads[u];
    assert up.file == s.uploads[u].file && up.audience <= s.uploads[u].audience;
  }

  lemma SyncKeepsOnItsWay(s: State, sid: nat, p: SyncStep, up: Upload)
    requires Channels(s) && SyncEnabled(s, sid, p) && OnItsWay(s, up)
    ensures OnItsWay(AfterSync(s, sid, p), up)
  {
    if !p.Subscribe? {
      assert Alive(s, s.sessions[sid].dev);
    }
  }

  lemma UploadsStayOnTheirWay(s: State, step: Step, u: nat)
    requires Registry(s) && Channels(s) && Enabled(s, step) && Orderly(s, step)
    requires u in s.uploads ==> OnItsWay(s, s.uploads[u])
    ensures u in Apply(s, step).uploads ==> OnItsWay(Apply(s, step), Apply(s, step).uploads[u])
  {
    if u in Apply(s, step).uploads {
      match step
      case Happens(e) => EventKeepsOnItsWay(s, e, u);
      case Uploads(v, a) => UploadKeepsOnItsWay(s, v, a, u);
      case Syncs(sid, p) =>
        SyncKeepsUploads(s, sid, p);
        SyncKeepsOnItsWay(s, sid, p, s.uploads[u]);
    }
  }

  // ------------------------------------------------------------ waiting records

  /** A step after which a record waits that did not wait before: its store. */
  predicate Introduces(s: State, step: Step, d: Dev, f: File) {
    && step.Uploads? && step.a.Store? && step.u in s.uploads
    && s.uploads[step.u].file == f && d in s.uploads[step.u].audience
  }

  /** A record that was queued for the device goes with its receiver. */
  predicate Drops(s: State, step: Step, d: Dev, f: File) {
    step.Happens? && Owes(s, d, f) && (d, f) in Dropped(s, step.e)
  }

  /** The step that ends the wait for a broadcast. */
  predicate Concludes(s: State, step: Step, d: Dev, f: File) {
    && step.Uploads? && (step.a.Broadcast? || step.a.Abandon?)
    && step.u in s.uploads && IsFor(s.uploads[step.u], d, f)
  }

  lemma EventWaiting(s: State, e: Event, d: Dev, f: File)
    requires EventEnabled(s, e) && Waiting(AfterEvent(s, e), d, f)
    ensures Waiting(s, d, f) || Drops(s, Happens(e), d, f)
    ensures Awaits(s, d, f) ==> Awaits(AfterEvent(s, e), d, f)
  {
    var t := AfterEvent(s, e);
    assert Owes(s, d, f);
    if Awaits(s, d, f) {
      var u :| u in s.uploads && IsFor(s.uploads[u], d, f);
      assert IsFor(t.uploads[u], d, f);
    }
  }

  lemma UploadWaiting(s: State, u: nat, a: UploadStep, d: Dev, f: File)
    requires UploadEnabled(s, u, a) && Waiting(AfterUpload(s, u, a), d, f)
    ensures Waiting(s, d, f) || Introduces(s, Uploads(u, a), d, f)
    ensures Introduces(s, Uploads(u, a), d, f) ==> Awaits(AfterUpload(s, u, a), d, f)
    ensures Awaits(s, d, f) ==> Awaits(AfterUpload(s, u, a), d, f) || Concludes(s, Uploads(u, a), d, f)
  {
    var t := AfterUpload(s, u, a);
    if Introduces(s, Uploads(u, a), d, f) {
      assert IsFor(t.uploads[u], d, f);
    }
    if Awaits(s, d, f) {
      var v :| v in s.uploads && IsFor(s.uploads[v], d, f);
      assert v != u ==> IsFor(t.uploads[v], d, f);
    }
  }

  lemma SyncWaiting(s: State, sid: nat, p: SyncStep, d: Dev, f: File)
    requires SyncEnabled(s, sid, p) && Waiting(AfterSync(s, sid, p), d, f)
    ensures Waiting(s, d, f) && (Awaits(s, d, f) <==> Awaits(AfterSync(s, sid, p), d, f))
  {
  }

  /** Waiting records of the next state waited before, were just stored or went
      with a receiver; and a broadcast to come still comes, unless this step was
      the last of it. */
  lemma WaitingBefore(s: State, step: Step, d: Dev, f: File)
    requires Enabled(s, step) && Waiting(Apply(s, step), d, f)
    ensures Waiting(s, d, f) || Introduces(s, step, d, f) || Drops(s, step, d, f)
    ensures Introduces(s, step, d, f) ==> Awaits(Apply(s, step), d, f)
    ensures Awaits(s, d, f) ==> Awaits(Apply(s, step), d, f) || Concludes(s, step, d, f)
  {
    match step
    case Happens(e) => EventWaiting(s, e, d, f);
    case Uploads(u, a) => UploadWaiting(s, u, a, d, f);
    case Syncs(sid, p) => SyncWaiting(s, sid, p, d, f);
  }

  lemma EventKeepsWatermark(s: State, e: Event, d: Dev, f: File)
    requires EventEnabled(s, e) && Waiting(AfterEvent(s, e), d, f) && f.stamp >= Watermark(s, d)
    ensures f.stamp >= Watermark(AfterEvent(s, e), d)
  {
  }

  lemma DroppedSafely(s: State, step: Step, d: Dev, f: File)
    requires Enabled(s, step) && Orderly(s, step) && Drops(s, step, d, f)
    ensures f.stamp >= Watermark(s, d) && !InSession(s, d)
  {
  }

  /** A write-back raises the watermark only of a device for which nothing waits. */
  lemma SyncKeepsWatermark(s: State, sid: nat, p: SyncStep, d: Dev, f: File)
    requires Safe(s) && SyncEnabled(s, sid, p) && Waiting(s, d, f) && !Awaits(s, d, f)
    ensures f.stamp >= Watermark(AfterSync(s, sid, p), d)
  {
    assert p.WriteBack? ==> !Ahead(s.sessions[sid], f);
  }

  /** The last step of an upload: the device is sent the record, or has not
      synced past it and is in no session. */
  lemma ConcludedSafely(s: State, step: Step, d: Dev, f: File)
    requires Safe(s) && Enabled(s, step) && Orderly(s, step)
    requires Concludes(s, step, d, f) && Waiting(Apply(s, step), d, f)
    ensures f.stamp >= Watermark(s, d) && !InSession(s, d)
    ensures step.a.Broadcast? ==> !Alive(s, d)
  {
    var up := s.uploads[step.u];
    assert OnItsWay(s, up) && FitsAudience(s, up);
    if step.a.Broadcast? {
      FileTestExact(d);
      assert Addressed(d, f.account, Some(f.device));
      assert Alive(s, d) ==> (d, f) in Reached(s, f);
    }
  }

  lemma WatermarkKept(s: State, step: Step, d: Dev, f: File)
    requires Safe(s) && Enabled(s, step) && Orderly(s, step)
    requires var t := Apply(s, step); Waiting(t, d, f) && !Awaits(t, d, f)
    ensures f.stamp >= Watermark(Apply(s, step), d)
  {
    WaitingBefore(s, step, d, f);
    match step
    case Happens(e) =>
      EventWaiting(s, e, d, f);
      if Drops(s, step, d, f) {
        DroppedSafely(s, step, d, f);
      }
      EventKeepsWatermark(s, e, d, f);
    case Uploads(u, a) =>
      if Concludes(s, step, d, f) {
        ConcludedSafely(s, step, d, f);
      }
    case Syncs(sid, p) =>
      SyncWaiting(s, sid, p, d, f);
      SyncKeepsWatermark(s, sid, p, d, f);
  }

  // ----------------------------------------------------------- sessions under way

  /** Listing a group keeps a stored record ahead. */
  lemma ListingKeepsAhead(s: State, x: Session, p: SyncStep, f: File)
    requires Ready(s, x, p) && (p.ReadGroups? || p.ListGroup?) && Ahead(x, f)
    requires Stored(s, f) && Obliges(s, x.dev, f)
    ensures Ahead(x.(phase := Onward(s, x, p).value), f)
  {
    if p.ListGroup? && f.group == x.phase.todo[0] {
      assert f in Listing(s.files, x.dev.account, f.group, From(x));
    }
  }

  /** Sending keeps an unsent record ahead: it is not the device's own, the
      channel is up, and so it is passed only by being sent. */
  lemma SendingKeepsAhead(s: State, x: Session, f: File)
    requires Ready(s, x, Deliver) && Ahead(x, f) && Alive(s, x.dev)
    requires f.device != x.dev.device && (x.dev, f) !in Sent(s, x, Deliver)
    ensures Ahead(x.(phase := Onward(s, x, Deliver).value), f)
  {
    var rest := x.phase.listing[x.phase.cursor.pos..];
    assert rest[1..] == x.phase.listing[x.phase.cursor.pos + 1..];
    assert rest == [rest[0]] + rest[1..];
  }

  lemma OnwardKeepsAhead(s: State, x: Session, p: SyncStep, f: File)
    requires Ready(s, x, p) && Onward(s, x, p).Some? && Ahead(x, f) && Alive(s, x.dev)
    requires Stored(s, f) && Obliges(s, x.dev, f) && (x.dev, f) !in Sent(s, x, p)
    requires p.ReadWatermark? ==>
      f.stamp >= Watermark(s, x.dev) && (x.since.None? || x.since.value <= Watermark(s, x.dev))
    ensures Ahead(x.(phase := Onward(s, x, p).value), f)
  {
    if p.ReadGroups? || p.ListGroup? {
      ListingKeepsAhead(s, x, p, f);
    } else if p.Deliver? {
      SendingKeepsAhead(s, x, f);
    }
  }

  lemma SyncKeepsAhead(s: State, step: Step, sid: nat, f: File)
    requires Safe(s) && step.Syncs? && Enabled(s, step) && Orderly(s, step)
    requires var t := Apply(s, step);
      sid in t.sessions && Waiting(t, t.sessions[sid].dev, f) && !Awaits(t, t.sessions[sid].dev, f)
    ensures Ahead(Apply(s, step).sessions[sid], f)
  {
    var t := Apply(s, step);
    var d := t.sessions[sid].dev;
    SyncWaiting(s, step.sid, step.p, d, f);
    if sid in s.sessions {
      var x := s.sessions[sid];
      assert Ahead(x, f) && Alive(s, d) && Obliges(s, d, f) && Stored(s, f);
      if sid == step.sid {
        assert (d, f) !in Sent(s, x, step.p);
        OnwardKeepsAhead(s, x, step.p, f);
      }
    }
  }

  lemma OnlySyncsTouchSessions(s: State, step: Step)
    requires Enabled(s, step) && !step.Syncs?
    ensures Apply(s, step).sessions == s.sessions
  {
    match step
    case Happens(e) => EventKeepsSessions(s, e);
    case Uploads(u, a) => UploadKeepsSessions(s, u, a);
  }

  lemma EventKeepsSessions(s: State, e: Event)
    requires EventEnabled(s, e)
    ensures AfterEvent(s, e).sessions == s.sessions
  {
  }

  lemma UploadKeepsSessions(s: State, u: nat, a: UploadStep)
    requires UploadEnabled(s, u, a)
    ensures AfterUpload(s, u, a).sessions == s.sessions
  {
  }

  lemma AheadKept(s: State, step: Step, sid: nat, f: File)
    requires Safe(s) && Enabled(s, step) && Orderly(s, step)
    requires var t := Apply(s, step);
      sid in t.sessions && Waiting(t, t.sessions[sid].dev, f) && !Awaits(t, t.sessions[sid].dev, f)
    ensures Ahead(Apply(s, step).sessions[sid], f)
  {
    if step.Syncs? {
      SyncKeepsAhead(s, step, sid, f);
    } else {
      OnlySyncsTouchSessions(s, step);
      var d := s.sessions[sid].dev;
      WaitingBefore(s, step, d, f);
      if Drops(s, step, d, f) {
        DroppedSafely(s, step, d, f);
      } else if Concludes(s, step, d, f) {
        ConcludedSafely(s, step, d, f);
      }
    }
  }

  // --------------------------------------------------------------- whole runs

  lemma SafeKept(s: State, step: Step)
    requires Safe(s) && Orderly(s, step)
    ensures Safe(Next(s, step))
  {
    if Enabled(s, step) {
      var t := Apply(s, step);
      RegistryKept(s, step);
      ChannelsKept(s, step);
      ObligationsKept(s, step);
      forall u | u in t.uploads
        ensures OnItsWay(t, t.uploads[u])
      {
        UploadsStayOnTheirWay(s, step, u);
      }
      forall d, f | Waiting(t, d, f) && !Awaits(t, d, f)
        ensures f.stamp >= Watermark(t, d)
      {
        WatermarkKept(s, step, d, f);
      }
      forall sid, f | sid in t.sessions && Waiting(t, t.sessions[sid].dev, f) && !Awaits(t, t.sessions[sid].dev, f)
        ensures Ahead(t.sessions[sid], f)
      {
        AheadKept(s, step, sid, f);
      }
    }
  }

  lemma {:induction false} SafeRun(start: nat, steps: seq<Step>)
    requires OrderlyRun(Init(start), steps)
    ensures Safe(RunFrom(Init(start), steps))
  {
    if steps != [] {
      var before := steps[..|steps| - 1];
      SafeRun(start, before);
      SafeKept(RunFrom(Init(start), before), steps[|steps| - 1]);
    }
  }

  // -------------------------------------------------- what "owed" means on a run

  /** All the states of a run. */
  ghost function States(start: nat, steps: seq<Step>): (r: seq<State>)
    ensures |r| == |steps| + 1
  {
    seq(|steps| + 1, i requires 0 <= i <= |steps| => RunFrom(Init(start), steps[..i]))
  }

  /** The device is registered anew or deleted, or the record's group goes away. */
  predicate Withdraws(step: Step, d: Dev, f: File) {
    step == Happens(RegisterDevice(d)) || step == Happens(DeleteDevice(d)) || step == Happens(DeleteGroup(f.group))
  }

  /** Something else, or nothing, is stored in the record's place. */
  predicate Replaces(s: State, step: Step, f: File) {
    || step == Happens(DeleteFile(f.id))
    || (step.Uploads? && step.a.Store? && UploadEnabled(s, step.u, step.a) && s.uploads[step.u].file.id == f.id)
  }

  /** Upload `u` of the record is stamped, not yet stored, and for the device. */
  predicate Coming(s: State, u: nat, d: Dev, f: File) {
    u in s.uploads && !s.uploads[u].stored && s.uploads[u].file == f && d in s.uploads[u].audience
  }

  /** The record is stamped while the device is registered, by another device of
      its account, for a registered group. */
  predicate StampsFor(s: State, step: Step, u: nat, d: Dev, f: File) {
    step == Uploads(u, Stamp(f)) && UploadEnabled(s, u, step.a) && d in s.devices && Obliges(s, d, f)
  }

  /** The upload goes on, or is no longer for the device. */
  predicate StopsComing(s: State, step: Step, u: nat, d: Dev, f: File) {
    Withdraws(step, d, f) || (step.Uploads? && step.u == u && UploadEnabled(s, u, step.a))
  }

  predicate StoresFor(s: State, step: Step, d: Dev, f: File) {
    step.Uploads? && step.a.Store? && Coming(s, step.u, d, f)
  }

  lemma EventComing(s: State, e: Event, u: nat, d: Dev, f: File)
    requires EventEnabled(s, e)
    ensures Coming(AfterEvent(s, e), u, d, f) <==> Coming(s, u, d, f) && !Withdraws(Happens(e), d, f)
  {
  }

  lemma UploadComing(s: State, v: nat, a: UploadStep, u: nat, d: Dev, f: File)
    requires UploadEnabled(s, v, a)
    ensures Coming(AfterUpload(s, v, a), u, d, f)
       <==> (Coming(s, u, d, f) && u != v) || (u == v && a == Stamp(f) && d in Audience(s, f))
  {
  }

  lemma ComingStep(s: State, step: Step, u: nat, d: Dev, f: File)
    requires Registry(s) && Obligations(s)
    ensures Coming(Next(s, step), u, d, f)
       <==> StampsFor(s, step, u, d, f) || (Coming(s, u, d, f) && !StopsComing(s, step, u, d, f))
  {
    assert Coming(s, u, d, f) ==> FitsAudience(s, s.uploads[u]);
    if Enabled(s, step) {
      match step
      case Happens(e) => EventComing(s, e, u, d, f);
      case Uploads(v, a) => UploadComing(s, v, a, u, d, f);
      case Syncs(sid, p) => SyncKeepsUploads(s, sid, p);
    }
  }

  lemma SyncKeepsUploads(s: State, sid: nat, p: SyncStep)
    requires SyncEnabled(s, sid, p)
    ensures AfterSync(s, sid, p).uploads == s.uploads
  {
  }

  lemma OwedStep(s: State, step: Step, d: Dev, f: File)
    requires Registry(s) && Obligations(s)
    ensures Owes(Next(s, step), d, f)
       <==> StoresFor(s, step, d, f) || (Owes(s, d, f) && !Withdraws(step, d, f) && !Replaces(s, step, f))
  {
    if Enabled(s, step) {
      match step
      case Happens(e) => EventOwed(s, e, d, f);
      case Uploads(u, a) => UploadOwed(s, u, a, d, f);
      case Syncs(sid, p) => SyncOwed(s, sid, p, d, f);
    }
  }

  lemma EventOwed(s: State, e: Event, d: Dev, f: File)
    requires EventEnabled(s, e) && Obligations(s)
    ensures Owes(AfterEvent(s, e), d, f)
       <==> Owes(s, d, f) && !Withdraws(Happens(e), d, f) && !Replaces(s, Happens(e), f)
  {
  }

  lemma UploadOwed(s: State, u: nat, a: UploadStep, d: Dev, f: File)
    requires UploadEnabled(s, u, a) && Registry(s) && Obligations(s)
    ensures Owes(AfterUpload(s, u, a), d, f)
       <==> (Owes(s, d, f) && !Replaces(s, Uploads(u, a), f)) || (a.Store? && Coming(s, u, d, f))
  {
    if a.Store? {
      assert FitsAudience(s, s.uploads[u]);
    }
  }

  lemma SyncOwed(s: State, sid: nat, p: SyncStep, d: Dev, f: File)
    requires SyncEnabled(s, sid, p)
    ensures Owes(AfterSync(s, sid, p), d, f) <==> Owes(s, d, f)
  {
  }

  lemma {:induction false} RegistryRun(start: nat, steps: seq<Step>)
    ensures Registry(RunFrom(Init(start), steps)) && Obligations(RunFrom(Init(start), steps))
  {
    if steps != [] {
      var before := steps[..|steps| - 1];
      RegistryRun(start, before);
      var s := RunFrom(Init(start), before);
      if Enabled(s, steps[|steps| - 1]) {
        RegistryKept(s, steps[|steps| - 1]);
        ObligationsKept(s, steps[|steps| - 1]);
      }
    }
  }

  lemma StatesNext(start: nat, steps: seq<Step>, i: nat)
    requires i < |steps|
    ensures States(start, steps)[i + 1] == Next(States(start, steps)[i], steps[i])
    ensures Registry(States(start, steps)[i]) && Obligations(States(start, steps)[i])
  {
    assert steps[..i + 1][..i] == steps[..i];
    RegistryRun(start, steps[..i]);
  }

  lemma StatesEnds(start: nat, steps: seq<Step>)
    ensures States(start, steps)[0] == Init(start) && States(start, steps)[|steps|] == RunFrom(Init(start), steps)
  {
    assert steps[..|steps|] == steps;
  }

  function IsComing(u: nat, d: Dev, f: File): State -> bool {
    (s: State) => Coming(s, u, d, f)
  }

  function Stamping(u: nat, d: Dev, f: File): (State, Step) -> bool {
    (s: State, step: Step) => StampsFor(s, step, u, d, f)
  }

  function Stopping(u: nat, d: Dev, f: File): (State, Step) -> bool {
    (s: State, step: Step) => StopsComing(s, step, u, d, f)
  }

  lemma ComingCarries(s: State, step: Step, u: nat, d: Dev, f: File)
    requires Registry(s) && Obligations(s)
    ensures Carries(IsComing(u, d, f), Stamping(u, d, f), Stopping(u, d, f), s, step, Next(s, step))
  {
    ComingStep(s, step, u, d, f);
  }

  /** An upload is coming for a device exactly if it was stamped for it, and has
      neither gone on since nor ceased to be for it. */
  lemma {:induction false} ComingExactly(start: nat, steps: seq<Step>, u: nat, d: Dev, f: File)
    ensures Coming(RunFrom(Init(start), steps), u, d, f)
       <==> exists i: nat :: Since(States(start, steps), steps, Stamping(u, d, f), Stopping(u, d, f), i)
  {
    var states := States(start, steps);
    StatesEnds(start, steps);
    forall i | 0 <= i < |steps|
      ensures Carries(IsComing(u, d, f), Stamping(u, d, f), Stopping(u, d, f), states[i], steps[i], states[i + 1])
    {
      StatesNext(start, steps, i);
      ComingCarries(states[i], steps[i], u, d, f);
    }
    HoldsSince(states, steps, IsComing(u, d, f), Stamping(u, d, f), Stopping(u, d, f));
  }

  function IsOwed(d: Dev, f: File): State -> bool {
    (s: State) => Owes(s, d, f)
  }

  function Storing(d: Dev, f: File): (State, Step) -> bool {
    (s: State, step: Step) => StoresFor(s, step, d, f)
  }

  function Releasing(d: Dev, f: File): (State, Step) -> bool {
    (s: State, step: Step) => Withdraws(step, d, f) || Replaces(s, step, f)
  }

  /** Step `k` stored the record while it was coming for the device; it is still
      the stored one, and nothing ended the obligation. */
  ghost predicate OwedSince(start: nat, steps: seq<Step>, d: Dev, f: File, k: nat) {
    Since(States(start, steps), steps, Storing(d, f), Releasing(d, f), k)
  }

  lemma OwedCarries(s: State, step: Step, d: Dev, f: File)
    requires Registry(s) && Obligations(s)
    ensures Carries(IsOwed(d, f), Storing(d, f), Releasing(d, f), s, step, Next(s, step))
  {
    OwedStep(s, step, d, f);
  }

  lemma {:induction false} OwedExactly(start: nat, steps: seq<Step>, d: Dev, f: File)
    ensures Owes(RunFrom(Init(start), steps), d, f)
       <==> exists k: nat :: Since(States(start, steps), steps, Storing(d, f), Releasing(d, f), k)
  {
    var states := States(start, steps);
    StatesEnds(start, steps);
    forall i | 0 <= i < |steps|
      ensures Carries(IsOwed(d, f), Storing(d, f), Releasing(d, f), states[i], steps[i], states[i + 1])
    {
      StatesNext(start, steps, i);
      OwedCarries(states[i], steps[i], d, f);
    }
    HoldsSince(states, steps, IsOwed(d, f), Storing(d, f), Releasing(d, f));
  }

  // ------------------------------------------------------------------- theorems

  predicate Queued(s: State, d: Dev, f: File) {
    (d, f) in s.delivered && (d, f) !in s.received
  }

  /** No lost update: in every orderly run a stored record the device is owed was
      received, or waits for it in a channel of its, or is still to be broadcast,
      or is at or above the device's watermark, so that the next initial sync
      lists it. */
  lemma NoLostUpdate(start: nat, steps: seq<Step>, d: Dev, f: File, k: nat)
    requires OrderlyRun(Init(start), steps) && OwedSince(start, steps, d, f, k)
    ensures var s := RunFrom(Init(start), steps);
      && Stored(s, f)
      && ((d, f) in s.received || Queued(s, d, f) || Awaits(s, d, f) || f.stamp >= Watermark(s, d))
  {
    SafeRun(start, steps);
    OwedExactly(start, steps, d, f);
    var s := RunFrom(Init(start), steps);
    assert Owes(s, d, f);
    assert (d, f) in s.delivered || Waiting(s, d, f);
  }

  predicate PastSending(s: State, sid: nat) {
    sid in s.sessions &&
    match s.sessions[sid].phase
    case Draining(_, listing, cursor) => cursor.pos == |listing|
    case Fetched => true
    case Writing(_) => true
    case _ => false
  }

  lemma NothingLeft(s: State, sid: nat, f: File)
    requires Safe(s) && PastSending(s, sid) && Waiting(s, s.sessions[sid].dev, f)
    ensures Awaits(s, s.sessions[sid].dev, f)
  {
    assert !Ahead(s.sessions[sid], f);
  }

  lemma BroadcastReaches(s: State, u: nat, d: Dev)
    requires Registry(s) && Obligations(s) && u in s.uploads && d in s.uploads[u].audience && Alive(s, d)
    ensures (d, s.uploads[u].file) in Reached(s, s.uploads[u].file)
  {
    assert FitsAudience(s, s.uploads[u]);
    FileTestExact(d);
  }

  /** From when an initial sync has sent its last file until it has written the
      new watermark, every stored record its device is owed has been put into
      the device's channel, or its broadcast is still to come and will do so. */
  lemma CompletedSyncDelivers(start: nat, steps: seq<Step>, sid: nat, f: File, k: nat)
    requires OrderlyRun(Init(start), steps) && PastSending(RunFrom(Init(start), steps), sid)
    requires OwedSince(start, steps, RunFrom(Init(start), steps).sessions[sid].dev, f, k)
    ensures var s := RunFrom(Init(start), steps);
      var d := s.sessions[sid].dev;
      (d, f) in s.delivered || exists u :: u in s.uploads && IsFor(s.uploads[u], d, f) && (d, f) in Reached(s, f)
  {
    var s := RunFrom(Init(start), steps);
    var d := s.sessions[sid].dev;
    SafeRun(start, steps);
    OwedExactly(start, steps, d, f);
    assert Owes(s, d, f);
    if Waiting(s, d, f) {
      NothingLeft(s, sid, f);
      var u :| u in s.uploads && IsFor(s.uploads[u], d, f);
      BroadcastReaches(s, u, d);
    }
  }

  // ------------------------------------------------ nothing is sent astray

  /** All the records that were ever stored in the run. */
  ghost function EverStored(start: nat, steps: seq<Step>): set<File> {
    if steps == [] then {}
    else EverStored(start, steps[..|steps| - 1]) + RunFrom(Init(start), steps).files.Values
  }

  /** What a session has found is of its account, and was stored. */
  predicate FoundRightly(x: Session, known: set<File>) {
    match x.phase
    case Gathering(_, _, found) => forall f :: f in found ==> f.account == x.dev.account && f in known
    case Draining(_, listing, _) => forall f :: f in listing ==> f.account == x.dev.account && f in known
    case _ => true
  }

  predicate SentRightly(sent: set<(Dev, File)>, known: set<File>) {
    forall q :: q in sent ==> Addressed(q.0, q.1.account, Some(q.1.device)) && q.1 in known
  }

  ghost predicate Genuine(s: State, known: set<File>) {
    && (forall d :: d in s.subs ==> HashLike(d))
    && s.files.Values <= known
    && (forall u :: u in s.uploads && s.uploads[u].stored ==> s.uploads[u].file in known)
    && (forall sid :: sid in s.sessions ==> FoundRightly(s.sessions[sid], known))
    && SentRightly(s.delivered, known) && SentRightly(s.received, known)
  }

  lemma EventKeepsGenuine(s: State, e: Event, known: set<File>)
    requires Genuine(s, known) && EventEnabled(s, e)
    ensures Genuine(AfterEvent(s, e), known)
  {
    assert AfterEvent(s, e).files.Values <= s.files.Values;
  }

  lemma BroadcastKeepsGenuine(s: State, u: nat, known: set<File>)
    requires Genuine(s, known) && UploadEnabled(s, u, Broadcast)
    ensures Genuine(AfterUpload(s, u, Broadcast), known)
  {
    var f := s.uploads[u].file;
    forall q | q in Reached(s, f)
      ensures Addressed(q.0, q.1.account, Some(q.1.device)) && q.1 in known
    {
      FileTestExact(q.0);
    }
  }

  lemma UploadKeepsGenuine(s: State, u: nat, a: UploadStep, known: set<File>, more: set<File>)
    requires Genuine(s, known) && UploadEnabled(s, u, a)
    requires more == known + AfterUpload(s, u, a).files.Values
    ensures Genuine(AfterUpload(s, u, a), more)
  {
    if a.Broadcast? {
      BroadcastKeepsGenuine(s, u, known);
    } else if a.Store? {
      var f := s.uploads[u].file;
      assert AfterUpload(s, u, a).files[f.id] == f;
    }
  }

  lemma OnwardFindsRightly(s: State, x: Session, p: SyncStep, known: set<File>)
    requires Ready(s, x, p) && Onward(s, x, p).Some? && FoundRightly(x, known) && s.files.Values <= known
    ensures FoundRightly(x.(phase := Onward(s, x, p).value), known)
  {
    if p.ListGroup? {
      forall f | f in p.listing
        ensures f.account == x.dev.account && f in known
      {
        assert f in Listing(s.files, x.dev.account, x.phase.todo[0], From(x));
      }
    }
  }

  lemma SyncKeepsGenuine(s: State, sid: nat, p: SyncStep, known: set<File>)
    requires Genuine(s, known) && SyncEnabled(s, sid, p)
    ensures Genuine(AfterSync(s, sid, p), known)
  {
    if !p.Subscribe? {
      var x := s.sessions[sid];
      assert FoundRightly(x, known);
      if Onward(s, x, p).Some? {
        OnwardFindsRightly(s, x, p, known);
      }
      assert SentRightly(Sent(s, x, p), known);
    }
  }

  lemma GenuineMore(s: State, known: set<File>, more: set<File>)
    requires Genuine(s, known) && known <= more
    ensures Genuine(s, more)
  {
    forall sid | sid in s.sessions
      ensures FoundRightly(s.sessions[sid], more)
    {
      assert FoundRightly(s.sessions[sid], known);
    }
  }

  lemma GenuineKept(s: State, step: Step, known: set<File>, more: set<File>)
    requires Genuine(s, known) && more == known + Next(s, step).files.Values
    ensures Genuine(Next(s, step), more)
  {
    if !Enabled(s, step) {
      GenuineMore(s, known, more);
    } else {
      match step
      case Happens(e) =>
        EventKeepsGenuine(s, e, known);
        GenuineMore(AfterEvent(s, e), known, more);
      case Uploads(u, a) => UploadKeepsGenuine(s, u, a, known, more);
      case Syncs(sid, p) =>
        SyncKeepsGenuine(s, sid, p, known);
        GenuineMore(AfterSync(s, sid, p), known, more);
    }
  }

  lemma {:induction false} GenuineRun(start: nat, steps: seq<Step>)
    ensures Genuine(RunFrom(Init(start), steps), EverStored(start, steps))
  {
    if steps != [] {
      var before := steps[..|steps| - 1];
      GenuineRun(start, before);
      GenuineKept(RunFrom(Init(start), before), steps[|steps| - 1],
                  EverStored(start, before), EverStored(start, steps));
    }
  }

  /** In every run, orderly or not: whatever a device was sent, or received, is a
      record that was stored, of the device's own account, and not its own. */
  lemma NothingAstray(start: nat, steps: seq<Step>, d: Dev, f: File)
    requires var s := RunFrom(Init(start), steps); (d, f) in s.delivered || (d, f) in s.received
    ensures d.account == f.account && d.device != f.device && f in EverStored(start, steps)
  {
    GenuineRun(start, steps);
  }

  // ------------------------------------------------- when the watermark moves

  lemma {:induction false} MaxStampSnoc(files: seq<File>, f: File, base: int)
    ensures MaxStamp(files + [f], base) == Max(MaxStamp(files, base), f.stamp)
  {
    if files == [] {
      assert ([] + [f])[1..] == [];
    } else {
      MaxStampSnoc(files[1..], f, Max(base, files[0].stamp));
      assert (files + [f])[1..] == files[1..] + [f];
    }
  }

  /** A session's running maximum is that of what it has sent. */
  predicate Tracks(x: Session) {
    x.phase.Draining? ==> x.phase.cursor.maxTs == MaxStamp(x.phase.cursor.sent, From(x))
  }

  ghost predicate AllTrack(s: State) {
    forall sid :: sid in s.sessions ==> Tracks(s.sessions[sid])
  }

  lemma OnwardTracks(s: State, x: Session, p: SyncStep)
    requires Ready(s, x, p) && Onward(s, x, p).Some? && Tracks(x)
    ensures Tracks(x.(phase := Onward(s, x, p).value))
  {
    if p.Deliver? {
      MaxStampSnoc(x.phase.cursor.sent, x.phase.listing[x.phase.cursor.pos], From(x));
    }
  }

  lemma AllTrackKept(s: State, step: Step)
    requires AllTrack(s)
    ensures AllTrack(Next(s, step))
  {
    if Enabled(s, step) {
      if step.Syncs? {
        if !step.p.Subscribe? && Onward(s, s.sessions[step.sid], step.p).Some? {
          OnwardTracks(s, s.sessions[step.sid], step.p);
        }
      } else {
        OnlySyncsTouchSessions(s, step);
      }
    }
  }

  lemma {:induction false} AllTrackRun(start: nat, steps: seq<Step>)
    ensures AllTrack(RunFrom(Init(start), steps))
  {
    if steps != [] {
      AllTrackRun(start, steps[..|steps| - 1]);
      AllTrackKept(RunFrom(Init(start), steps[..|steps| - 1]), steps[|steps| - 1]);
    }
  }

  /** In every run, a sync that has sent its last file goes on to move the
      watermark exactly if its device is still registered, and it sent a record
      newer than the watermark it had read, or was asked to start from later. */
  lemma GoesOnIff(start: nat, steps: seq<Step>, sid: nat)
    requires Enabled(RunFrom(Init(start), steps), Syncs(sid, Finish))
    ensures var s := RunFrom(Init(start), steps);
      var x := s.sessions[sid];
      sid in Next(s, Syncs(sid, Finish)).sessions <==>
        && x.dev in s.devices
        && (From(x) > x.phase.stored || exists f :: f in x.phase.cursor.sent && f.stamp > x.phase.stored)
  {
    var s := RunFrom(Init(start), steps);
    var x := s.sessions[sid];
    AllTrackRun(start, steps);
    assert Tracks(x);
    MaxStampIsMaximum(x.phase.cursor.sent, From(x));
  }

  /** A session that is given up is gone, and nothing else changes; one that ends
      without moving the watermark likewise. */
  lemma GivenUp(s: State, sid: nat, p: SyncStep)
    requires SyncEnabled(s, sid, p)
    requires p.Abort? || (p.Finish? && sid !in AfterSync(s, sid, p).sessions)
    ensures Next(s, Syncs(sid, p)) == s.(sessions := s.sessions - {sid})
  {
    assert s.delivered + {} == s.delivered;
  }

  // ----------------------------------------------------- what goes in and out

  /** One turn of the sending loop: the device's own file is passed over; another
      goes into the channel if that is up; if not, the rest of the batch of 50 is
      given up. */
  lemma DeliverExact(s: State, sid: nat)
    requires SyncEnabled(s, sid, Deliver)
    ensures var x, t := s.sessions[sid], Next(s, Syncs(sid, Deliver));
      var c, pos := x.phase.cursor, x.phase.cursor.pos;
      var f, after := x.phase.listing[pos], t.sessions[sid].phase.cursor;
      if f.device == x.dev.device then
        t.delivered == s.delivered && after.sent == c.sent && after.pos == pos + 1 && after.skipped == c.skipped + 1
      else if Alive(s, x.dev) then
        t.delivered == s.delivered + {(x.dev, f)} && after.sent == c.sent + [f] && after.pos == pos + 1
      else
        && t.delivered == s.delivered && after.sent == c.sent
        && (after.pos == |x.phase.listing| || after.pos % 50 == 0) && pos < after.pos <= pos + 50
  {
    assert s.delivered + {} == s.delivered;
    BatchEndExact(s.sessions[sid].phase.cursor.pos, |s.sessions[sid].phase.listing|);
  }

  /** The step puts the record into the device's channel: it broadcasts it, or is
      a session's turn to send it. */
  predicate Offers(s: State, step: Step, d: Dev, f: File) {
    match step
    case Uploads(u, Broadcast) => u in s.uploads && s.uploads[u].file == f
    case Syncs(sid, Deliver) =>
      && sid in s.sessions && s.sessions[sid].dev == d && s.sessions[sid].phase.Draining?
      && var p := s.sessions[sid].phase; p.cursor.pos < |p.listing| && p.listing[p.cursor.pos] == f
    case _ => false
  }

  lemma EventEnters(s: State, e: Event)
    requires EventEnabled(s, e)
    ensures AfterEvent(s, e).delivered <= s.delivered
  {
  }

  lemma UploadEnters(s: State, u: nat, a: UploadStep, d: Dev, f: File)
    requires UploadEnabled(s, u, a) && (d, f) in AfterUpload(s, u, a).delivered && (d, f) !in s.delivered
    ensures Alive(s, d) && Offers(s, Uploads(u, a), d, f)
  {
  }

  lemma SyncEnters(s: State, sid: nat, p: SyncStep, d: Dev, f: File)
    requires SyncEnabled(s, sid, p) && (d, f) in AfterSync(s, sid, p).delivered && (d, f) !in s.delivered
    ensures Alive(s, d) && Offers(s, Syncs(sid, p), d, f)
  {
  }

  /** Nothing goes into a channel that is not up, and nothing but by these steps. */
  lemma OnlyOffersEnter(s: State, step: Step, d: Dev, f: File)
    ensures (d, f) in Next(s, step).delivered && (d, f) !in s.delivered ==> Alive(s, d) && Offers(s, step, d, f)
  {
    if Enabled(s, step) && (d, f) in Apply(s, step).delivered && (d, f) !in s.delivered {
      match step
      case Happens(e) => EventEnters(s, e);
      case Uploads(u, a) => UploadEnters(s, u, a, d, f);
      case Syncs(sid, p) => SyncEnters(s, sid, p, d, f);
    }
  }

  /** What is queued leaves only when its receiver goes away; what was received
      stays received. */
  lemma OnlyDropsLeave(s: State, e: Event, d: Dev, f: File)
    requires EventEnabled(s, e)
    ensures (d, f) in s.delivered && (d, f) !in AfterEvent(s, e).delivered <==>
      && (d, f) in s.delivered && (d, f) !in s.received
      && (e == Disconnect(d) || (e.Discard? && e.d == d && f in e.lost))
    ensures (d, f) in AfterEvent(s, e).received <==> (d, f) in s.received || e == Receive(d, f)
  {
  }
}
