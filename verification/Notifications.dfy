/** The notification manager: subscriber and alias tables, and the broadcast
    loops that walk them in whatever order the hash map yields. */
module Notifications {
  import opened Basics
  import opened SubscriberKeys

  /** An update as sent; metadata encryption is the identity here. */
  datatype Notification = Notification(account: string, device: string, payload: string)

  const CAPACITY: nat := 1024

  /** A sender: whether its receiver is still there, and what it was sent and has
      not yet received. */
  datatype Channel = Channel(open: bool, queue: seq<Notification>) {
    predicate Full() {
      open && |queue| >= CAPACITY
    }
  }

  /** `Waits`: a send waits on a full channel, with the table locked. */
  datatype Outcome = Ok(sent: nat) | SendError | Waits

  type Subscribers<K(==)> = map<K, Channel>

  /** The keys a test selects. */
  function Selected<K(!new)>(subs: Subscribers<K>, test: K -> bool): set<K> {
    set k | k in subs && test(k)
  }

  function Reached<K(!new)>(subs: Subscribers<K>, test: K -> bool): set<K> {
    set k | k in Selected(subs, test) && subs[k].open
  }

  /** The subscriber sees the account hash it asked with. */
  function Readdressed<K>(n: Notification, aliases: map<K, string>, key: K): Notification {
    if key in aliases then n.(account := aliases[key]) else n
  }

  function Push(c: Channel, n: Notification): Channel {
    if c.open then c.(queue := c.queue + [n]) else c
  }

  /** What becomes of the channel under one key. */
  function AfterSend<K>(c: Channel, selected: bool, aliases: map<K, string>, key: K, n: Notification): Channel {
    if selected then Push(c, Readdressed(n, aliases, key)) else c
  }

  /** The selected subscribers whose channel cannot take another update. */
  function Clogged<K(!new)>(subs: Subscribers<K>, test: K -> bool): set<K> {
    set k | k in Selected(subs, test) && subs[k].Full()
  }

  /** The selected subscribers among those walked get the update once. */
  function SentTo<K(!new)>(subs: Subscribers<K>, test: K -> bool, aliases: map<K, string>, n: Notification,
                           walked: set<K>): Subscribers<K>
  {
    map k | k in subs :: AfterSend(subs[k], k in walked && test(k), aliases, k, n)
  }

  /** Every selected subscriber's channel gets the update once, nothing else changes. */
  function Broadcasted<K(!new)>(subs: Subscribers<K>, test: K -> bool, aliases: map<K, string>,
                                n: Notification): Subscribers<K>
  {
    map k | k in subs :: AfterSend(subs[k], test(k), aliases, k, n)
  }

  /** What a broadcast that waits has done so far. */
  ghost predicate PartlySent<K(!new)>(subs: Subscribers<K>, test: K -> bool, aliases: map<K, string>, n: Notification,
                                      after: Subscribers<K>)
  {
    exists walked: set<K> :: after == SentTo(subs, test, aliases, n, walked) && !(Selected(subs, test) <= walked)
  }

  function FileSelector(n: Notification, excludeSource: bool): string -> bool {
    k => FileTest(k, n.account, n.device, excludeSource)
  }

  function WatcherSelector(account: string, exclude: Option<string>): string -> bool {
    k => WatcherTest(k, account, exclude)
  }

  class NotificationManager {
    var subscribers: Subscribers<string>           // file updates
    var aliases: map<string, string>
    var watcherSubscribers: Subscribers<string>    // watcher group or preset updates

    constructor ()
      ensures subscribers == map[] && aliases == map[] && watcherSubscribers == map[]
    {
      subscribers, aliases, watcherSubscribers := map[], map[], map[];
    }

    method RegisterWithAlias(key: string, original: string)
      modifies this`subscribers, this`aliases
      ensures subscribers == old(subscribers)[key := Channel(true, [])]
      ensures aliases == old(aliases)[key := original]
    {
      subscribers := subscribers[key := Channel(true, [])];
      aliases := aliases[key := original];
    }

    method Unregister(key: string) returns (removed: bool)
      modifies this`subscribers, this`aliases
      ensures removed == (key in old(subscribers))
      ensures subscribers == old(subscribers) - {key} && aliases == old(aliases) - {key}
    {
      removed := key in subscribers;
      subscribers := subscribers - {key};
      aliases := aliases - {key};
    }

    /** Waits exactly if a selected channel is full; otherwise every selected
        live channel gets the update, and the error means that all were dead. */
    method BroadcastFileUpdate(n: Notification, excludeSource: bool) returns (r: Outcome)
      modifies this`subscribers
      ensures var was, test := old(subscribers), FileSelector(n, excludeSource);
        && (r == Waits <==> Clogged(was, test) != {})
        && (r == Waits ==> PartlySent(was, test, aliases, n, subscribers))
        && (r != Waits ==> subscribers == Broadcasted(was, test, aliases, n))
        && (r == SendError <==> Clogged(was, test) == {} && Selected(was, test) != {} && Reached(was, test) == {})
        && (r.Ok? ==> r.sent == |Reached(was, test)|)
    {
      var after, sent, errors, waits := SendToSelected(subscribers, FileSelector(n, excludeSource), aliases, n);
      subscribers := after;
      r := if waits then Waits else if errors != 0 && sent == 0 then SendError else Ok(sent);
    }

    /** Both watcher broadcasts: split-based selection, failures only logged. */
    method BroadcastWatcherUpdate(account: string, exclude: Option<string>, n: Notification) returns (waits: bool)
      modifies this`watcherSubscribers
      ensures var was, test := old(watcherSubscribers), WatcherSelector(account, exclude);
        && (waits <==> Clogged(was, test) != {})
        && if waits then PartlySent(was, test, map[], n, watcherSubscribers)
           else watcherSubscribers == Broadcasted(was, test, map[], n)
    {
      var after, _, _, w := SendToSelected(watcherSubscribers, WatcherSelector(account, exclude), map[], n);
      watcherSubscribers := after;
      waits := w;
    }
  }

  // ---------------------------------------------------------- the shared loop

  function ReachedIn<K(!new)>(subs: Subscribers<K>, test: K -> bool, walked: set<K>): set<K> {
    set k | k in walked && k in subs && test(k) && subs[k].open
  }

  function MissedIn<K(!new)>(subs: Subscribers<K>, test: K -> bool, walked: set<K>): set<K> {
    set k | k in walked && k in subs && test(k) && !subs[k].open
  }

  lemma WalkOne<K(!new)>(subs: Subscribers<K>, test: K -> bool, walked: set<K>, key: K)
    requires key in subs && key !in walked
    ensures |ReachedIn(subs, test, walked + {key})|
         == |ReachedIn(subs, test, walked)| + (if test(key) && subs[key].open then 1 else 0)
    ensures |MissedIn(subs, test, walked + {key})|
         == |MissedIn(subs, test, walked)| + (if test(key) && !subs[key].open then 1 else 0)
  {
    var reached, missed := ReachedIn(subs, test, walked), MissedIn(subs, test, walked);
    assert ReachedIn(subs, test, walked + {key}) == if test(key) && subs[key].open then reached + {key} else reached;
    assert MissedIn(subs, test, walked + {key}) == if test(key) && !subs[key].open then missed + {key} else missed;
  }

  /** The loop has dealt with the subscribers walked, none of which was clogged. */
  ghost predicate Walked<K(!new)>(subs: Subscribers<K>, test: K -> bool, aliases: map<K, string>, n: Notification,
                                  walked: set<K>, w: Walk<K>)
  {
    && w.after == SentTo(subs, test, aliases, n, walked)
    && w.sent == |ReachedIn(subs, test, walked)| && w.errors == |MissedIn(subs, test, walked)|
    && forall k :: k in walked && k in subs && test(k) ==> !subs[k].Full()
  }

  /** The loop's variables. */
  datatype Walk<K> = Walk(after: Subscribers<K>, sent: nat, errors: nat)

  function SendOne<K(!new)>(subs: Subscribers<K>, test: K -> bool, aliases: map<K, string>, n: Notification,
                            w: Walk<K>, key: K): Walk<K>
    requires key in subs
  {
    Walk(w.after[key := AfterSend(subs[key], test(key), aliases, key, n)],
         w.sent + (if test(key) && subs[key].open then 1 else 0),
         w.errors + (if test(key) && !subs[key].open then 1 else 0))
  }

  lemma WalkStarts<K(!new)>(subs: Subscribers<K>, test: K -> bool, aliases: map<K, string>, n: Notification)
    ensures Walked(subs, test, aliases, n, {}, Walk(subs, 0, 0))
  {
    assert SentTo(subs, test, aliases, n, {}) == subs;
    assert ReachedIn(subs, test, {}) == {} && MissedIn(subs, test, {}) == {};
  }

  lemma WalkGoesOn<K(!new)>(subs: Subscribers<K>, test: K -> bool, aliases: map<K, string>, n: Notification,
                            walked: set<K>, w: Walk<K>, key: K)
    requires Walked(subs, test, aliases, n, walked, w) && key in subs && key !in walked
    requires !(test(key) && subs[key].Full())
    ensures Walked(subs, test, aliases, n, walked + {key}, SendOne(subs, test, aliases, n, w, key))
  {
    WalkOne(subs, test, walked, key);
    assert SentTo(subs, test, aliases, n, walked + {key})
        == SentTo(subs, test, aliases, n, walked)[key := AfterSend(subs[key], test(key), aliases, key, n)];
  }

  lemma WalkStops<K(!new)>(subs: Subscribers<K>, test: K -> bool, aliases: map<K, string>, n: Notification,
                           walked: set<K>, w: Walk<K>, key: K)
    requires Walked(subs, test, aliases, n, walked, w) && key in subs && key !in walked
    requires test(key) && subs[key].Full()
    ensures Clogged(subs, test) != {} && PartlySent(subs, test, aliases, n, w.after)
  {
    assert key in Clogged(subs, test) && key in Selected(subs, test);
  }

  lemma WalkEnds<K(!new)>(subs: Subscribers<K>, test: K -> bool, aliases: map<K, string>, n: Notification, w: Walk<K>)
    requires Walked(subs, test, aliases, n, subs.Keys, w)
    ensures Clogged(subs, test) == {} && w.after == Broadcasted(subs, test, aliases, n)
    ensures w.sent == |Reached(subs, test)| && w.sent + w.errors == |Selected(subs, test)|
  {
    var reached, missed := ReachedIn(subs, test, subs.Keys), MissedIn(subs, test, subs.Keys);
    assert reached == Reached(subs, test);
    assert reached + missed == Selected(subs, test);
  }

  /** The loop all broadcasts share: test each key, send, count; it stops for good
      at a selected channel that is full. */
  method WalkSubscribers<K(==, !new)>(subs: Subscribers<K>, test: K -> bool, aliases: map<K, string>, n: Notification)
    returns (w: Walk<K>, stuck: Option<K>, walked: set<K>)
    ensures Walked(subs, test, aliases, n, walked, w)
    ensures stuck.None? ==> walked == subs.Keys
    ensures stuck.Some? ==>
      stuck.value in subs && stuck.value !in walked && test(stuck.value) && subs[stuck.value].Full()
  {
    var todo := subs.Keys;
    w, walked := Walk(subs, 0, 0), {};
    WalkStarts(subs, test, aliases, n);
    while todo != {}
      invariant todo <= subs.Keys && walked == subs.Keys - todo
      invariant Walked(subs, test, aliases, n, walked, w)
      decreases |todo|
    {
      var key := Pick(todo);
      if test(key) && subs[key].Full() {
        return w, Some(key), walked;
      }
      WalkGoesOn(subs, test, aliases, n, walked, w, key);
      w := SendOne(subs, test, aliases, n, w, key);
      todo, walked := todo - {key}, walked + {key};
    }
    stuck := None;
  }

  method SendToSelected<K(==, !new)>(subs: Subscribers<K>, test: K -> bool, aliases: map<K, string>, n: Notification)
    returns (after: Subscribers<K>, sent: nat, errors: nat, waits: bool)
    ensures waits <==> Clogged(subs, test) != {}
    ensures waits ==> PartlySent(subs, test, aliases, n, after)
    ensures !waits ==> after == Broadcasted(subs, test, aliases, n)
    ensures !waits ==> sent == |Reached(subs, test)| && sent + errors == |Selected(subs, test)|
  {
    var w, stuck, walked := WalkSubscribers(subs, test, aliases, n);
    if stuck.Some? {
      WalkStops(subs, test, aliases, n, walked, w, stuck.value);
    } else {
      WalkEnds(subs, test, aliases, n, w);
    }
    after, sent, errors, waits := w.after, w.sent, w.errors, stuck.Some?;
  }

  /** Whom a file broadcast is for. */
  function Excluded(n: Notification, excludeSource: bool): Option<string> {
    if excludeSource then Some(n.device) else None
  }

  /** The file selector picks the devices of the account, all of them or all but
      the source, as the caller asks. */
  lemma FileSelectorExact(n: Notification, excludeSource: bool, d: Dev)
    requires HashLike(d)
    ensures FileSelector(n, excludeSource)(Key(d))
       <==> d.account == n.account && (excludeSource ==> d.device != n.device)
  {
    PrefixIsAccount(d, n.account);
    SuffixIsDevice(d, n.device);
  }

  /** And so does the selector of the watcher broadcasts. */
  lemma WatcherSelectorExact(account: string, exclude: Option<string>, d: Dev)
    requires HashLike(d)
    ensures WatcherSelector(account, exclude)(Key(d))
       <==> d.account == account && (exclude.Some? ==> d.device != exclude.value)
  {
    WatcherTestExact(d);
  }

  /** What a file broadcast does to one subscribed device, whoever else is
      subscribed under whatever key: it gets the update, once, last in its queue
      and under its own alias, iff it is a device of the account, other than the
      source if that is to be excluded, with a live receiver. */
  lemma BroadcastReachesOthers(subs: Subscribers<string>, aliases: map<string, string>, n: Notification,
                               excludeSource: bool, d: Dev)
    requires HashLike(d) && Key(d) in subs
    ensures var k := Key(d);
      var after := Broadcasted(subs, FileSelector(n, excludeSource), aliases, n);
      var addressed := d.account == n.account && (excludeSource ==> d.device != n.device);
      var alias := if k in aliases then aliases[k] else n.account;
      after[k] == if addressed && subs[k].open
                  then Channel(true, subs[k].queue + [Notification(alias, n.device, n.payload)])
                  else subs[k]
  {
    FileSelectorExact(n, excludeSource, d);
  }

  /** The same for a watcher broadcast, which knows no aliases. */
  lemma WatcherBroadcastReaches(subs: Subscribers<string>, account: string, exclude: Option<string>,
                                n: Notification, d: Dev)
    requires HashLike(d) && Key(d) in subs
    ensures var k := Key(d);
      var after := Broadcasted(subs, WatcherSelector(account, exclude), map[], n);
      var addressed := d.account == account && (exclude.Some? ==> d.device != exclude.value);
      after[k] == if addressed && subs[k].open then Channel(true, subs[k].queue + [n]) else subs[k]
  {
    WatcherSelectorExact(account, exclude, d);
  }

  /** A broadcast that waits has given each device the whole update or nothing. */
  lemma PartlySentExact(subs: Subscribers<string>, test: string -> bool, aliases: map<string, string>, n: Notification,
                        after: Subscribers<string>)
    requires PartlySent(subs, test, aliases, n, after)
    ensures after.Keys == subs.Keys
    ensures forall k :: k in subs ==> after[k] == subs[k] || after[k] == Broadcasted(subs, test, aliases, n)[k]
  {
  }

  /** With hash-like subscribers only, `Err` comes back iff some device the update
      is for is subscribed and none of those still listens; and a broadcast waits
      iff the channel of one of those that do is full. */
  lemma BroadcastFailsIff(subs: Subscribers<string>, n: Notification, excludeSource: bool, devs: set<Dev>)
    requires subs.Keys == (set d | d in devs :: Key(d)) && forall d :: d in devs ==> HashLike(d)
    ensures var test, out := FileSelector(n, excludeSource), Excluded(n, excludeSource);
      (Selected(subs, test) != {} && Reached(subs, test) == {})
      <==> && (exists d :: d in devs && Addressed(d, n.account, out))
           && (forall d :: d in devs && Addressed(d, n.account, out) ==> !subs[Key(d)].open)
    ensures var test, out := FileSelector(n, excludeSource), Excluded(n, excludeSource);
      Clogged(subs, test) != {}
      <==> exists d :: d in devs && Addressed(d, n.account, out) && subs[Key(d)].open && |subs[Key(d)].queue| >= 1024
  {
    var test, out := FileSelector(n, excludeSource), Excluded(n, excludeSource);
    forall d | d in devs
      ensures Key(d) in Selected(subs, test) <==> Addressed(d, n.account, out)
      ensures Key(d) in Reached(subs, test) <==> Addressed(d, n.account, out) && subs[Key(d)].open
      ensures Key(d) in Clogged(subs, test) <==> Addressed(d, n.account, out) && subs[Key(d)].Full()
    {
      FileSelectorExact(n, excludeSource, d);
    }
    forall k | k in subs
      ensures exists d :: d in devs && Key(d) == k
    {
    }
    if k :| k in Selected(subs, test) {
      var d :| d in devs && Key(d) == k;
      assert Addressed(d, n.account, out);
    }
    if k :| k in Clogged(subs, test) {
      var d :| d in devs && Key(d) == k;
      assert Addressed(d, n.account, out) && subs[Key(d)].Full();
    }
    if d :| d in devs && Addressed(d, n.account, out) {
      assert Key(d) in Selected(subs, test);
    }
  }
}
