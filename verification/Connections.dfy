/** Connection tracking: one record per "account:device" key, from its first
    registration until a cleanup takes it. */
module Connections {
  import opened Basics
  import opened SubscriberKeys

  datatype Record = Record(
    dev: Dev, connectedAt: int, lastActivity: int, disconnectedAt: Option<int>,
    count: nat, active: bool, lastSync: Option<int>)

  type Records = map<string, Record>

  datatype Event =
    | Register(dev: Dev, now: int)
    | Activity(key: string, now: int)
    | Disconnect(key: string, now: int)
    | SyncTime(key: string, now: int)
    | Cleanup(cutoff: int)

  function Registered(m: Records, dev: Dev, now: int): Records {
    var key := Key(dev);
    if key in m then
      var r := m[key];
      var back := r.(connectedAt := now, lastActivity := now, disconnectedAt := None);
      m[key := back.(count := r.count + 1, active := true)]
    else m[key := Record(dev, now, now, None, 1, true, None)]
  }

  predicate Removable(r: Record, cutoff: int) {
    r.disconnectedAt.Some? && r.disconnectedAt.value <= cutoff
  }

  function Apply(m: Records, e: Event): Records {
    match e
    case Register(dev, now) => Registered(m, dev, now)
    case Activity(k, now) => if k in m then m[k := m[k].(lastActivity := now)] else m
    case Disconnect(k, now) => if k in m then m[k := m[k].(disconnectedAt := Some(now), active := false)] else m
    case SyncTime(k, now) => if k in m then m[k := m[k].(lastSync := Some(now))] else m
    case Cleanup(cutoff) => map k | k in m && !Removable(m[k], cutoff) :: m[k]
  }

  function Run(run: seq<Event>): Records {
    if run == [] then map[] else Apply(Run(run[..|run| - 1]), run[|run| - 1])
  }

  // ------------------------------------------- what the events say about a key

  predicate Registers(e: Event, key: string) {
    e.Register? && Key(e.dev) == key
  }

  predicate Drops(e: Event, key: string) {
    e.Disconnect? && e.key == key
  }

  /** When the key went down, unless it registered since. */
  function DownSince(run: seq<Event>, key: string): Option<int> {
    if run == [] || Registers(run[|run| - 1], key) then None
    else if Drops(run[|run| - 1], key) then Some(run[|run| - 1].now)
    else DownSince(run[..|run| - 1], key)
  }

  /** A cleanup that takes the key, given what happened before. */
  predicate Takes(run: seq<Event>, e: Event, key: string) {
    e.Cleanup? && DownSince(run, key).Some? && DownSince(run, key).value <= e.cutoff
  }

  /** The registration that created the key's current record. */
  function Birth(run: seq<Event>, key: string): (b: Option<nat>)
    ensures b.Some? ==> b.value < |run| && Registers(run[b.value], key)
  {
    if run == [] then None
    else
      var n := |run| - 1;
      var before := Birth(run[..n], key);
      if before.None? then if Registers(run[n], key) then Some(n) else None
      else if Takes(run[..n], run[n], key) then None
      else before
  }

  function Registrations(run: seq<Event>, b: nat, key: string): nat {
    if |run| <= b then 0
    else Registrations(run[..|run| - 1], b, key) + if Registers(run[|run| - 1], key) then 1 else 0
  }

  /** The time of the last registration. */
  function ConnectedAt(run: seq<Event>, key: string): int {
    if run == [] then 0
    else if Registers(run[|run| - 1], key) then run[|run| - 1].now
    else ConnectedAt(run[..|run| - 1], key)
  }

  /** The time of the last registration or activity. */
  function ActiveAt(run: seq<Event>, key: string): int {
    if run == [] then 0
    else
      var e := run[|run| - 1];
      if Registers(e, key) || (e.Activity? && e.key == key) then e.now else ActiveAt(run[..|run| - 1], key)
  }

  /** The time of the last sync noted after event `b`. */
  function SyncedAt(run: seq<Event>, b: nat, key: string): Option<int> {
    if |run| <= b then None
    else
      var e := run[|run| - 1];
      if e.SyncTime? && e.key == key then Some(e.now) else SyncedAt(run[..|run| - 1], b, key)
  }

  /** A record tells the truth about the events since its birth. */
  predicate Truthful(run: seq<Event>, b: nat, key: string, r: Record) {
    && Key(r.dev) == key
    && r.connectedAt == ConnectedAt(run, key) && r.lastActivity == ActiveAt(run, key)
    && r.lastSync == SyncedAt(run, b, key)
    && r.disconnectedAt == DownSince(run, key)
    && (r.active <==> r.disconnectedAt.None?)
    && r.count == Registrations(run, b, key) && r.count >= 1
  }

  predicate Explains(run: seq<Event>, key: string, m: Records) {
    (key in m <==> Birth(run, key).Some?) && (key in m ==> Truthful(run, Birth(run, key).value, key, m[key]))
  }

  lemma ExplainsOn(run: seq<Event>, m: Records, key: string)
    requires run != [] && Explains(run[..|run| - 1], key, m)
    ensures Explains(run, key, Apply(m, run[|run| - 1]))
  {
    var n := |run| - 1;
    if Birth(run, key) == Some(n) {
      assert Registrations(run[..n], n, key) == 0 && SyncedAt(run[..n], n, key) == None;
    }
  }

  /** Every run: a key has a record exactly if it registered and no cleanup has
      taken it since; the record counts the registrations since then, has the
      times of the last one, of the last activity and of the last sync, carries
      the last disconnect until the next registration, and is active exactly if
      there is none, so that no cleanup takes a live one. */
  lemma {:induction false} RecordsFollowHistory(run: seq<Event>, key: string)
    ensures key in Run(run) <==> Birth(run, key).Some?
    ensures key in Run(run) ==> Truthful(run, Birth(run, key).value, key, Run(run)[key])
  {
    if run != [] {
      RecordsFollowHistory(run[..|run| - 1], key);
      ExplainsOn(run, Run(run[..|run| - 1]), key);
    }
  }

  lemma CleanupExact(run: seq<Event>, cutoff: int, key: string)
    ensures key in Run(run) && key !in Run(run + [Cleanup(cutoff)]) <==>
      Birth(run, key).Some? && DownSince(run, key).Some? && DownSince(run, key).value <= cutoff
    ensures key in Run(run) && Run(run)[key].active ==> key in Run(run + [Cleanup(cutoff)])
    ensures key in Run(run + [Cleanup(cutoff)]) ==>
      key in Run(run) && Run(run + [Cleanup(cutoff)])[key] == Run(run)[key]
  {
    RecordsFollowHistory(run, key);
    assert (run + [Cleanup(cutoff)])[..|run|] == run;
  }

  function DownKeys(m: Records, run: seq<Event>): set<string> {
    set k | k in m && DownSince(run, k).Some?
  }

  // -------------------------------------------------------------- the tracker

  class ConnectionTracker {
    var connections: Records

    constructor ()
      ensures connections == map[]
    {
      connections := map[];
    }

    method RegisterConnection(dev: Dev, now: int) returns (key: string)
      modifies this
      ensures key == Key(dev) && connections == Apply(old(connections), Register(dev, now))
    {
      key := Key(dev);
      if key in connections {
        var r := connections[key];
        r := r.(connectedAt := now, lastActivity := now);
        r := r.(disconnectedAt := None);
        r := r.(count := r.count + 1);
        r := r.(active := true);
        connections := connections[key := r];
      } else {
        connections := connections[key := Record(dev, now, now, None, 1, true, None)];
      }
    }

    method UpdateActivity(key: string, now: int)
      modifies this
      ensures connections == Apply(old(connections), Activity(key, now))
    {
      if key in connections {
        connections := connections[key := connections[key].(lastActivity := now)];
      }
    }

    method MarkDisconnected(key: string, now: int)
      modifies this
      ensures connections == Apply(old(connections), Disconnect(key, now))
    {
      if key in connections {
        var r := connections[key].(disconnectedAt := Some(now));
        connections := connections[key := r.(active := false)];
      }
    }

    method UpdateSyncTime(key: string, now: int)
      modifies this
      ensures connections == Apply(old(connections), SyncTime(key, now))
    {
      if key in connections {
        connections := connections[key := connections[key].(lastSync := Some(now))];
      }
    }

    method GetLastDisconnectTime(dev: Dev, ghost run: seq<Event>) returns (t: Option<int>)
      requires connections == Run(run)
      ensures t == if Birth(run, Key(dev)).Some? then DownSince(run, Key(dev)) else None
    {
      RecordsFollowHistory(run, Key(dev));
      if Key(dev) in connections {
        t := connections[Key(dev)].disconnectedAt;
      } else {
        t := None;
      }
    }

    method CleanupOldConnections(now: int, maxAge: int)
      modifies this
      ensures connections == Apply(old(connections), Cleanup(now - maxAge))
    {
      var cutoff := now - maxAge;
      connections := map k | k in connections
        && (connections[k].disconnectedAt.Some? ==> connections[k].disconnectedAt.value > cutoff) :: connections[k];
    }

    /** The inactive count, computed by subtraction, is the number of records
        that carry a disconnect time. */
    method GetStats(ghost run: seq<Event>) returns (total: nat, active: nat, inactive: int)
      requires connections == Run(run)
      ensures total == |connections| && active + inactive == total
      ensures inactive == |DownKeys(connections, run)|
    {
      var live := set k | k in connections && connections[k].active;
      total, active := |connections|, |live|;
      assert total == |connections.Keys|;
      inactive := total - active;
      ghost var down := DownKeys(connections, run);
      forall k | k in connections
        ensures k in live <==> k !in down
      {
        RecordsFollowHistory(run, k);
      }
      assert live + down == connections.Keys && live * down == {};
      assert |live + down| == |live| + |down|;
    }
  }
}
