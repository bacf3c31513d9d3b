/** The in-memory cache with per-entry time to live. */
module TtlCache {
  import opened Basics

  datatype Entry<T> = Entry(data: T, expiresAt: Option<int>)

  /** One call and its clock reading; a time to live may be negative. */
  datatype Call<T> =
    | Get(key: string, now: int)
    | Set(key: string, value: T, ttl: Option<int>, now: int)
    | Remove(key: string, now: int)
    | Cleanup(now: int)
    | Clear(now: int)

  function Deadline(ttl: Option<int>, default: Option<int>, now: int): Option<int> {
    match ttl
    case Some(t) => Some(now + t)
    case None => if default.Some? then Some(now + default.value) else None
  }

  predicate Expired(deadline: Option<int>, now: int) {
    deadline.Some? && deadline.value < now
  }

  // ---------------------------------------------- what callers are promised

  /** The call that decides a key's value: the last that set, removed or cleared
      it, so reads and cleanups never decide anything. */
  predicate Decides<T>(c: Call<T>, key: string) {
    match c
    case Set(k, _, _, _) => k == key
    case Remove(k, _) => k == key
    case Clear(_) => true
    case _ => false
  }

  function LastDecision<T>(calls: seq<Call<T>>, key: string): (i: Option<nat>)
    ensures i.Some? ==> i.value < |calls| && Decides(calls[i.value], key)
    ensures forall j :: (if i.Some? then i.value < j else true) && 0 <= j < |calls| ==> !Decides(calls[j], key)
  {
    if calls == [] then None
    else if Decides(calls[|calls| - 1], key) then Some(|calls| - 1)
    else LastDecision(calls[..|calls| - 1], key)
  }

  /** The entry of the last `Set`, if no removal came after it. */
  function Current<T>(calls: seq<Call<T>>, default: Option<int>, key: string): Option<Entry<T>> {
    var i := LastDecision(calls, key);
    if i.Some? && calls[i.value].Set? then
      var c := calls[i.value];
      Some(Entry(c.value, Deadline(c.ttl, default, c.now)))
    else None
  }

  function Promised<T>(calls: seq<Call<T>>, default: Option<int>, key: string, now: int): Option<T> {
    var e := Current(calls, default, key);
    if e.Some? && !Expired(e.value.expiresAt, now) then Some(e.value.data) else None
  }

  predicate Monotone<T>(calls: seq<Call<T>>) {
    forall i, j :: 0 <= i < j < |calls| ==> calls[i].now <= calls[j].now
  }

  // ------------------------------------------------------- what the cache does

  type Storage<T> = map<string, Entry<T>>

  function Found<T>(m: Storage<T>, key: string, now: int): Option<T> {
    if key in m && !Expired(m[key].expiresAt, now) then Some(m[key].data) else None
  }

  function Retained<T>(m: Storage<T>, now: int): Storage<T> {
    map k | k in m && !Expired(m[k].expiresAt, now) :: m[k]
  }

  function Apply<T>(m: Storage<T>, default: Option<int>, c: Call<T>): Storage<T> {
    match c
    case Get(k, now) => if k in m && Expired(m[k].expiresAt, now) then m - {k} else m
    case Set(k, v, ttl, now) => m[k := Entry(v, Deadline(ttl, default, now))]
    case Remove(k, _) => m - {k}
    case Cleanup(now) => Retained(m, now)
    case Clear(_) => map[]
  }

  function Run<T>(calls: seq<Call<T>>, default: Option<int>): Storage<T> {
    if calls == [] then map[] else Apply(Run(calls[..|calls| - 1], default), default, calls[|calls| - 1])
  }

  /** A call that drops the key's entry if its deadline has passed. */
  predicate Evicts<T>(c: Call<T>, key: string, deadline: Option<int>) {
    (c.Cleanup? || (c.Get? && c.key == key)) && Expired(deadline, c.now)
  }

  predicate EvictedSince<T>(calls: seq<Call<T>>, i: nat, key: string, deadline: Option<int>) {
    exists j :: i < j < |calls| && Evicts(calls[j], key, deadline)
  }

  /** The entry physically held: the current one, until a read of the key or a
      cleanup after its deadline drops it. */
  predicate Holds<T>(calls: seq<Call<T>>, default: Option<int>, key: string) {
    var e := Current(calls, default, key);
    e.Some? && !EvictedSince(calls, LastDecision(calls, key).value, key, e.value.expiresAt)
  }

  lemma DecisionExtends<T>(calls: seq<Call<T>>, default: Option<int>, c: Call<T>, key: string)
    requires !Decides(c, key)
    ensures LastDecision(calls + [c], key) == LastDecision(calls, key)
    ensures Current(calls + [c], default, key) == Current(calls, default, key)
  {
    assert (calls + [c])[..|calls|] == calls;
  }

  lemma EvictionExtends<T>(calls: seq<Call<T>>, c: Call<T>, i: nat, key: string, deadline: Option<int>)
    requires i < |calls|
    ensures EvictedSince(calls + [c], i, key, deadline)
       <==> EvictedSince(calls, i, key, deadline) || Evicts(c, key, deadline)
  {
    var whole := calls + [c];
    assert whole[|calls|] == c;
    if EvictedSince(calls, i, key, deadline) {
      var j :| i < j < |calls| && Evicts(calls[j], key, deadline);
      assert Evicts(whole[j], key, deadline);
    }
  }

  /** Every run: what is stored under a key, and when. */
  lemma {:induction false} StoredExactly<T>(calls: seq<Call<T>>, default: Option<int>, key: string)
    ensures key in Run(calls, default) <==> Holds(calls, default, key)
    ensures key in Run(calls, default) ==> Run(calls, default)[key] == Current(calls, default, key).value
  {
    if calls != [] {
      var n := |calls| - 1;
      var c := calls[n];
      StoredExactly(calls[..n], default, key);
      if !Decides(c, key) {
        assert calls[..n] + [c] == calls;
        DecisionExtends(calls[..n], default, c, key);
        var e := Current(calls, default, key);
        if e.Some? {
          EvictionExtends(calls[..n], c, LastDecision(calls, key).value, key, e.value.expiresAt);
        }
      }
    }
  }

  /** An entry dropped by a read or a cleanup had expired for good. */
  lemma {:induction false} EvictedStaysExpired<T>(calls: seq<Call<T>>, i: nat, key: string, deadline: Option<int>,
                                                  now: int)
    requires Monotone(calls) && (calls != [] ==> calls[|calls| - 1].now <= now)
    requires EvictedSince(calls, i, key, deadline)
    ensures Expired(deadline, now)
  {
    var j :| i < j < |calls| && Evicts(calls[j], key, deadline);
    assert calls[j].now <= calls[|calls| - 1].now;
  }

  /** Refinement: after any run under a clock that never goes back, a read
      returns the last value set and not removed whose deadline has not passed. */
  lemma {:induction false} GetReturnsPromised<T>(calls: seq<Call<T>>, default: Option<int>, key: string, now: int)
    requires Monotone(calls) && (calls != [] ==> calls[|calls| - 1].now <= now)
    ensures Found(Run(calls, default), key, now) == Promised(calls, default, key, now)
  {
    StoredExactly(calls, default, key);
    var e := Current(calls, default, key);
    if e.Some? && !Holds(calls, default, key) {
      EvictedStaysExpired(calls, LastDecision(calls, key).value, key, e.value.expiresAt, now);
    }
  }

  lemma {:induction false} DecisionAt<T>(before: seq<Call<T>>, c: Call<T>, after: seq<Call<T>>, key: string)
    requires Decides(c, key) && forall a :: a in after ==> !Decides(a, key)
    ensures LastDecision(before + [c] + after, key) == Some(|before|)
    decreases |after|
  {
    var all := before + [c] + after;
    if after == [] {
      assert all[|all| - 1] == c;
    } else {
      var n := |after| - 1;
      assert all[|all| - 1] == after[n] && all[..|all| - 1] == before + [c] + after[..n];
      DecisionAt(before, c, after[..n], key);
    }
  }

  /** A value is read exactly until its own time to live is over, or the default
      one if it was set without, or for ever if there is neither; whatever was
      done before it was set, or to other keys since. */
  lemma ReadAfterSet<T>(before: seq<Call<T>>, key: string, value: T, ttl: Option<int>, at: int, after: seq<Call<T>>,
                        default: Option<int>, now: int)
    requires forall a :: a in after ==> !Decides(a, key)
    requires var calls := before + [Set(key, value, ttl, at)] + after;
      Monotone(calls) && calls[|calls| - 1].now <= now
    ensures var calls := before + [Set(key, value, ttl, at)] + after;
      Found(Run(calls, default), key, now) ==
        if ttl.Some? then (if now <= at + ttl.value then Some(value) else None)
        else if default.Some? then (if now <= at + default.value then Some(value) else None)
        else Some(value)
  {
    var calls := before + [Set(key, value, ttl, at)] + after;
    DecisionAt(before, Set(key, value, ttl, at), after, key);
    GetReturnsPromised(calls, default, key, now);
    assert calls[|before|] == Set(key, value, ttl, at);
  }

  /** After a removal, or a clearing of all, nothing is read. */
  lemma ReadAfterRemoval<T>(before: seq<Call<T>>, c: Call<T>, key: string, after: seq<Call<T>>,
                            default: Option<int>, now: int)
    requires c.Clear? || (c.Remove? && c.key == key)
    requires forall a :: a in after ==> !Decides(a, key)
    requires var calls := before + [c] + after; Monotone(calls) && calls[|calls| - 1].now <= now
    ensures Found(Run(before + [c] + after, default), key, now) == None
  {
    var calls := before + [c] + after;
    DecisionAt(before, c, after, key);
    GetReturnsPromised(calls, default, key, now);
    assert calls[|before|] == c;
  }

  // ------------------------------------------------- evictions are invisible

  predicate Evicting<T>(c: Call<T>) {
    c.Get? || c.Cleanup?
  }

  /** The run without its reads and cleanups. */
  function Mutations<T>(calls: seq<Call<T>>): seq<Call<T>> {
    if calls == [] then []
    else
      var rest := Mutations(calls[..|calls| - 1]);
      if Evicting(calls[|calls| - 1]) then rest else rest + [calls[|calls| - 1]]
  }

  lemma {:induction false} MutationsDecide<T>(calls: seq<Call<T>>, default: Option<int>, key: string)
    ensures Current(Mutations(calls), default, key) == Current(calls, default, key)
  {
    if calls != [] {
      var n := |calls| - 1;
      var c := calls[n];
      MutationsDecide(calls[..n], default, key);
      assert calls[..n] + [c] == calls;
      if !Decides(c, key) {
        DecisionExtends(calls[..n], default, c, key);
        if !Evicting(c) {
          DecisionExtends(Mutations(calls[..n]), default, c, key);
        }
      }
    }
  }

  lemma {:induction false} MutationsMonotone<T>(calls: seq<Call<T>>)
    requires Monotone(calls)
    ensures Monotone(Mutations(calls)) && |Mutations(calls)| <= |calls|
    ensures forall c :: c in Mutations(calls) ==> c in calls
  {
    if calls != [] {
      var n := |calls| - 1;
      MutationsMonotone(calls[..n]);
      assert forall c :: c in calls[..n] ==> c.now <= calls[n].now;
    }
  }

  /** Leaving out every read and every cleanup of a run changes no later read. */
  lemma {:induction false} EvictionsInvisible<T>(calls: seq<Call<T>>, default: Option<int>, key: string, now: int)
    requires Monotone(calls) && (calls != [] ==> calls[|calls| - 1].now <= now)
    ensures Found(Run(Mutations(calls), default), key, now) == Found(Run(calls, default), key, now)
  {
    var kept := Mutations(calls);
    MutationsMonotone(calls);
    MutationsDecide(calls, default, key);
    if kept != [] {
      var c := kept[|kept| - 1];
      assert c in calls;
      assert c.now <= now;
    }
    GetReturnsPromised(calls, default, key, now);
    GetReturnsPromised(kept, default, key, now);
  }

  /** `remove` does show them: its answer is whether the entry is still held,
      which agrees with what a read promises exactly if no expired entry lingers. */
  lemma {:induction false} RemoveAgreesIff<T>(calls: seq<Call<T>>, default: Option<int>, key: string, now: int)
    requires Monotone(calls) && (calls != [] ==> calls[|calls| - 1].now <= now)
    ensures (key in Run(calls, default) <==> Promised(calls, default, key, now).Some?)
       <==> !(Holds(calls, default, key) && Expired(Current(calls, default, key).value.expiresAt, now))
  {
    StoredExactly(calls, default, key);
    GetReturnsPromised(calls, default, key, now);
  }

  // ------------------------------------------------------------- the cache

  class MemoryCache<T> {
    var storage: Storage<T>
    const default: Option<int>
    ghost var calls: seq<Call<T>>

    ghost predicate Valid()
      reads this
    {
      Monotone(calls) && storage == Run(calls, default)
    }

    /** A clock reading not before any earlier one. */
    ghost predicate Ticks(now: int)
      reads this
    {
      calls != [] ==> calls[|calls| - 1].now <= now
    }

    constructor (ttl: Option<int>)
      ensures Valid() && calls == [] && default == ttl
    {
      storage, default, calls := map[], ttl, [];
    }

    method Get(key: string, now: int) returns (r: Option<T>)
      requires Valid() && Ticks(now)
      modifies this
      ensures Valid() && calls == old(calls) + [Call.Get(key, now)]
      ensures r == Promised(old(calls), default, key, now)
    {
      GetReturnsPromised(calls, default, key, now);
      Logged(calls, default, Call.Get(key, now));
      if key in storage {
        var entry := storage[key];
        if Expired(entry.expiresAt, now) {
          storage := storage - {key};
          r := None;
        } else {
          r := Some(entry.data);
        }
      } else {
        r := None;
      }
      calls := calls + [Call.Get(key, now)];
    }

    method Set(key: string, value: T, ttl: Option<int>, now: int)
      requires Valid() && Ticks(now)
      modifies this
      ensures Valid() && calls == old(calls) + [Call.Set(key, value, ttl, now)]
    {
      Logged(calls, default, Call.Set(key, value, ttl, now));
      storage := storage[key := Entry(value, Deadline(ttl, default, now))];
      calls := calls + [Call.Set(key, value, ttl, now)];
    }

    method Remove(key: string, now: int) returns (removed: bool)
      requires Valid() && Ticks(now)
      modifies this
      ensures Valid() && calls == old(calls) + [Call.Remove(key, now)]
      ensures removed <==> Holds(old(calls), default, key)
    {
      StoredExactly(calls, default, key);
      Logged(calls, default, Call.Remove(key, now));
      removed := key in storage;
      storage := storage - {key};
      calls := calls + [Call.Remove(key, now)];
    }

    method CleanupExpired(now: int)
      requires Valid() && Ticks(now)
      modifies this
      ensures Valid() && calls == old(calls) + [Call.Cleanup(now)]
    {
      Logged(calls, default, Call.Cleanup(now));
      storage := map k | k in storage
        && (storage[k].expiresAt.Some? ==> now <= storage[k].expiresAt.value) :: storage[k];
      calls := calls + [Call.Cleanup(now)];
    }

    method Clear(now: int)
      requires Valid() && Ticks(now)
      modifies this
      ensures Valid() && calls == old(calls) + [Call.Clear(now)]
    {
      Logged(calls, default, Call.Clear(now));
      storage := map[];
      calls := calls + [Call.Clear(now)];
    }
  }

  lemma Logged<T>(calls: seq<Call<T>>, default: Option<int>, c: Call<T>)
    requires Monotone(calls) && (calls != [] ==> calls[|calls| - 1].now <= c.now)
    ensures Monotone(calls + [c]) && Run(calls + [c], default) == Apply(Run(calls, default), default, c)
  {
    assert (calls + [c])[..|calls|] == calls;
    forall i | 0 <= i < |calls|
      ensures calls[i].now <= c.now
    {
      assert i < |calls| - 1 ==> calls[i].now <= calls[|calls| - 1].now;
    }
  }
}
