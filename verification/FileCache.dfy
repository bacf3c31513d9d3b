/** The file service and its write-through data cache, in the configuration
    with a single backing store. */
module FileCache {
  import opened Basics

  type Bytes = seq<bv8>

  datatype Info = Info(id: nat, account: string, device: string, hash: string)

  /** The backing store: metadata, contents, and the id counter for records
      that arrive without one. */
  datatype Backing = Backing(infos: map<nat, Info>, data: map<nat, Bytes>, nextId: nat)

  datatype Answer =
    | Done
    | StorageFailed
    | NotFound
    | Data(bytes: Option<Bytes>)
    | FileIs(info: Info, contents: Bytes)

  /** Calls of the service. Each backing write may fail, which leaves the
      backing store as it was. */
  datatype Op =
    | StoreFile(info: Info, bytes: Bytes, infoOk: bool, dataOk: bool)
    | CopyData(source: nat, target: nat, writeOk: bool)
    | Restore(source: nat, target: nat, writeOk: bool)
    | Delete(id: nat, deleteOk: bool)
    | GetFile(id: nat)
    | GetFileData(id: nat)

  // ------------------------------------------------- a service with no cache

  function Lookup<V>(m: map<nat, V>, id: nat): Option<V> {
    if id in m then Some(m[id]) else None
  }

  function WithInfo(b: Backing, info: Info): Backing {
    if info.id == 0 then b.(infos := b.infos[b.nextId := info.(id := b.nextId)], nextId := b.nextId + 1)
    else b.(infos := b.infos[info.id := info])
  }

  function Copied(b: Backing, source: nat, target: nat, writeOk: bool): (Backing, Answer) {
    if source !in b.data then (b, NotFound)
    else if !writeOk then (b, StorageFailed)
    else (b.(data := b.data[target := b.data[source]]), Done)
  }

  /** What a call does and answers when nothing is cached. */
  function Plain(b: Backing, op: Op): (Backing, Answer) {
    match op
    case StoreFile(info, bytes, infoOk, dataOk) =>
      if !infoOk then (b, StorageFailed)
      else if !dataOk then (WithInfo(b, info), StorageFailed)
      else (WithInfo(b, info).(data := b.data[info.id := bytes]), Done)
    case CopyData(source, target, writeOk) => Copied(b, source, target, writeOk)
    case Restore(source, target, writeOk) => Copied(b, source, target, writeOk)
    case Delete(id, deleteOk) =>
      if id !in b.infos then (b, NotFound)
      else if !deleteOk then (b, StorageFailed)
      else (b.(infos := b.infos - {id}, data := b.data - {id}), Done)
    case GetFile(id) =>
      (b, if id in b.infos && id in b.data then FileIs(b.infos[id], b.data[id]) else NotFound)
    case GetFileData(id) => (b, Data(Lookup(b.data, id)))
  }

  function PlainRun(b: Backing, ops: seq<Op>): (r: (Backing, seq<Answer>))
    ensures |r.1| == |ops|
  {
    if ops == [] then (b, [])
    else
      var (before, answers) := PlainRun(b, ops[..|ops| - 1]);
      var (after, answer) := Plain(before, ops[|ops| - 1]);
      (after, answers + [answer])
  }

  // ----------------------------------------------------- the cached service

  class FileService {
    var cache: map<nat, Bytes>
    var backing: Backing

    /** Every cached entry equals the backing bytes. */
    ghost predicate Coherent()
      reads this
    {
      forall id :: id in cache ==> id in backing.data && cache[id] == backing.data[id]
    }

    constructor ()
      ensures Coherent() && cache == map[] && backing == Backing(map[], map[], 1)
    {
      cache, backing := map[], Backing(map[], map[], 1);
    }

    method Store(info: Info, bytes: Bytes, infoOk: bool, dataOk: bool) returns (a: Answer)
      requires Coherent()
      modifies this
      ensures Coherent()
      ensures (backing, a) == Plain(old(backing), StoreFile(info, bytes, infoOk, dataOk))
    {
      if !infoOk {
        return StorageFailed;
      }
      backing := WithInfo(backing, info);
      if !dataOk {
        return StorageFailed;
      }
      backing := backing.(data := backing.data[info.id := bytes]);
      cache := cache[info.id := bytes];
      a := Done;
    }

    method ReadData(id: nat) returns (r: Option<Bytes>)
      requires Coherent()
      ensures r == Lookup(backing.data, id)
    {
      if id in cache {
        return Some(cache[id]);
      }
      r := Lookup(backing.data, id);
    }

    method CopyFileData(source: nat, target: nat, writeOk: bool) returns (a: Answer)
      requires Coherent()
      modifies this
      ensures Coherent()
      ensures (backing, a) == Plain(old(backing), CopyData(source, target, writeOk))
    {
      var bytes := ReadData(source);
      if bytes.None? {
        return NotFound;
      }
      if !writeOk {
        return StorageFailed;
      }
      backing := backing.(data := backing.data[target := bytes.value]);
      cache := cache[target := bytes.value];
      a := Done;
    }

    method RestoreVersion(source: nat, target: nat, writeOk: bool) returns (a: Answer)
      requires Coherent()
      modifies this
      ensures Coherent()
      ensures (backing, a) == Plain(old(backing), Restore(source, target, writeOk))
    {
      a := CopyFileData(source, target, writeOk);
      if a != Done {
        return;
      }
      var bytes := ReadData(target);
      cache := cache[target := if bytes.Some? then bytes.value else []];
    }

    method DeleteFile(id: nat, deleteOk: bool) returns (a: Answer)
      requires Coherent()
      modifies this
      ensures Coherent()
      ensures (backing, a) == Plain(old(backing), Delete(id, deleteOk))
    {
      if id !in backing.infos {
        return NotFound;
      }
      if !deleteOk {
        return StorageFailed;
      }
      backing := backing.(infos := backing.infos - {id}, data := backing.data - {id});
      cache := cache - {id};
      a := Done;
    }

    method ReadFile(id: nat) returns (a: Answer)
      requires Coherent()
      modifies this`cache
      ensures Coherent()
      ensures (backing, a) == Plain(old(backing), GetFile(id))
    {
      if id in cache {
        if id in backing.infos {
          return FileIs(backing.infos[id], cache[id]);
        }
      }
      if id in backing.infos {
        if id in backing.data {
          cache := cache[id := backing.data[id]];
          return FileIs(backing.infos[id], backing.data[id]);
        }
      }
      a := NotFound;
    }

    method Perform(op: Op) returns (a: Answer)
      requires Coherent()
      modifies this
      ensures Coherent() && (backing, a) == Plain(old(backing), op)
    {
      match op
      case StoreFile(info, bytes, infoOk, dataOk) => a := Store(info, bytes, infoOk, dataOk);
      case CopyData(source, target, writeOk) => a := CopyFileData(source, target, writeOk);
      case Restore(source, target, writeOk) => a := RestoreVersion(source, target, writeOk);
      case Delete(id, deleteOk) => a := DeleteFile(id, deleteOk);
      case GetFile(id) => a := ReadFile(id);
      case GetFileData(id) =>
        var bytes := ReadData(id);
        a := Data(bytes);
    }

    /** Refinement: any sequence of calls, with any pattern of failing writes,
        gets the answers a service without a cache gives, and leaves the same
        backing store. */
    method PerformAll(ops: seq<Op>) returns (answers: seq<Answer>)
      requires Coherent()
      modifies this
      ensures Coherent() && (backing, answers) == PlainRun(old(backing), ops)
    {
      ghost var start := backing;
      answers := [];
      for n := 0 to |ops|
        invariant Coherent() && (backing, answers) == PlainRun(start, ops[..n])
      {
        var a := Perform(ops[n]);
        answers := answers + [a];
        assert ops[..n + 1][..n] == ops[..n];
      }
      assert ops[..|ops|] == ops;
    }

    /** The raw data write goes past the cache: it keeps the two in step
        exactly when the id is uncached or the bytes are the cached ones. */
    method RawStoreFileData(id: nat, bytes: Bytes)
      requires Coherent()
      modifies this`backing
      ensures backing == old(backing).(data := old(backing).data[id := bytes])
      ensures Coherent() <==> id !in cache || cache[id] == bytes
    {
      backing := backing.(data := backing.data[id := bytes]);
    }
  }

  // ------------------------------------------------ what the answers amount to

  /** Whether a call may change what is stored under an id. */
  predicate Touches(op: Op, id: nat) {
    match op
    case StoreFile(info, _, _, _) => info.id == id
    case CopyData(_, target, _) => target == id
    case Restore(_, target, _) => target == id
    case Delete(x, _) => x == id
    case _ => false
  }

  /** Reads return the last write: bytes stored under an id are what every later
      read returns, until a call touches that id again. */
  lemma {:induction false} LastWriteWins(b: Backing, id: nat, ops: seq<Op>)
    requires forall op :: op in ops ==> !Touches(op, id)
    ensures Lookup(PlainRun(b, ops).0.data, id) == Lookup(b.data, id)
  {
    if ops != [] {
      var n := |ops| - 1;
      LastWriteWins(b, id, ops[..n]);
      assert ops[n] in ops;
    }
  }

  /** Copying a file onto itself changes no byte, whether or not the write succeeds. */
  lemma RestoreOntoItself(b: Backing, id: nat, writeOk: bool)
    ensures Plain(b, Restore(id, id, writeOk)).0 == b
  {
    if id in b.data {
      assert b.data[id := b.data[id]] == b.data;
    }
  }

  // ------------------------------------------------------ what reads return

  /** What a call answers after a run of others. */
  function AnswerAfter(b: Backing, ops: seq<Op>, op: Op): Answer {
    Plain(PlainRun(b, ops).0, op).1
  }

  /** It is the last answer of the run that ends with the call. */
  lemma AnswerIsLast(b: Backing, ops: seq<Op>, op: Op)
    ensures PlainRun(b, ops + [op]).1 == PlainRun(b, ops).1 + [AnswerAfter(b, ops, op)]
  {
    assert (ops + [op])[..|ops|] == ops;
  }

  lemma {:induction false} FirstThenRest(b: Backing, op: Op, ops: seq<Op>)
    ensures PlainRun(b, [op] + ops).0 == PlainRun(Plain(b, op).0, ops).0
  {
    var all := [op] + ops;
    if ops == [] {
      assert all[..0] == [] && all[0] == op;
      assert PlainRun(b, all[..0]).0 == b;
    } else {
      var n := |ops| - 1;
      FirstThenRest(b, op, ops[..n]);
      assert all[..|all| - 1] == [op] + ops[..n] && all[|all| - 1] == ops[n];
    }
  }

  predicate Untouched(ops: seq<Op>, id: nat) {
    forall op :: op in ops ==> !Touches(op, id)
  }

  /** Stored bytes are what a later read returns, until a call touches the id. */
  lemma StoreThenRead(b: Backing, info: Info, bytes: Bytes, ops: seq<Op>)
    requires Untouched(ops, info.id)
    ensures Plain(b, StoreFile(info, bytes, true, true)).1 == Done
    ensures AnswerAfter(b, [StoreFile(info, bytes, true, true)] + ops, GetFileData(info.id)) == Data(Some(bytes))
  {
    FirstThenRest(b, StoreFile(info, bytes, true, true), ops);
    LastWriteWins(Plain(b, StoreFile(info, bytes, true, true)).0, info.id, ops);
  }

  /** A deleted file is gone for both kinds of read, until a call touches the id. */
  lemma DeleteThenRead(b: Backing, id: nat, ops: seq<Op>)
    requires Untouched(ops, id) && id in b.infos
    ensures Plain(b, Delete(id, true)).1 == Done
    ensures AnswerAfter(b, [Delete(id, true)] + ops, GetFileData(id)) == Data(None)
    ensures AnswerAfter(b, [Delete(id, true)] + ops, GetFile(id)) == NotFound
  {
    FirstThenRest(b, Delete(id, true), ops);
    LastWriteWins(Plain(b, Delete(id, true)).0, id, ops);
  }

  /** After a copy or a restore the target reads what the source read before. */
  lemma CopyThenRead(b: Backing, source: nat, target: nat, ops: seq<Op>)
    requires Untouched(ops, target) && source in b.data
    ensures AnswerAfter(b, [CopyData(source, target, true)] + ops, GetFileData(target))
         == AnswerAfter(b, [], GetFileData(source))
    ensures AnswerAfter(b, [Restore(source, target, true)] + ops, GetFileData(target))
         == AnswerAfter(b, [], GetFileData(source))
    ensures Plain(b, CopyData(source, target, true)).1 == Done && Plain(b, Restore(source, target, true)).1 == Done
  {
    FirstThenRest(b, CopyData(source, target, true), ops);
    FirstThenRest(b, Restore(source, target, true), ops);
    LastWriteWins(Plain(b, CopyData(source, target, true)).0, target, ops);
    LastWriteWins(Plain(b, Restore(source, target, true)).0, target, ops);
  }

  /** A call that does not answer `Done` changes no bytes, and only a store whose
      record was written before its bytes failed changes a record. */
  lemma FailureKeeps(b: Backing, op: Op)
    requires Plain(b, op).1 != Done
    ensures Plain(b, op).0.data == b.data
    ensures Plain(b, op).0.infos != b.infos ==> op.StoreFile? && op.infoOk && !op.dataOk
  {
  }

  /** When a call is refused for want of a file, and when for a failed write. */
  lemma RefusedIff(b: Backing, op: Op)
    requires op.CopyData? || op.Restore? || op.Delete?
    ensures Plain(b, op).1 == NotFound <==> if op.Delete? then op.id !in b.infos else op.source !in b.data
    ensures Plain(b, op).1 == Done ==> if op.Delete? then op.deleteOk else op.writeOk
  {
  }

  // --------------------------------------------------------------- file records

  /** How many records the run files under ids from the counter. */
  function Assigned(ops: seq<Op>): nat {
    if ops == [] then 0
    else
      var op := ops[|ops| - 1];
      Assigned(ops[..|ops| - 1]) + if op.StoreFile? && op.info.id == 0 && op.infoOk then 1 else 0
  }

  /** A record stays as it is if no call touches its id and the id counter does
      not come past it. */
  lemma {:induction false} RecordSurvives(b: Backing, id: nat, ops: seq<Op>)
    requires Untouched(ops, id) && !(b.nextId <= id < b.nextId + Assigned(ops))
    ensures Lookup(PlainRun(b, ops).0.infos, id) == Lookup(b.infos, id)
    ensures PlainRun(b, ops).0.nextId == b.nextId + Assigned(ops)
  {
    if ops != [] {
      var n := |ops| - 1;
      RecordSurvives(b, id, ops[..n]);
      assert ops[n] in ops;
    }
  }

  /** Then a stored file is read back whole. */
  lemma StoreThenGetFile(b: Backing, info: Info, bytes: Bytes, ops: seq<Op>)
    requires info.id != 0 && Untouched(ops, info.id) && !(b.nextId <= info.id < b.nextId + Assigned(ops))
    ensures AnswerAfter(b, [StoreFile(info, bytes, true, true)] + ops, GetFile(info.id)) == FileIs(info, bytes)
  {
    var after := Plain(b, StoreFile(info, bytes, true, true)).0;
    FirstThenRest(b, StoreFile(info, bytes, true, true), ops);
    LastWriteWins(after, info.id, ops);
    RecordSurvives(after, info.id, ops);
  }

  /** A file is deleted once: then there is none, until one is stored anew. */
  lemma DeleteTwice(b: Backing, id: nat, ops: seq<Op>, deleteOk: bool)
    requires id in b.infos && Untouched(ops, id) && !(b.nextId <= id < b.nextId + Assigned(ops))
    ensures AnswerAfter(b, [Delete(id, true)] + ops, Delete(id, deleteOk)) == NotFound
  {
    FirstThenRest(b, Delete(id, true), ops);
    RecordSurvives(Plain(b, Delete(id, true)).0, id, ops);
  }

  /** The id counter knows nothing of ids that callers chose: a store without an
      id can take over another file's record, which then has the wrong bytes. */
  lemma CounterTakesOver(b: Backing, info: Info, bytes: Bytes, other: Info, more: Bytes)
    requires info.id == b.nextId != 0 && other.id == 0
    ensures var stores := [StoreFile(info, bytes, true, true)] + [StoreFile(other, more, true, true)];
      AnswerAfter(b, stores, GetFile(info.id)) == FileIs(other.(id := info.id), bytes)
  {
    var first, second := StoreFile(info, bytes, true, true), StoreFile(other, more, true, true);
    FirstThenRest(b, first, [second]);
    FirstThenRest(Plain(b, first).0, second, []);
    assert [second] + [] == [second];
  }
}
