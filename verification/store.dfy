/**
 * The in-memory key-value store behind the remote interface (src/Server.java).
 *
 * The server owns one mutable map from string keys to string values and
 * offers put, get and delete. Each of the three Java methods is
 * `synchronized` on the one server object, so every call is a single atomic
 * step: the class `Server` below is the sequential object, and the pure
 * function `Apply` is that atomic step on map values, which the lemmas and
 * the client model reason about.
 */
module KeyValueStore {
  import opened Responses

  /** The message templates of the three operations. */
  function PutSuccessMessage(key: string, value: string): string
  {
    "PUT Request successful with key = " + key + " and value = " + value
  }

  function GetSuccessMessage(key: string, value: string): string
  {
    "GET Request Successful with key = " + key + ", value = " + value
  }

  function DeleteSuccessMessage(key: string): string
  {
    "DELETE Request successful with key = " + key
  }

  function NotFoundMessage(key: string): string
  {
    "Key = " + key + " not found"
  }

  /** One store operation with its arguments. */
  datatype Op = Put(key: string, value: string) | Get(key: string) | Delete(key: string)

  /** The store after an operation, and the response the operation returned. */
  datatype Outcome = Outcome(store: map<string, string>, response: Response)

  /**
   * One atomic operation on the store. Put always succeeds and inserts or
   * overwrites; get and delete report "404" on an absent key and then leave
   * the store as it was; get never changes the store; no key other than the
   * operation's own is ever touched.
   */
  function Apply(store: map<string, string>, op: Op): (r: Outcome)
    ensures r.response.status == StatusOk || r.response.status == StatusNotFound
    ensures r.response.status == StatusNotFound <==> !op.Put? && op.key !in store
    ensures r.response.status == StatusNotFound ==> r.response.message == NotFoundMessage(op.key)
    ensures r.store - {op.key} == store - {op.key}
    ensures op.key in r.store <==> op.Put? || (op.Get? && op.key in store)
    ensures op.Put? ==> r.store[op.key] == op.value
                        && r.response.message == PutSuccessMessage(op.key, op.value)
    ensures op.Get? ==> r.store == store
    ensures op.Get? && op.key in store ==>
              r.response.message == GetSuccessMessage(op.key, store[op.key])
    ensures op.Delete? && op.key in store ==> r.response.message == DeleteSuccessMessage(op.key)
    ensures op.Delete? && op.key !in store ==> r.store == store
  {
    match op
    case Put(key, value) =>
      Outcome(store[key := value], Response(StatusOk, PutSuccessMessage(key, value)))
    case Get(key) =>
      if key !in store then Outcome(store, Response(StatusNotFound, NotFoundMessage(key)))
      else Outcome(store, Response(StatusOk, GetSuccessMessage(key, store[key])))
    case Delete(key) =>
      if key !in store then Outcome(store, Response(StatusNotFound, NotFoundMessage(key)))
      else Outcome(store - {key}, Response(StatusOk, DeleteSuccessMessage(key)))
  }

  /** A run of operations, one atomic step after another, and the responses in order. */
  datatype Trace = Trace(store: map<string, string>, responses: seq<Response>)

  /**
   * Any set of concurrent calls is serialized by the server's lock into some
   * order; `Run` is the effect of one such order.
   */
  function Run(store: map<string, string>, ops: seq<Op>): (t: Trace)
    ensures |t.responses| == |ops|
    ensures forall i :: 0 <= i < |ops| && ops[i].Put? ==> t.responses[i].status == StatusOk
    decreases |ops|
  {
    if ops == [] then Trace(store, [])
    else
      var first := Apply(store, ops[0]);
      var rest := Run(first.store, ops[1..]);
      Trace(rest.store, [first.response] + rest.responses)
  }

  // ---------------------------------------------------------------------
  // Properties of single operations and short sequences
  // ---------------------------------------------------------------------

  /** A put is observed by the next get of the same key. */
  lemma PutThenGet(store: map<string, string>, key: string, value: string)
    ensures Apply(Apply(store, Put(key, value)).store, Get(key)).response
            == Response(StatusOk, GetSuccessMessage(key, value))
  {
  }

  /** Putting a key twice is the same as putting only the second value: last write wins. */
  lemma LastWriteWins(store: map<string, string>, key: string, v1: string, v2: string)
    ensures Apply(Apply(store, Put(key, v1)).store, Put(key, v2)).store
            == Apply(store, Put(key, v2)).store
  {
  }

  /** A put adds an entry only when the key is new; an overwrite keeps one entry for the key. */
  lemma PutSize(store: map<string, string>, key: string, value: string)
    ensures |Apply(store, Put(key, value)).store| == if key in store then |store| else |store| + 1
  {
    var after := Apply(store, Put(key, value)).store;
    if key in store {
      assert after.Keys == store.Keys;
    } else {
      assert after.Keys == store.Keys + {key};
    }
  }

  /** A successful delete removes exactly one entry. */
  lemma DeleteSize(store: map<string, string>, key: string)
    requires key in store
    ensures |Apply(store, Delete(key)).store| == |store| - 1
  {
    var after := Apply(store, Delete(key)).store;
    assert after.Keys == store.Keys - {key};
  }

  /** After a delete, a get of the key reports it missing. */
  lemma DeleteThenGet(store: map<string, string>, key: string)
    ensures Apply(Apply(store, Delete(key)).store, Get(key)).response
            == Response(StatusNotFound, NotFoundMessage(key))
  {
  }

  /**
   * Deleting twice: the second delete never reports success, and it changes
   * nothing. When the key was present, the first delete succeeded.
   */
  lemma DeleteTwice(store: map<string, string>, key: string)
    ensures var first := Apply(store, Delete(key));
            var second := Apply(first.store, Delete(key));
            && (first.response.status == StatusOk <==> key in store)
            && second.response == Response(StatusNotFound, NotFoundMessage(key))
            && second.store == first.store
  {
  }

  /** Deleting a key that a put just created restores the store: delete undoes a fresh put. */
  lemma DeleteUndoesFreshPut(store: map<string, string>, key: string, value: string)
    requires key !in store
    ensures Apply(Apply(store, Put(key, value)).store, Delete(key)).store == store
  {
    var after := Apply(Apply(store, Put(key, value)).store, Delete(key)).store;
    assert after.Keys == store.Keys;
  }

  // ---------------------------------------------------------------------
  // Concurrent calls, serialized by the lock
  // ---------------------------------------------------------------------

  /** The value written to `key` by the last put to it in `ops`, if any. */
  function LastWrite(ops: seq<Op>, key: string): (r: Option<string>)
    ensures r.Some? ==> exists i :: 0 <= i < |ops| && ops[i] == Put(key, r.value)
    ensures r.None? ==> forall i :: 0 <= i < |ops| && ops[i].Put? ==> ops[i].key != key
    decreases |ops|
  {
    if ops == [] then None
    else match LastWrite(ops[1..], key)
      case Some(v) => Some(v)
      case None => if ops[0].Put? && ops[0].key == key then Some(ops[0].value) else None
  }

  /** The put `LastWrite` finds is the last one to the key: no later put writes it. */
  lemma {:induction false} LastWriteIsLast(ops: seq<Op>, key: string)
    ensures LastWrite(ops, key).Some? ==>
              exists i :: 0 <= i < |ops| && ops[i] == Put(key, LastWrite(ops, key).value)
                          && forall j :: i < j < |ops| ==> !(ops[j].Put? && ops[j].key == key)
    decreases |ops|
  {
    if ops != [] {
      var tail := ops[1..];
      LastWriteIsLast(tail, key);
      match LastWrite(tail, key)
      case Some(v) =>
        var i :| 0 <= i < |tail| && tail[i] == Put(key, v)
                 && forall j :: i < j < |tail| ==> !(tail[j].Put? && tail[j].key == key);
        assert ops[i + 1] == Put(key, v);
        assert forall j :: i + 1 < j < |ops| ==> ops[j] == tail[j - 1];
      case None =>
        if ops[0].Put? && ops[0].key == key {
          assert forall j :: 0 < j < |ops| ==> ops[j] == tail[j - 1];
          assert ops[0] == Put(key, LastWrite(ops, key).value);
        }
    }
  }

  /** The value a store holds for `key`, if any. */
  function Lookup(store: map<string, string>, key: string): Option<string>
  {
    if key in store then Some(store[key]) else None
  }

  /**
   * Whatever order the lock serializes a batch of puts in, each key ends up
   * with the value of the last put to it in that order (one of the values
   * written, never a mix), and keys nobody wrote keep their previous entry.
   */
  lemma {:induction false} SerializedPuts(store: map<string, string>, ops: seq<Op>, key: string)
    requires forall i :: 0 <= i < |ops| ==> ops[i].Put?
    ensures Lookup(Run(store, ops).store, key)
            == match LastWrite(ops, key) case Some(v) => Some(v) case None => Lookup(store, key)
    decreases |ops|
  {
    if ops != [] {
      var first := Apply(store, ops[0]);
      SerializedPuts(first.store, ops[1..], key);
    }
  }

  /**
   * A delete racing a get on the same key: whichever order the lock picks,
   * the key ends up absent, and the get either sees the old value or
   * reports "404", never anything else.
   */
  lemma DeleteGetRace(store: map<string, string>, key: string)
    ensures Run(store, [Delete(key), Get(key)]).store == store - {key}
    ensures Run(store, [Get(key), Delete(key)]).store == store - {key}
    ensures Run(store, [Delete(key), Get(key)]).responses[1] == Response(StatusNotFound, NotFoundMessage(key))
    ensures var got := Run(store, [Get(key), Delete(key)]).responses[0];
            if key in store then got == Response(StatusOk, GetSuccessMessage(key, store[key]))
            else got == Response(StatusNotFound, NotFoundMessage(key))
  {
    assert [Delete(key), Get(key)][1..] == [Get(key)];
    assert [Get(key), Delete(key)][1..] == [Delete(key)];
    assert [Delete(key)][1..] == [];
    if key !in store {
      assert store - {key} == store;
    }
    assert Run(store, [Delete(key)]).store == store - {key};
  }

  /** So puts to distinct keys are all retrievable afterwards with their own values. */
  lemma {:induction false} DistinctPutsAllRetrievable(store: map<string, string>, ops: seq<Op>, i: nat)
    requires forall j :: 0 <= j < |ops| ==> ops[j].Put?
    requires forall j, k :: 0 <= j < k < |ops| ==> ops[j].key != ops[k].key
    requires i < |ops|
    ensures ops[i].key in Run(store, ops).store
    ensures Run(store, ops).store[ops[i].key] == ops[i].value
  {
    var key := ops[i].key;
    SerializedPuts(store, ops, key);
    var w := LastWrite(ops, key);
    assert w.Some?;
    var j :| 0 <= j < |ops| && ops[j] == Put(key, w.value);
    assert j == i;
  }

  // ---------------------------------------------------------------------
  // The server object
  // ---------------------------------------------------------------------

  /** The remote server: the `store` field is the `HashMap` the methods change in place. */
  class Server {
    var store: map<string, string>

    /** A new server starts with an empty store. */
    constructor ()
      ensures store == map[]
    {
      store := map[];
    }

    /** Insert or overwrite; always "200". */
    method Put(key: string, value: string) returns (res: Response)
      modifies this
      ensures store == old(store)[key := value]
      ensures res == Response(StatusOk, PutSuccessMessage(key, value))
      ensures Outcome(store, res) == Apply(old(store), Op.Put(key, value))
    {
      store := store[key := value];
      res := Response(StatusOk, PutSuccessMessage(key, value));
    }

    /** Look a key up; "404" when it is absent. Changes nothing. */
    method Get(key: string) returns (res: Response)
      ensures res.status == StatusNotFound <==> key !in store
      ensures key !in store ==> res.message == NotFoundMessage(key)
      ensures key in store ==> res == Response(StatusOk, GetSuccessMessage(key, store[key]))
      ensures Outcome(store, res) == Apply(store, Op.Get(key))
    {
      if key !in store {
        res := Response(StatusNotFound, NotFoundMessage(key));
      } else {
        res := Response(StatusOk, GetSuccessMessage(key, store[key]));
      }
    }

    /** Remove a present key with "200"; on an absent key report "404" and change nothing. */
    method Delete(key: string) returns (res: Response)
      modifies this
      ensures key in old(store) ==> store == old(store) - {key}
                                    && res == Response(StatusOk, DeleteSuccessMessage(key))
      ensures key !in old(store) ==> store == old(store)
                                     && res == Response(StatusNotFound, NotFoundMessage(key))
      ensures Outcome(store, res) == Apply(old(store), Op.Delete(key))
    {
      if key !in store {
        res := Response(StatusNotFound, NotFoundMessage(key));
      } else {
        store := store - {key};
        res := Response(StatusOk, DeleteSuccessMessage(key));
      }
    }
  }
}
