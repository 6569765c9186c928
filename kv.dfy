/**
  The Workers KV namespace as the tool sees it: a store of values by key,
  the log of requests sent to it, and an answer for every request. A
  rejected write (bulk PUT, bulk DELETE, record PUT) is the HTTP error that
  `handleHttpError` (src/worker.js:55-58) turns into `process.exit(1)`. A
  rejected GET is the error `getFileHashes` sees (src/worker.js:217-231):
  `{}` on a 404, otherwise the run stops.
*/
module Kv {
  import opened Wrappers
  import opened HashCatalog

  /** One element of a bulk PUT body. */
  datatype KvPair = KvPair(key: string, value: string, base64: bool)

  /** The requests the tool sends. */
  datatype Request =
    | GetValue(key: string)                  // GET .../values/:key
    | PutBulk(pairs: seq<KvPair>)            // PUT .../bulk
    | DeleteBulk(keys: seq<string>)          // DELETE .../bulk
    | PutValue(key: string, record: Catalog) // PUT .../values/:key with the hash record as JSON

  /** A stored value: a file's contents, or the JSON hash record. */
  datatype Stored = Blob(value: string, base64: bool) | Record(catalog: Catalog)

  /** How the service answers a request: it is carried out, or it fails with an HTTP status. */
  datatype Reply = Accepted | Rejected(status: int)

  /**
    The body of a successful GET: empty (falsy), the JSON text of a hash
    record, or the non-empty text of a value a bulk PUT stored.
  */
  datatype Body = EmptyBody | JsonBody(catalog: Catalog) | Text(text: string)

  datatype GetResponse = Response(body: Body) | HttpError(status: int)

  type Store = map<string, Stored>

  /** Writes every pair in order; a later pair for the same key wins. */
  function PutAll(store: Store, pairs: seq<KvPair>): Store
    decreases |pairs|
  {
    if pairs == [] then store
    else PutAll(store[pairs[0].key := Blob(pairs[0].value, pairs[0].base64)], pairs[1..])
  }

  /** The effect of an accepted request on the store. */
  function Apply(store: Store, req: Request): Store
  {
    match req
    case GetValue(_) => store
    case PutBulk(pairs) => PutAll(store, pairs)
    case DeleteBulk(keys) => store - (set k | k in keys)
    case PutValue(key, record) => store[key := Record(record)]
  }

  /** What a GET of `key` returns. */
  function Respond(store: Store, reply: Request -> Reply, key: string): GetResponse
  {
    match reply(GetValue(key))
    case Rejected(status) => HttpError(status)
    case Accepted =>
      if key !in store then HttpError(404)
      else match store[key]
        case Record(c) => Response(JsonBody(c))
        case Blob(v, _) => Response(if v == "" then EmptyBody else Text(v))
  }

  /** The requests sent, the store afterwards, and the status of the request that stopped the run, if any. */
  datatype Exec = Exec(sent: seq<Request>, store: Store, halted: Option<int>)

  /** Sends `reqs` one after another, stopping after the first one that is rejected. */
  function Execute(store: Store, reply: Request -> Reply, reqs: seq<Request>): (e: Exec)
    decreases |reqs|
  {
    if reqs == [] then Exec([], store, None)
    else match reply(reqs[0])
      case Rejected(status) => Exec([reqs[0]], store, Some(status))
      case Accepted =>
        var rest := Execute(Apply(store, reqs[0]), reply, reqs[1..]);
        Exec([reqs[0]] + rest.sent, rest.store, rest.halted)
  }

  predicate IsPrefix<T(==)>(a: seq<T>, b: seq<T>)
  {
    |a| <= |b| && a == b[..|a|]
  }

  /** The service accepts every one of `reqs`. */
  predicate AllAccepted(reqs: seq<Request>, reply: Request -> Reply)
  {
    forall q :: q in reqs ==> reply(q) == Accepted
  }

  /**
    Execution stops exactly at the first rejection: what was sent is a
    prefix of the requests, every request sent before the last was
    accepted, and the run completes iff every request was sent and accepted.
  */
  lemma {:induction false} ExecuteStopsAtRejection(store: Store, reply: Request -> Reply, reqs: seq<Request>)
    ensures var e := Execute(store, reply, reqs);
      && IsPrefix(e.sent, reqs)
      && (reqs != [] ==> e.sent != [])
      && (forall i :: 0 <= i < |e.sent| - 1 ==> reply(e.sent[i]) == Accepted)
      && (e.halted == None <==> e.sent == reqs && AllAccepted(reqs, reply))
      && (e.halted.Some? ==> reply(e.sent[|e.sent| - 1]) == Rejected(e.halted.value))
    decreases |reqs|
  {
    if reqs != [] && reply(reqs[0]) == Accepted {
      ExecuteStopsAtRejection(Apply(store, reqs[0]), reply, reqs[1..]);
      var e := Execute(store, reply, reqs);
      var rest := Execute(Apply(store, reqs[0]), reply, reqs[1..]);
      assert e.sent == [reqs[0]] + rest.sent;
      if e.halted == None {
        assert reqs == [reqs[0]] + reqs[1..];
      }
    }
  }

  /** Whatever went before, what an execution sent extends to a prefix of what it was given. */
  lemma SentAfter(before: seq<Request>, store: Store, reply: Request -> Reply, reqs: seq<Request>)
    ensures IsPrefix(before + Execute(store, reply, reqs).sent, before + reqs)
  {
    var sent := Execute(store, reply, reqs).sent;
    ExecuteStopsAtRejection(store, reply, reqs);
    assert (before + reqs)[..|before| + |sent|] == before + reqs[..|sent|];
  }

  /** Sends `first`'s requests and then `second`'s. */
  function Then(first: Exec, second: Exec): Exec
  {
    Exec(first.sent + second.sent, second.store, second.halted)
  }

  /** Running `a + b` is running `a` and, if nothing was rejected, running `b` from where `a` left the store. */
  lemma {:induction false} ExecuteConcat(store: Store, reply: Request -> Reply, a: seq<Request>, b: seq<Request>)
    ensures var e := Execute(store, reply, a);
      Execute(store, reply, a + b) == if e.halted.Some? then e else Then(e, Execute(e.store, reply, b))
    decreases |a|
  {
    if a == [] {
      assert a + b == b;
    } else {
      assert (a + b)[0] == a[0] && (a + b)[1..] == a[1..] + b;
      if reply(a[0]) == Accepted {
        var s1 := Apply(store, a[0]);
        ExecuteConcat(s1, reply, a[1..], b);
        var r := Execute(s1, reply, a[1..]);
        if r.halted == None {
          var t := Execute(r.store, reply, b);
          assert [a[0]] + (r.sent + t.sent) == ([a[0]] + r.sent) + t.sent;
        }
      }
    }
  }

  /**
    Running one more request of `reqs` after a prefix that ran to the end:
    the prefix grows by that request, and if it is rejected the whole of
    `reqs` stops there too.
  */
  lemma {:induction false} ExecuteStep(store: Store, reply: Request -> Reply, reqs: seq<Request>, i: nat)
    requires i < |reqs| && Execute(store, reply, reqs[..i]).halted == None
    ensures var e := Execute(store, reply, reqs[..i]);
      Execute(store, reply, reqs[..i + 1]) ==
        match reply(reqs[i])
        case Accepted => Exec(e.sent + [reqs[i]], Apply(e.store, reqs[i]), None)
        case Rejected(status) => Exec(e.sent + [reqs[i]], e.store, Some(status))
    ensures reply(reqs[i]).Rejected? ==> Execute(store, reply, reqs) == Execute(store, reply, reqs[..i + 1])
  {
    assert reqs[..i + 1] == reqs[..i] + [reqs[i]];
    ExecuteConcat(store, reply, reqs[..i], [reqs[i]]);
    var e := Execute(store, reply, reqs[..i]);
    assert Execute(e.store, reply, [reqs[i]]).sent == [reqs[i]];
    if reply(reqs[i]).Rejected? {
      ExecuteConcat(store, reply, reqs[..i + 1], reqs[i + 1..]);
      assert reqs[..i + 1] + reqs[i + 1..] == reqs;
    }
  }

  /** The store once every request of `reqs` has been carried out, in order. */
  function ApplyAll(store: Store, reqs: seq<Request>): Store
    decreases |reqs|
  {
    if reqs == [] then store else ApplyAll(Apply(store, reqs[0]), reqs[1..])
  }

  /** A run that nothing stopped leaves the store every request of it carried out. */
  lemma {:induction false} ExecuteCompletes(store: Store, reply: Request -> Reply, reqs: seq<Request>)
    requires Execute(store, reply, reqs).halted == None
    ensures Execute(store, reply, reqs).store == ApplyAll(store, reqs)
    decreases |reqs|
  {
    if reqs != [] {
      ExecuteCompletes(Apply(store, reqs[0]), reply, reqs[1..]);
    }
  }

  /** Requests that would each leave the store as it is leave it so however far the run gets. */
  lemma {:induction false} ExecuteNoOps(store: Store, reply: Request -> Reply, reqs: seq<Request>)
    requires forall q :: q in reqs ==> Apply(store, q) == store
    ensures Execute(store, reply, reqs).store == store
    decreases |reqs|
  {
    if reqs != [] {
      assert reqs[0] in reqs;
      assert forall q :: q in reqs[1..] ==> q in reqs;
      ExecuteNoOps(store, reply, reqs[1..]);
    }
  }

  lemma {:induction false} ApplyAllConcat(store: Store, a: seq<Request>, b: seq<Request>)
    ensures ApplyAll(store, a + b) == ApplyAll(ApplyAll(store, a), b)
    decreases |a|
  {
    if a == [] {
      assert a + b == b;
    } else {
      assert (a + b)[0] == a[0] && (a + b)[1..] == a[1..] + b;
      ApplyAllConcat(Apply(store, a[0]), a[1..], b);
    }
  }

  lemma {:induction false} PutAllConcat(store: Store, a: seq<KvPair>, b: seq<KvPair>)
    ensures PutAll(store, a + b) == PutAll(PutAll(store, a), b)
    decreases |a|
  {
    if a == [] {
      assert a + b == b;
    } else {
      assert (a + b)[0] == a[0] && (a + b)[1..] == a[1..] + b;
      PutAllConcat(store[a[0].key := Blob(a[0].value, a[0].base64)], a[1..], b);
    }
  }

  /** A bulk PUT leaves every key that none of its pairs names as it was. */
  lemma {:induction false} PutAllUntouched(store: Store, pairs: seq<KvPair>, k: string)
    requires forall j :: 0 <= j < |pairs| ==> pairs[j].key != k
    ensures k in PutAll(store, pairs) <==> k in store
    ensures k in store ==> PutAll(store, pairs)[k] == store[k]
    decreases |pairs|
  {
    if pairs != [] {
      assert pairs[0].key != k;
      PutAllUntouched(store[pairs[0].key := Blob(pairs[0].value, pairs[0].base64)], pairs[1..], k);
    }
  }

  /** A bulk PUT leaves under a key the value of the last pair that names it. */
  lemma {:induction false} PutAllWrites(store: Store, pairs: seq<KvPair>, j: int)
    requires 0 <= j < |pairs|
    requires forall i :: j < i < |pairs| ==> pairs[i].key != pairs[j].key
    ensures pairs[j].key in PutAll(store, pairs)
    ensures PutAll(store, pairs)[pairs[j].key] == Blob(pairs[j].value, pairs[j].base64)
    decreases |pairs|
  {
    var next := store[pairs[0].key := Blob(pairs[0].value, pairs[0].base64)];
    if j == 0 {
      PutAllUntouched(next, pairs[1..], pairs[0].key);
    } else {
      PutAllWrites(next, pairs[1..], j - 1);
    }
  }

  /** The namespace a run talks to. */
  class Namespace {
    var store: Store
    var sent: seq<Request>
    const reply: Request -> Reply

    constructor (store: Store, reply: Request -> Reply)
      ensures this.store == store && this.sent == [] && this.reply == reply
    {
      this.store := store;
      this.sent := [];
      this.reply := reply;
    }

    /** Sends a write request; the store changes only if it is accepted. */
    method Send(req: Request) returns (ok: bool)
      modifies this
      ensures sent == old(sent) + [req]
      ensures ok <==> reply(req) == Accepted
      ensures store == if ok then Apply(old(store), req) else old(store)
    {
      sent := sent + [req];
      ok := reply(req) == Accepted;
      if ok {
        store := Apply(store, req);
      }
    }

    /** Reads the value stored under `key`. */
    method Get(key: string) returns (resp: GetResponse)
      modifies this
      ensures sent == old(sent) + [GetValue(key)] && store == old(store)
      ensures resp == Respond(store, reply, key)
    {
      sent := sent + [GetValue(key)];
      resp := Respond(store, reply, key);
    }
  }
}
