/**
  The requests of src/worker.js: the record key, the size check before an
  upload, the bulk PUT bodies, and the four operations the command calls
  (`putItems`, `removeItems`, `getFileHashes`, `putFileHashes`), each run
  against a `Kv.Namespace`.
*/
module Worker {
  import opened Wrappers
  import opened HashCatalog
  import opened Packer
  import opened Kv
  import Config

  /** `prefix || ''`. */
  function OrEmpty(prefix: Option<string>): string
  {
    if prefix.Some? then prefix.value else ""
  }

  /** `${prefix || ''}${key}`: the store key of a file key. */
  function Prefixed(prefix: Option<string>, key: string): (k: string)
    ensures |k| == |OrEmpty(prefix)| + |key|
    ensures k[..|OrEmpty(prefix)|] == OrEmpty(prefix) && k[|OrEmpty(prefix)|..] == key
  {
    OrEmpty(prefix) + key
  }

  /** Prefixing keeps distinct keys distinct. */
  lemma PrefixedInjective(prefix: Option<string>, a: string, b: string)
    ensures Prefixed(prefix, a) == Prefixed(prefix, b) <==> a == b
  {
    if Prefixed(prefix, a) == Prefixed(prefix, b) {
      assert a == Prefixed(prefix, a)[|OrEmpty(prefix)|..];
    }
  }

  /** `${prefix || ''}${hash || 'hashes'}`: where the hash record lives. */
  function RecordKey(prefix: Option<string>, hash: Option<string>): (k: string)
    ensures hash.None? || hash.value == "" ==> k == Prefixed(prefix, "hashes")
    ensures hash.Some? && hash.value != "" ==> k == Prefixed(prefix, hash.value)
  {
    Prefixed(prefix, if hash.Some? && hash.value != "" then hash.value else "hashes")
  }

  /** Why a run stops before it finishes. */
  datatype Failure =
    | ConfigInvalid(error: Config.ConfigError) // `initialize` exits
    | StatFailed(original: string)             // `stat` rejects: the file is missing
    | TooLarge(original: string, size: nat)    // a file of MAX_PAYLOAD bytes or more
    | ReadFailed(status: int)                  // the GET of the record failed with a status other than 404
    | MalformedRecord                          // JSON.parse threw on the stored record
    | WriteFailed(status: int)                 // a write request failed (`handleHttpError`)

  /**
    The body of `getFileHashes`: the parsed record, `{}`, or the error it
    rethrows. `parse` stands for `JSON.parse` of the text a bulk PUT stored
    (after the service's base64 decoding): the object it yields, or `None`
    when it throws.
  */
  function LoadCatalog(resp: GetResponse, parse: string -> Option<Catalog>): (r: Result<Catalog, Failure>)
    ensures r == Ok(EMPTY) <==>
      || resp == HttpError(404) || resp == Response(EmptyBody) || resp == Response(JsonBody(EMPTY))
      || (resp.Response? && resp.body.Text? && parse(resp.body.text) == Some(EMPTY))
    ensures resp.Response? && resp.body.JsonBody? ==> r == Ok(resp.body.catalog)
    ensures resp.Response? && resp.body.Text? && parse(resp.body.text).Some? ==> r == Ok(parse(resp.body.text).value)
    ensures r.Err? <==> (resp.HttpError? && resp.status != 404) || (resp.Response? && resp.body.Text? && parse(resp.body.text).None?)
    ensures resp.HttpError? && resp.status != 404 ==> r == Err(ReadFailed(resp.status))
    ensures r == Err(MalformedRecord) <==> resp.Response? && resp.body.Text? && parse(resp.body.text).None?
  {
    match resp
    case HttpError(status) => if status == 404 then Ok(EMPTY) else Err(ReadFailed(status))
    case Response(EmptyBody) => Ok(EMPTY)
    case Response(JsonBody(c)) => Ok(c)
    case Response(Text(t)) => if parse(t).Some? then Ok(parse(t).value) else Err(MalformedRecord)
  }

  /**
    A record written with `putFileHashes` is what `getFileHashes` reads
    back, as long as the read itself is not rejected.
  */
  lemma RecordRoundTrip(store: Store, reply: Request -> Reply, parse: string -> Option<Catalog>, key: string, c: Catalog)
    requires reply(GetValue(key)) == Accepted
    ensures LoadCatalog(Respond(Apply(store, PutValue(key, c)), reply, key), parse) == Ok(c)
  {
  }

  /**
    Text a bulk PUT left under the key (a file whose key is the record key)
    is handed to `JSON.parse`: the object it yields is the catalog, and
    text it throws on is a malformed record.
  */
  lemma StoredTextRead(store: Store, reply: Request -> Reply, parse: string -> Option<Catalog>, key: string,
                       text: string, base64: bool)
    requires reply(GetValue(key)) == Accepted
    requires key in store && store[key] == Blob(text, base64) && text != ""
    ensures parse(text).Some? ==> LoadCatalog(Respond(store, reply, key), parse) == Ok(parse(text).value)
    ensures parse(text).None? ==> LoadCatalog(Respond(store, reply, key), parse) == Err(MalformedRecord)
  {
  }

  /** A file on disk: its size as `stat` reports it and its contents as `readFile(…, 'base64')` returns them. */
  datatype LocalFile = LocalFile(size: nat, base64: string)

  /** The local folder, by path relative to it. */
  type Disk = map<string, LocalFile>

  /** The file is there to `stat` and is smaller than the bulk-request ceiling. */
  predicate Uploadable(disk: Disk, f: FileEntry)
  {
    f.original in disk && disk[f.original].size < MAX_PAYLOAD
  }

  /**
    The `stat` pass of `putItems`: every file with its size, or the first
    file (in list order) that is missing or too large.
  */
  function Stat(disk: Disk, files: seq<FileEntry>): (r: Result<seq<SizedFile>, Failure>)
    ensures r.Ok? <==> forall i :: 0 <= i < |files| ==> Uploadable(disk, files[i])
    ensures r.Ok? ==> |r.value| == |files| && AllBelowCeiling(r.value)
    ensures r.Ok? ==> forall i :: 0 <= i < |files| ==>
      r.value[i] == SizedFile(files[i], disk[files[i].original].size)
    ensures r.Err? ==> exists i :: (
      && 0 <= i < |files| && !Uploadable(disk, files[i])
      && (forall j :: 0 <= j < i ==> Uploadable(disk, files[j]))
      && r.error == (if files[i].original !in disk then StatFailed(files[i].original)
                     else TooLarge(files[i].original, disk[files[i].original].size)))
    decreases |files|
  {
    if files == [] then Ok([])
    else if files[0].original !in disk then Err(StatFailed(files[0].original))
    else if disk[files[0].original].size >= MAX_PAYLOAD then
      Err(TooLarge(files[0].original, disk[files[0].original].size))
    else match Stat(disk, files[1..])
      case Err(e) => Err(e)
      case Ok(rest) => Ok([SizedFile(files[0], disk[files[0].original].size)] + rest)
  }

  /** Every one of the files can be read from disk. */
  predicate Readable(disk: Disk, files: seq<SizedFile>)
  {
    forall j :: 0 <= j < |files| ==> files[j].entry.original in disk
  }

  /** The body of a bulk PUT: each file, in order, under its prefixed key with its base64 contents. */
  function FilePairs(prefix: Option<string>, sized: seq<SizedFile>, disk: Disk): (pairs: seq<KvPair>)
    requires Readable(disk, sized)
    ensures |pairs| == |sized|
    ensures forall j :: 0 <= j < |sized| ==>
      pairs[j] == KvPair(Prefixed(prefix, sized[j].entry.key), disk[sized[j].entry.original].base64, true)
  {
    seq(|sized|, j requires 0 <= j < |sized| =>
      KvPair(Prefixed(prefix, sized[j].entry.key), disk[sized[j].entry.original].base64, true))
  }

  /** One bulk PUT per batch, in batch order. */
  function UploadRequests(prefix: Option<string>, batches: seq<Batch>, disk: Disk): (reqs: seq<Request>)
    requires forall i :: 0 <= i < |batches| ==> Readable(disk, batches[i].files)
    ensures |reqs| == |batches|
    ensures forall i :: 0 <= i < |batches| ==> reqs[i] == PutBulk(FilePairs(prefix, batches[i].files, disk))
  {
    seq(|batches|, i requires 0 <= i < |batches| => PutBulk(FilePairs(prefix, batches[i].files, disk)))
  }

  /** The files the batches came from are all readable, so are the batches. */
  lemma {:induction false} BatchesReadable(sized: seq<SizedFile>, disk: Disk)
    requires forall i :: 0 <= i < |sized| ==> sized[i].entry.original in disk
    ensures forall i :: 0 <= i < |Packed(sized)| ==> Readable(disk, Packed(sized)[i].files)
  {
    var r := Packed(sized);
    PackedPreservesFiles(sized);
    forall i, j | 0 <= i < |r| && 0 <= j < |r[i].files| ensures r[i].files[j].entry.original in disk {
      FlattenHas(r, i, j);
    }
  }

  /** The bulk PUTs `putItems` sends for files that passed the size check. */
  function UploadPlan(prefix: Option<string>, sized: seq<SizedFile>, disk: Disk): seq<Request>
    requires forall i :: 0 <= i < |sized| ==> sized[i].entry.original in disk
  {
    BatchesReadable(sized, disk);
    UploadRequests(prefix, Packed(sized), disk)
  }

  /** The uploads are at least one request, and every one of them is a bulk PUT. */
  lemma UploadPlanPutsOnly(prefix: Option<string>, sized: seq<SizedFile>, disk: Disk)
    requires forall i :: 0 <= i < |sized| ==> sized[i].entry.original in disk
    ensures var reqs := UploadPlan(prefix, sized, disk);
      |reqs| >= 1 && forall i :: 0 <= i < |reqs| ==> reqs[i].PutBulk?
  {
    BatchesReadable(sized, disk);
  }

  /** The files the uploads carry are exactly the files, in their order, each under its prefixed key. */
  lemma {:induction false} UploadPlanCarriesFiles(prefix: Option<string>, sized: seq<SizedFile>, disk: Disk)
    requires forall i :: 0 <= i < |sized| ==> sized[i].entry.original in disk
    ensures var reqs := UploadPlan(prefix, sized, disk);
      |reqs| == |Packed(sized)| &&
      forall i :: 0 <= i < |reqs| ==> reqs[i].PutBulk? && |reqs[i].pairs| == |Packed(sized)[i].files|
    ensures Flatten(Packed(sized)) == sized
  {
    BatchesReadable(sized, disk);
    PackedPreservesFiles(sized);
  }

  /**
    Every bulk PUT of the batches accepted, in order, leaves the store as
    one bulk PUT of all their files would.
  */
  lemma {:induction false} UploadRequestsStore(store: Store, prefix: Option<string>, batches: seq<Batch>, disk: Disk)
    requires forall i :: 0 <= i < |batches| ==> Readable(disk, batches[i].files)
    requires forall i :: 0 <= i < |Flatten(batches)| ==> Flatten(batches)[i].entry.original in disk
    ensures ApplyAll(store, UploadRequests(prefix, batches, disk)) == PutAll(store, FilePairs(prefix, Flatten(batches), disk))
    decreases |batches|
  {
    if batches == [] {
      assert UploadRequests(prefix, batches, disk) == [];
    } else {
      var n := |batches| - 1;
      LastBatchStore(store, prefix, batches, disk);
      FlattenPairs(store, prefix, batches, disk);
      UploadRequestsStore(store, prefix, batches[..n], disk);
    }
  }

  /** The last bulk PUT of the batches is one more `PutAll` after the others. */
  lemma LastBatchStore(store: Store, prefix: Option<string>, batches: seq<Batch>, disk: Disk)
    requires |batches| > 0 && forall i :: 0 <= i < |batches| ==> Readable(disk, batches[i].files)
    ensures var n := |batches| - 1;
      forall i :: 0 <= i < n ==> Readable(disk, batches[..n][i].files)
    ensures var n := |batches| - 1;
      ApplyAll(store, UploadRequests(prefix, batches, disk))
        == PutAll(ApplyAll(store, UploadRequests(prefix, batches[..n], disk)), FilePairs(prefix, batches[n].files, disk))
  {
    var n := |batches| - 1;
    var body := FilePairs(prefix, batches[n].files, disk);
    var earlier := UploadRequests(prefix, batches[..n], disk);
    UploadRequestsAppend(prefix, batches, disk);
    ApplyAllConcat(store, earlier, [PutBulk(body)]);
    assert ApplyAll(ApplyAll(store, earlier), [PutBulk(body)]) == PutAll(ApplyAll(store, earlier), body);
  }

  /** The pairs of the earlier batches, then those of the last, are the pairs of all their files. */
  lemma FlattenPairs(store: Store, prefix: Option<string>, batches: seq<Batch>, disk: Disk)
    requires |batches| > 0
    requires forall i :: 0 <= i < |Flatten(batches)| ==> Flatten(batches)[i].entry.original in disk
    ensures var n := |batches| - 1;
      && (forall i :: 0 <= i < |Flatten(batches[..n])| ==> Flatten(batches[..n])[i].entry.original in disk)
      && (forall i :: 0 <= i < |batches[n].files| ==> batches[n].files[i].entry.original in disk)
    ensures var n := |batches| - 1;
      PutAll(PutAll(store, FilePairs(prefix, Flatten(batches[..n]), disk)), FilePairs(prefix, batches[n].files, disk))
        == PutAll(store, FilePairs(prefix, Flatten(batches), disk))
  {
    var n := |batches| - 1;
    assert Flatten(batches) == Flatten(batches[..n]) + batches[n].files;
    SplitPairs(store, prefix, Flatten(batches[..n]), batches[n].files, disk);
  }

  /** Putting the pairs of `before + last` is putting those of `before` and then those of `last`. */
  lemma SplitPairs(store: Store, prefix: Option<string>, before: seq<SizedFile>, last: seq<SizedFile>, disk: Disk)
    requires forall i :: 0 <= i < |before + last| ==> (before + last)[i].entry.original in disk
    ensures forall i :: 0 <= i < |before| ==> before[i].entry.original in disk
    ensures forall i :: 0 <= i < |last| ==> last[i].entry.original in disk
    ensures PutAll(PutAll(store, FilePairs(prefix, before, disk)), FilePairs(prefix, last, disk))
      == PutAll(store, FilePairs(prefix, before + last, disk))
  {
    assert forall i :: 0 <= i < |before| ==> before[i] == (before + last)[i];
    assert forall i :: 0 <= i < |last| ==> last[i] == (before + last)[|before| + i];
    FilePairsAppend(prefix, before, last, disk);
    PutAllConcat(store, FilePairs(prefix, before, disk), FilePairs(prefix, last, disk));
  }

  lemma UploadRequestsAppend(prefix: Option<string>, batches: seq<Batch>, disk: Disk)
    requires |batches| > 0 && forall i :: 0 <= i < |batches| ==> Readable(disk, batches[i].files)
    ensures var n := |batches| - 1;
      UploadRequests(prefix, batches, disk)
        == UploadRequests(prefix, batches[..n], disk) + [PutBulk(FilePairs(prefix, batches[n].files, disk))]
  {
    var n := |batches| - 1;
    assert UploadRequests(prefix, batches[..n], disk) + [PutBulk(FilePairs(prefix, batches[n].files, disk))]
      == UploadRequests(prefix, batches, disk);
  }

  lemma FilePairsAppend(prefix: Option<string>, a: seq<SizedFile>, b: seq<SizedFile>, disk: Disk)
    requires forall i :: 0 <= i < |a| ==> a[i].entry.original in disk
    requires forall i :: 0 <= i < |b| ==> b[i].entry.original in disk
    ensures forall i :: 0 <= i < |a + b| ==> (a + b)[i].entry.original in disk
    ensures FilePairs(prefix, a + b, disk) == FilePairs(prefix, a, disk) + FilePairs(prefix, b, disk)
  {
    assert forall i :: 0 <= i < |a + b| ==> (a + b)[i] == if i < |a| then a[i] else b[i - |a|];
  }

  /** All the uploads of a plan accepted leave the store as one bulk PUT of every file, in order. */
  lemma UploadPlanStore(store: Store, prefix: Option<string>, sized: seq<SizedFile>, disk: Disk)
    requires forall i :: 0 <= i < |sized| ==> sized[i].entry.original in disk
    ensures ApplyAll(store, UploadPlan(prefix, sized, disk)) == PutAll(store, FilePairs(prefix, sized, disk))
  {
    BatchesReadable(sized, disk);
    PackedPreservesFiles(sized);
    UploadRequestsStore(store, prefix, Packed(sized), disk);
  }

  /** What an operation sent, the store it left, and the failure that stopped it, if any. */
  datatype Effect = Effect(sent: seq<Request>, store: Store, failure: Option<Failure>)

  /** The outcome of a run of requests, with a rejection reported as a failed write. */
  function EffectOf(e: Exec): (r: Effect)
    ensures r.sent == e.sent && r.store == e.store
    ensures r.failure.Some? <==> e.halted.Some?
    ensures r.failure.Some? ==> r.failure.value == WriteFailed(e.halted.value)
  {
    Effect(e.sent, e.store, if e.halted.Some? then Some(WriteFailed(e.halted.value)) else None)
  }

  /**
    `putItems`: nothing is sent if a file fails the size check; otherwise
    the bulk PUTs of the packed batches, in order, until one is rejected.
  */
  function Uploads(store: Store, reply: Request -> Reply, prefix: Option<string>, files: seq<FileEntry>, disk: Disk): Effect
  {
    match Stat(disk, files)
    case Err(f) => Effect([], store, Some(f))
    case Ok(sized) => EffectOf(Execute(store, reply, UploadPlan(prefix, sized, disk)))
  }

  /** `putItems`: the size check, the packing, then the loop over the batches. */
  method PutItems(ns: Namespace, prefix: Option<string>, files: seq<FileEntry>, disk: Disk) returns (failure: Option<Failure>)
    modifies ns
    ensures var u := Uploads(old(ns.store), ns.reply, prefix, files, disk);
      ns.sent == old(ns.sent) + u.sent && ns.store == u.store && failure == u.failure
  {
    var checked := Stat(disk, files);
    if checked.Err? {
      return Some(checked.error);
    }
    var lists := Pack(checked.value);
    BatchesReadable(checked.value, disk);
    failure := PutBatches(ns, prefix, lists, disk);
  }

  /** The loop of `putItems` over the batches: one bulk PUT each, in order, until one is rejected. */
  method PutBatches(ns: Namespace, prefix: Option<string>, batches: seq<Batch>, disk: Disk) returns (failure: Option<Failure>)
    requires forall i :: 0 <= i < |batches| ==> Readable(disk, batches[i].files)
    modifies ns
    ensures var u := EffectOf(Execute(old(ns.store), ns.reply, UploadRequests(prefix, batches, disk)));
      ns.sent == old(ns.sent) + u.sent && ns.store == u.store && failure == u.failure
  {
    var reqs := UploadRequests(prefix, batches, disk);
    ghost var store0, sent0 := ns.store, ns.sent;
    for i := 0 to |batches|
      invariant Execute(store0, ns.reply, reqs[..i]).halted == None
      invariant ns.sent == sent0 + Execute(store0, ns.reply, reqs[..i]).sent
      invariant ns.store == Execute(store0, ns.reply, reqs[..i]).store
    {
      var body := FilePairs(prefix, batches[i].files, disk);
      ExecuteStep(store0, ns.reply, reqs, i);
      var ok := ns.Send(PutBulk(body));
      if !ok {
        return Some(WriteFailed(ns.reply(PutBulk(body)).status));
      }
    }
    assert reqs[..|batches|] == reqs;
    return None;
  }

  /** The bulk DELETE of `removeItems`: the keys with the prefix put in front, in order. */
  function DeleteRequest(prefix: Option<string>, keys: seq<string>): (req: Request)
    ensures req.DeleteBulk? && |req.keys| == |keys|
    ensures forall i :: 0 <= i < |keys| ==> req.keys[i] == Prefixed(prefix, keys[i])
  {
    DeleteBulk(seq(|keys|, i requires 0 <= i < |keys| => Prefixed(prefix, keys[i])))
  }

  /** `removeItems`: one bulk DELETE, sent even when there is nothing to remove. */
  method RemoveItems(ns: Namespace, prefix: Option<string>, keys: seq<string>) returns (failure: Option<Failure>)
    modifies ns
    ensures var u := EffectOf(Execute(old(ns.store), ns.reply, [DeleteRequest(prefix, keys)]));
      ns.sent == old(ns.sent) + u.sent && ns.store == u.store && failure == u.failure
  {
    var body := seq(|keys|, i requires 0 <= i < |keys| => Prefixed(prefix, keys[i]));
    var ok := ns.Send(DeleteBulk(body));
    failure := if ok then None else Some(WriteFailed(ns.reply(DeleteBulk(body)).status));
  }

  /** `getFileHashes`: reads the record, `{}` when it is missing or empty. */
  method GetFileHashes(ns: Namespace, prefix: Option<string>, hash: Option<string>, parse: string -> Option<Catalog>)
    returns (r: Result<Catalog, Failure>)
    modifies ns
    ensures ns.sent == old(ns.sent) + [GetValue(RecordKey(prefix, hash))] && ns.store == old(ns.store)
    ensures r == LoadCatalog(Respond(ns.store, ns.reply, RecordKey(prefix, hash)), parse)
  {
    var resp := ns.Get(RecordKey(prefix, hash));
    r := LoadCatalog(resp, parse);
  }

  /** `putFileHashes`: writes the record under its key. */
  method PutFileHashes(ns: Namespace, prefix: Option<string>, hash: Option<string>, record: Catalog) returns (failure: Option<Failure>)
    modifies ns
    ensures var u := EffectOf(Execute(old(ns.store), ns.reply, [PutValue(RecordKey(prefix, hash), record)]));
      ns.sent == old(ns.sent) + u.sent && ns.store == u.store && failure == u.failure
  {
    var ok := ns.Send(PutValue(RecordKey(prefix, hash), record));
    failure := if ok then None else Some(WriteFailed(ns.reply(PutValue(RecordKey(prefix, hash), record)).status));
  }
}
