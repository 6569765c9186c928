/**
  What a run of `sync-to-kv <folder>` (index.js:21-61) guarantees, stated
  on `Sync.Run`: which requests it sends, in which order, and what it
  leaves in the namespace.
*/
module Guarantees {
  import opened Wrappers
  import opened HashCatalog
  import opened Diff
  import opened Packer
  import opened Kv
  import opened Config
  import opened Worker
  import opened Sync

  /**
    The settings decide whether anything is sent: a configuration error
    sends nothing and stops with that error; valid settings always start
    with the GET of the hash record.
  */
  lemma ConfigErrorSendsNothing(store: Store, reply: Request -> Reply, parse: string -> Option<Catalog>, env: map<string, string>, listing: seq<Listed>,
                                encode: string -> string, decode: string -> string, disk: Disk, opts: Options)
    ensures var r := Run(store, reply, parse, env, listing, encode, decode, disk, opts);
      r.sent == [] <==> Configure(env, []).Err?
    ensures Configure(env, []).Err? ==>
      Run(store, reply, parse, env, listing, encode, decode, disk, opts)
        == RunResult([], store, Aborted(ConfigInvalid(Configure(env, []).error)))
    ensures Configure(env, []).Ok? ==>
      Run(store, reply, parse, env, listing, encode, decode, disk, opts).sent[0] == GetValue(RecordKey(opts.prefix, opts.hash))
  {
    if Configure(env, []).Ok? {
      ReconcileSteps(store, reply, parse, WithKeys(listing, encode), decode, disk, opts,
                     LoadCatalog(Respond(store, reply, RecordKey(opts.prefix, opts.hash)), parse));
    }
  }

  /** A record that cannot be read (an HTTP error other than 404, or text that is not JSON) stops the run after the GET. */
  lemma ReadFailureStops(store: Store, reply: Request -> Reply, parse: string -> Option<Catalog>, env: map<string, string>, listing: seq<Listed>,
                         encode: string -> string, decode: string -> string, disk: Disk, opts: Options)
    requires Configure(env, []).Ok?
    requires LoadCatalog(Respond(store, reply, RecordKey(opts.prefix, opts.hash)), parse).Err?
    ensures Run(store, reply, parse, env, listing, encode, decode, disk, opts)
      == RunResult([GetValue(RecordKey(opts.prefix, opts.hash))], store,
                   Aborted(LoadCatalog(Respond(store, reply, RecordKey(opts.prefix, opts.hash)), parse).error))
  {
    ReconcileSteps(store, reply, parse, WithKeys(listing, encode), decode, disk, opts,
                   LoadCatalog(Respond(store, reply, RecordKey(opts.prefix, opts.hash)), parse));
  }

  /**
    A run with valid settings and a readable record is the GET followed by
    `Write` of the diff, or, with --dryrun, the report of the diff.
  */
  lemma RunActs(store: Store, reply: Request -> Reply, parse: string -> Option<Catalog>, env: map<string, string>, listing: seq<Listed>,
                encode: string -> string, decode: string -> string, disk: Disk, opts: Options, remote: Catalog)
    requires Configure(env, []).Ok?
    requires LoadCatalog(Respond(store, reply, RecordKey(opts.prefix, opts.hash)), parse) == Ok(remote)
    ensures var files := WithKeys(listing, encode);
      var up := ToUpload(files, remote);
      var rm := ToRemove(files, remote.keys);
      var r := Run(store, reply, parse, env, listing, encode, decode, disk, opts);
      var get := [GetValue(RecordKey(opts.prefix, opts.hash))];
      if opts.dryrun then r == RunResult(get, store, Reported(DryRunReport(up, rm, decode)))
      else
        var w := Write(store, reply, opts, files, up, rm, disk);
        r == RunResult(get + w.sent, w.store, w.outcome)
  {
    ReconcileSteps(store, reply, parse, WithKeys(listing, encode), decode, disk, opts, Ok(remote));
  }

  /**
    --dryrun writes nothing: the store is left as it was, at most the GET of
    the record is sent, and once the record is read the outcome is the
    report of the diff.
  */
  lemma DryRunWritesNothing(store: Store, reply: Request -> Reply, parse: string -> Option<Catalog>, env: map<string, string>, listing: seq<Listed>,
                            encode: string -> string, decode: string -> string, disk: Disk, opts: Options)
    requires opts.dryrun
    ensures var r := Run(store, reply, parse, env, listing, encode, decode, disk, opts);
      r.store == store && |r.sent| <= 1 && forall q :: q in r.sent ==> q == GetValue(RecordKey(opts.prefix, opts.hash))
  {
    var loaded := LoadCatalog(Respond(store, reply, RecordKey(opts.prefix, opts.hash)), parse);
    if Configure(env, []).Ok? {
      if loaded.Ok? {
        RunActs(store, reply, parse, env, listing, encode, decode, disk, opts, loaded.value);
      } else {
        ReadFailureStops(store, reply, parse, env, listing, encode, decode, disk, opts);
      }
    }
  }

  /** Once the settings are valid and the record is read, --dryrun reports the diff. */
  lemma DryRunReports(store: Store, reply: Request -> Reply, parse: string -> Option<Catalog>, env: map<string, string>, listing: seq<Listed>,
                      encode: string -> string, decode: string -> string, disk: Disk, opts: Options, remote: Catalog)
    requires opts.dryrun && Configure(env, []).Ok?
    requires LoadCatalog(Respond(store, reply, RecordKey(opts.prefix, opts.hash)), parse) == Ok(remote)
    ensures var files := WithKeys(listing, encode);
      Run(store, reply, parse, env, listing, encode, decode, disk, opts).outcome
        == Reported(DryRunReport(ToUpload(files, remote), ToRemove(files, remote.keys), decode))
  {
    RunActs(store, reply, parse, env, listing, encode, decode, disk, opts, remote);
  }

  /** The files that passed the size check are all on disk. */
  lemma SizedOnDisk(disk: Disk, up: seq<FileEntry>, sized: seq<SizedFile>)
    requires Stat(disk, up) == Ok(sized)
    ensures forall i :: 0 <= i < |sized| ==> sized[i].entry.original in disk
  {
    forall i | 0 <= i < |sized| ensures sized[i].entry.original in disk {
      assert Uploadable(disk, up[i]);
    }
  }

  /**
    Once every file to upload passed the size check, the writes are one
    run of the plan (the bulk PUTs, the bulk DELETE, the record) that stops
    at the first rejected request.
  */
  lemma WriteFollowsPlan(store: Store, reply: Request -> Reply, opts: Options, files: seq<FileEntry>,
                         up: seq<FileEntry>, rm: seq<string>, disk: Disk, sized: seq<SizedFile>)
    requires Stat(disk, up) == Ok(sized)
    ensures forall i :: 0 <= i < |sized| ==> sized[i].entry.original in disk
    ensures var e := Execute(store, reply, Plan(opts, files, rm, sized, disk));
      var w := Write(store, reply, opts, files, up, rm, disk);
      w == RunResult(e.sent, e.store, if e.halted.Some? then Aborted(WriteFailed(e.halted.value)) else Done)
  {
    SizedOnDisk(disk, up, sized);
    ExecuteConcat(store, reply, UploadPlan(opts.prefix, sized, disk), Commit(opts, files, rm));
  }

  /** A file that is missing or too large stops the run before any write: only the GET was sent. */
  lemma StatFailureWritesNothing(store: Store, reply: Request -> Reply, parse: string -> Option<Catalog>, env: map<string, string>, listing: seq<Listed>,
                                 encode: string -> string, decode: string -> string, disk: Disk, opts: Options, remote: Catalog)
    requires !opts.dryrun && Configure(env, []).Ok?
    requires LoadCatalog(Respond(store, reply, RecordKey(opts.prefix, opts.hash)), parse) == Ok(remote)
    requires Stat(disk, ToUpload(WithKeys(listing, encode), remote)).Err?
    ensures Run(store, reply, parse, env, listing, encode, decode, disk, opts)
      == RunResult([GetValue(RecordKey(opts.prefix, opts.hash))], store,
                   Aborted(Stat(disk, ToUpload(WithKeys(listing, encode), remote)).error))
  {
    RunActs(store, reply, parse, env, listing, encode, decode, disk, opts, remote);
  }

  /**
    A real run whose files all pass the size check sends the GET and then
    the plan in order, stopping at the first rejected write: what was sent
    is a prefix of the plan, every write before the last one sent was
    accepted, and the run is done exactly when the whole plan was sent and
    accepted.
  */
  lemma WritesFollowPlan(store: Store, reply: Request -> Reply, parse: string -> Option<Catalog>, env: map<string, string>, listing: seq<Listed>,
                         encode: string -> string, decode: string -> string, disk: Disk, opts: Options,
                         remote: Catalog, sized: seq<SizedFile>)
    requires !opts.dryrun && Configure(env, []).Ok?
    requires LoadCatalog(Respond(store, reply, RecordKey(opts.prefix, opts.hash)), parse) == Ok(remote)
    requires Stat(disk, ToUpload(WithKeys(listing, encode), remote)) == Ok(sized)
    ensures forall i :: 0 <= i < |sized| ==> sized[i].entry.original in disk
    ensures var files := WithKeys(listing, encode);
      var plan := Plan(opts, files, ToRemove(files, remote.keys), sized, disk);
      var r := Run(store, reply, parse, env, listing, encode, decode, disk, opts);
      && |r.sent| >= 2 && FollowsPlan(r, GetValue(RecordKey(opts.prefix, opts.hash)), plan, reply)
      && r.store == Execute(store, reply, plan).store
  {
    var files := WithKeys(listing, encode);
    RunFollowsPlan(store, reply, parse, env, listing, encode, decode, disk, opts, remote, sized);
    assert |Commit(opts, files, ToRemove(files, remote.keys))| == 2;
    GetThenPlan(GetValue(RecordKey(opts.prefix, opts.hash)), store, reply,
                Plan(opts, files, ToRemove(files, remote.keys), sized, disk),
                Run(store, reply, parse, env, listing, encode, decode, disk, opts));
  }

  /**
    `r` sent `first` and then a prefix of `plan`, every request after
    `first` but the last was accepted, it is done exactly when the whole
    plan was sent and accepted, and otherwise it failed with the status
    the last request was rejected with.
  */
  predicate FollowsPlan(r: RunResult, first: Request, plan: seq<Request>, reply: Request -> Reply)
  {
    && |r.sent| >= 1 && r.sent[0] == first
    && IsPrefix(r.sent[1..], plan)
    && (forall i :: 1 <= i < |r.sent| - 1 ==> reply(r.sent[i]) == Accepted)
    && (r.outcome == Done <==> r.sent[1..] == plan && AllAccepted(plan, reply))
    && (r.outcome != Done ==>
          reply(r.sent[|r.sent| - 1]).Rejected? && r.outcome == Aborted(WriteFailed(reply(r.sent[|r.sent| - 1]).status)))
  }

  /** One request followed by a run of `plan` follows the plan. */
  lemma GetThenPlan(get: Request, store: Store, reply: Request -> Reply, plan: seq<Request>, r: RunResult)
    requires var e := Execute(store, reply, plan);
      r == RunResult([get] + e.sent, e.store, if e.halted.Some? then Aborted(WriteFailed(e.halted.value)) else Done)
    ensures (plan != [] ==> |r.sent| >= 2) && FollowsPlan(r, get, plan, reply)
  {
    ExecuteStopsAtRejection(store, reply, plan);
    var e := Execute(store, reply, plan);
    assert r.sent[1..] == e.sent;
    forall i | 1 <= i < |r.sent| - 1 ensures reply(r.sent[i]) == Accepted {
      assert r.sent[i] == e.sent[i - 1];
    }
  }

  /** In the plan, only the last request writes the record, and the bulk DELETE comes just before it. */
  lemma PlanShape(opts: Options, files: seq<FileEntry>, rm: seq<string>, sized: seq<SizedFile>, disk: Disk)
    requires forall i :: 0 <= i < |sized| ==> sized[i].entry.original in disk
    ensures var plan := Plan(opts, files, rm, sized, disk);
      && |plan| >= 3
      && plan[|plan| - 1] == PutValue(RecordKey(opts.prefix, opts.hash), CatalogOf(files))
      && plan[|plan| - 2] == DeleteRequest(opts.prefix, rm)
      && forall i :: 0 <= i < |plan| - 1 ==> !plan[i].PutValue?
  {
    var up := UploadPlan(opts.prefix, sized, disk);
    var del := DeleteRequest(opts.prefix, rm);
    var put := PutValue(RecordKey(opts.prefix, opts.hash), CatalogOf(files));
    assert Plan(opts, files, rm, sized, disk) == up + [del, put];
    UploadPlanPutsOnly(opts.prefix, sized, disk);
    CommitLast(up, del, put);
  }

  /** At least one bulk PUT, then a DELETE and a last request: only the last can write a record. */
  lemma CommitLast(up: seq<Request>, del: Request, put: Request)
    requires |up| >= 1 && forall i :: 0 <= i < |up| ==> up[i].PutBulk?
    requires del.DeleteBulk?
    ensures var plan := up + [del, put];
      && |plan| >= 3 && plan[|plan| - 1] == put && plan[|plan| - 2] == del
      && forall i :: 0 <= i < |plan| - 1 ==> !plan[i].PutValue?
  {
    var plan := up + [del, put];
    forall i | 0 <= i < |plan| - 1 ensures !plan[i].PutValue? {
      if i < |up| {
        assert plan[i] == up[i];
      } else {
        assert plan[i] == del;
      }
    }
  }

  /**
    In `sent`, a request that writes a record is the last one, comes right
    after a bulk DELETE, writes `record` under `key`, and follows only
    accepted writes (the first request, the GET, may have answered 404).
  */
  predicate RecordLast(sent: seq<Request>, reply: Request -> Reply, key: string, record: Catalog)
  {
    forall i :: 0 <= i < |sent| && sent[i].PutValue? ==>
      && i == |sent| - 1 && i >= 2
      && sent[i] == PutValue(key, record)
      && sent[i - 1].DeleteBulk?
      && forall j :: 1 <= j < i ==> reply(sent[j]) == Accepted
  }

  /** The GET followed by a prefix of a plan, cut at the first rejection, writes its record last. */
  lemma {:induction false} PlanPrefixRecordLast(sent: seq<Request>, plan: seq<Request>, reply: Request -> Reply,
                                                key: string, record: Catalog)
    requires |sent| >= 1 && sent[0].GetValue? && IsPrefix(sent[1..], plan)
    requires forall i :: 1 <= i < |sent| - 1 ==> reply(sent[i]) == Accepted
    requires |plan| >= 3 && plan[|plan| - 1] == PutValue(key, record) && plan[|plan| - 2].DeleteBulk?
    requires forall i :: 0 <= i < |plan| - 1 ==> !plan[i].PutValue?
    ensures RecordLast(sent, reply, key, record)
  {
    forall i | 0 <= i < |sent| && sent[i].PutValue?
      ensures i == |sent| - 1 && i >= 2
    {
      assert sent[i] == sent[1..][i - 1] == plan[i - 1];
    }
    forall i | 0 <= i < |sent| && sent[i].PutValue?
      ensures sent[i - 1].DeleteBulk?
    {
      assert sent[i - 1] == sent[1..][i - 2] == plan[i - 2];
    }
  }

  /** The hash record is written last, right after the bulk DELETE, and only once every write before it was accepted. */
  lemma RecordWrittenLast(store: Store, reply: Request -> Reply, parse: string -> Option<Catalog>, env: map<string, string>, listing: seq<Listed>,
                          encode: string -> string, decode: string -> string, disk: Disk, opts: Options)
    ensures RecordLast(Run(store, reply, parse, env, listing, encode, decode, disk, opts).sent, reply,
                       RecordKey(opts.prefix, opts.hash), CatalogOf(WithKeys(listing, encode)))
  {
    var loaded := LoadCatalog(Respond(store, reply, RecordKey(opts.prefix, opts.hash)), parse);
    if Configure(env, []).Ok? && !opts.dryrun && loaded.Ok? && Stat(disk, ToUpload(WithKeys(listing, encode), loaded.value)).Ok? {
      var sized := Stat(disk, ToUpload(WithKeys(listing, encode), loaded.value)).value;
      WritesFollowRecordLast(store, reply, parse, env, listing, encode, decode, disk, opts, loaded.value, sized);
    } else {
      OnlyReadsWithoutWrites(store, reply, parse, env, listing, encode, decode, disk, opts);
      OnlyReadsRecordLast(Run(store, reply, parse, env, listing, encode, decode, disk, opts).sent, reply,
                          RecordKey(opts.prefix, opts.hash), CatalogOf(WithKeys(listing, encode)));
    }
  }

  /**
    A run that stops before the writes (bad settings, an unreadable record,
    --dryrun or a file that failed the size check) sends nothing but GETs.
  */
  lemma OnlyReadsWithoutWrites(store: Store, reply: Request -> Reply, parse: string -> Option<Catalog>, env: map<string, string>, listing: seq<Listed>,
                               encode: string -> string, decode: string -> string, disk: Disk, opts: Options)
    requires var loaded := LoadCatalog(Respond(store, reply, RecordKey(opts.prefix, opts.hash)), parse);
      !(Configure(env, []).Ok? && !opts.dryrun && loaded.Ok? && Stat(disk, ToUpload(WithKeys(listing, encode), loaded.value)).Ok?)
    ensures forall q :: q in Run(store, reply, parse, env, listing, encode, decode, disk, opts).sent ==> q.GetValue?
  {
    var loaded := LoadCatalog(Respond(store, reply, RecordKey(opts.prefix, opts.hash)), parse);
    if Configure(env, []).Err? {
      ConfigErrorSendsNothing(store, reply, parse, env, listing, encode, decode, disk, opts);
    } else if loaded.Err? {
      ReadFailureStops(store, reply, parse, env, listing, encode, decode, disk, opts);
    } else if opts.dryrun {
      DryRunWritesNothing(store, reply, parse, env, listing, encode, decode, disk, opts);
    } else {
      StatFailureWritesNothing(store, reply, parse, env, listing, encode, decode, disk, opts, loaded.value);
    }
  }

  /** Requests that only read write no record, so none is written out of turn. */
  lemma OnlyReadsRecordLast(sent: seq<Request>, reply: Request -> Reply, key: string, record: Catalog)
    requires forall q :: q in sent ==> q.GetValue?
    ensures RecordLast(sent, reply, key, record)
  {
    forall i | 0 <= i < |sent| ensures !sent[i].PutValue? {
      assert sent[i] in sent;
    }
  }

  /** `RecordWrittenLast` for a real run whose files all passed the size check. */
  lemma WritesFollowRecordLast(store: Store, reply: Request -> Reply, parse: string -> Option<Catalog>, env: map<string, string>, listing: seq<Listed>,
                               encode: string -> string, decode: string -> string, disk: Disk, opts: Options,
                               remote: Catalog, sized: seq<SizedFile>)
    requires !opts.dryrun && Configure(env, []).Ok?
    requires LoadCatalog(Respond(store, reply, RecordKey(opts.prefix, opts.hash)), parse) == Ok(remote)
    requires Stat(disk, ToUpload(WithKeys(listing, encode), remote)) == Ok(sized)
    ensures RecordLast(Run(store, reply, parse, env, listing, encode, decode, disk, opts).sent, reply,
                       RecordKey(opts.prefix, opts.hash), CatalogOf(WithKeys(listing, encode)))
  {
    var files := WithKeys(listing, encode);
    RunFollowsPlan(store, reply, parse, env, listing, encode, decode, disk, opts, remote, sized);
    GetThenPlanRecordLast(store, reply, opts, files, ToRemove(files, remote.keys), sized, disk,
                          Run(store, reply, parse, env, listing, encode, decode, disk, opts).sent);
  }

  /** The GET followed by what a run of the plan sent writes the record last. */
  lemma GetThenPlanRecordLast(store: Store, reply: Request -> Reply, opts: Options, files: seq<FileEntry>,
                              rm: seq<string>, sized: seq<SizedFile>, disk: Disk, sent: seq<Request>)
    requires forall i :: 0 <= i < |sized| ==> sized[i].entry.original in disk
    requires sent == [GetValue(RecordKey(opts.prefix, opts.hash))] + Execute(store, reply, Plan(opts, files, rm, sized, disk)).sent
    ensures RecordLast(sent, reply, RecordKey(opts.prefix, opts.hash), CatalogOf(files))
  {
    var plan := Plan(opts, files, rm, sized, disk);
    var e := Execute(store, reply, plan);
    ExecuteStopsAtRejection(store, reply, plan);
    PlanShape(opts, files, rm, sized, disk);
    assert sent[1..] == e.sent;
    forall i | 1 <= i < |sent| - 1 ensures reply(sent[i]) == Accepted {
      assert sent[i] == e.sent[i - 1];
    }
    PlanPrefixRecordLast(sent, plan, reply, RecordKey(opts.prefix, opts.hash), CatalogOf(files));
  }

  /** A real run whose files all passed the size check is the GET followed by one run of the plan. */
  lemma RunFollowsPlan(store: Store, reply: Request -> Reply, parse: string -> Option<Catalog>, env: map<string, string>, listing: seq<Listed>,
                       encode: string -> string, decode: string -> string, disk: Disk, opts: Options,
                       remote: Catalog, sized: seq<SizedFile>)
    requires !opts.dryrun && Configure(env, []).Ok?
    requires LoadCatalog(Respond(store, reply, RecordKey(opts.prefix, opts.hash)), parse) == Ok(remote)
    requires Stat(disk, ToUpload(WithKeys(listing, encode), remote)) == Ok(sized)
    ensures forall i :: 0 <= i < |sized| ==> sized[i].entry.original in disk
    ensures var files := WithKeys(listing, encode);
      var e := Execute(store, reply, Plan(opts, files, ToRemove(files, remote.keys), sized, disk));
      Run(store, reply, parse, env, listing, encode, decode, disk, opts)
        == RunResult([GetValue(RecordKey(opts.prefix, opts.hash))] + e.sent, e.store,
                     if e.halted.Some? then Aborted(WriteFailed(e.halted.value)) else Done)
  {
    var files := WithKeys(listing, encode);
    RunActs(store, reply, parse, env, listing, encode, decode, disk, opts, remote);
    WriteFollowsPlan(store, reply, opts, files, ToUpload(files, remote), ToRemove(files, remote.keys), disk, sized);
  }

  /** A finished run needed valid settings, a real run, a readable record and files that all passed the size check. */
  lemma DoneNeedsEverything(store: Store, reply: Request -> Reply, parse: string -> Option<Catalog>, env: map<string, string>, listing: seq<Listed>,
                            encode: string -> string, decode: string -> string, disk: Disk, opts: Options)
    ensures var loaded := LoadCatalog(Respond(store, reply, RecordKey(opts.prefix, opts.hash)), parse);
      Run(store, reply, parse, env, listing, encode, decode, disk, opts).outcome == Done ==>
        && Configure(env, []).Ok? && !opts.dryrun && loaded.Ok?
        && Stat(disk, ToUpload(WithKeys(listing, encode), loaded.value)).Ok?
  {
    var loaded := LoadCatalog(Respond(store, reply, RecordKey(opts.prefix, opts.hash)), parse);
    if Configure(env, []).Err? {
      ConfigErrorSendsNothing(store, reply, parse, env, listing, encode, decode, disk, opts);
    } else if loaded.Err? {
      ReadFailureStops(store, reply, parse, env, listing, encode, decode, disk, opts);
    } else if opts.dryrun {
      RunActs(store, reply, parse, env, listing, encode, decode, disk, opts, loaded.value);
    } else if Stat(disk, ToUpload(WithKeys(listing, encode), loaded.value)).Err? {
      StatFailureWritesNothing(store, reply, parse, env, listing, encode, decode, disk, opts, loaded.value);
    }
  }

  /** Carrying out the whole plan: all the uploads, then the delete, then the record. */
  lemma PlanStore(store: Store, opts: Options, files: seq<FileEntry>, rm: seq<string>, sized: seq<SizedFile>, disk: Disk)
    requires forall i :: 0 <= i < |sized| ==> sized[i].entry.original in disk
    ensures ApplyAll(store, Plan(opts, files, rm, sized, disk)) == Synced(store, opts, files, rm, sized, disk)
  {
    ApplyAllConcat(store, UploadPlan(opts.prefix, sized, disk), Commit(opts, files, rm));
    UploadPlanStore(store, opts.prefix, sized, disk);
    CommitStore(PutAll(store, FilePairs(opts.prefix, sized, disk)), opts, files, rm);
  }

  /** Carrying out the commit: the delete, then the record. */
  lemma CommitStore(store: Store, opts: Options, files: seq<FileEntry>, rm: seq<string>)
    ensures ApplyAll(store, Commit(opts, files, rm))
      == Apply(store, DeleteRequest(opts.prefix, rm))[RecordKey(opts.prefix, opts.hash) := Record(CatalogOf(files))]
  {
    var commit := Commit(opts, files, rm);
    assert ApplyAll(store, commit) == ApplyAll(Apply(store, commit[0]), commit[1..]);
    var deleted := Apply(store, commit[0]);
    assert commit[1..] == [commit[1]];
    assert ApplyAll(deleted, [commit[1]]) == ApplyAll(Apply(deleted, commit[1]), []);
  }

  /** A finished run leaves the store as the whole plan carried out. */
  lemma DoneStore(store: Store, reply: Request -> Reply, parse: string -> Option<Catalog>, env: map<string, string>, listing: seq<Listed>,
                  encode: string -> string, decode: string -> string, disk: Disk, opts: Options,
                  remote: Catalog, sized: seq<SizedFile>)
    requires Configure(env, []).Ok? && !opts.dryrun
    requires LoadCatalog(Respond(store, reply, RecordKey(opts.prefix, opts.hash)), parse) == Ok(remote)
    requires Stat(disk, ToUpload(WithKeys(listing, encode), remote)) == Ok(sized)
    requires Run(store, reply, parse, env, listing, encode, decode, disk, opts).outcome == Done
    ensures forall i :: 0 <= i < |sized| ==> sized[i].entry.original in disk
    ensures var files := WithKeys(listing, encode);
      Run(store, reply, parse, env, listing, encode, decode, disk, opts).store
        == Synced(store, opts, files, ToRemove(files, remote.keys), sized, disk)
  {
    var files := WithKeys(listing, encode);
    var up := ToUpload(files, remote);
    var rm := ToRemove(files, remote.keys);
    RunActs(store, reply, parse, env, listing, encode, decode, disk, opts, remote);
    WriteFollowsPlan(store, reply, opts, files, up, rm, disk, sized);
    ExecuteCompletes(store, reply, Plan(opts, files, rm, sized, disk));
    PlanStore(store, opts, files, rm, sized, disk);
  }

  /** The uploads, then the delete, then the record write, all carried out. */
  function Synced(store: Store, opts: Options, files: seq<FileEntry>, rm: seq<string>, sized: seq<SizedFile>, disk: Disk): Store
    requires forall i :: 0 <= i < |sized| ==> sized[i].entry.original in disk
  {
    var deleted := Apply(PutAll(store, FilePairs(opts.prefix, sized, disk)), DeleteRequest(opts.prefix, rm));
    deleted[RecordKey(opts.prefix, opts.hash) := Record(CatalogOf(files))]
  }

  /** What the size check hands to the uploads: the files to upload, in order, each on disk. */
  predicate SizedAre(sized: seq<SizedFile>, up: seq<FileEntry>, disk: Disk)
  {
    |sized| == |up| && forall i :: 0 <= i < |sized| ==> sized[i].entry == up[i] && up[i].original in disk
  }

  /** After the writes, the record holds the catalog of the local files. */
  lemma SyncedRecord(store: Store, opts: Options, files: seq<FileEntry>, rm: seq<string>, sized: seq<SizedFile>, disk: Disk)
    requires forall i :: 0 <= i < |sized| ==> sized[i].entry.original in disk
    ensures var key := RecordKey(opts.prefix, opts.hash);
      key in Synced(store, opts, files, rm, sized, disk)
      && Synced(store, opts, files, rm, sized, disk)[key] == Record(CatalogOf(files))
  {
  }

  /**
    After the writes, an uploaded file is stored under its prefixed key with
    its base64 contents, unless that key is the record's own.
  */
  lemma SyncedUpload(store: Store, opts: Options, files: seq<FileEntry>, up: seq<FileEntry>, rm: seq<string>,
                     sized: seq<SizedFile>, disk: Disk, i: int)
    requires UniqueKeys(up) && SizedAre(sized, up, disk)
    requires forall f :: f in up ==> f.key !in rm
    requires 0 <= i < |up| && Prefixed(opts.prefix, up[i].key) != RecordKey(opts.prefix, opts.hash)
    ensures var s := Synced(store, opts, files, rm, sized, disk);
      Prefixed(opts.prefix, up[i].key) in s && s[Prefixed(opts.prefix, up[i].key)] == Blob(disk[up[i].original].base64, true)
  {
    var prefix := opts.prefix;
    var pairs := FilePairs(prefix, sized, disk);
    var del := DeleteRequest(prefix, rm);
    var k := Prefixed(prefix, up[i].key);
    forall i2 | i < i2 < |pairs| ensures pairs[i2].key != pairs[i].key {
      PrefixedInjective(prefix, up[i2].key, up[i].key);
    }
    PutAllWrites(store, pairs, i);
    assert up[i] in up;
    forall j | 0 <= j < |rm| ensures del.keys[j] != k {
      PrefixedInjective(prefix, rm[j], up[i].key);
    }
    assert k !in del.keys;
  }

  /** After the writes, a removed key is gone, unless it is the record's own. */
  lemma SyncedRemoval(store: Store, opts: Options, files: seq<FileEntry>, rm: seq<string>,
                      sized: seq<SizedFile>, disk: Disk, j: int)
    requires forall i :: 0 <= i < |sized| ==> sized[i].entry.original in disk
    requires 0 <= j < |rm| && Prefixed(opts.prefix, rm[j]) != RecordKey(opts.prefix, opts.hash)
    ensures Prefixed(opts.prefix, rm[j]) !in Synced(store, opts, files, rm, sized, disk)
  {
    assert DeleteRequest(opts.prefix, rm).keys[j] == Prefixed(opts.prefix, rm[j]);
  }

  /** `k` is neither the record's key nor the prefixed key of an uploaded file or of a removed key. */
  predicate Untouched(k: string, opts: Options, up: seq<FileEntry>, rm: seq<string>)
  {
    && k != RecordKey(opts.prefix, opts.hash)
    && (forall i :: 0 <= i < |up| ==> Prefixed(opts.prefix, up[i].key) != k)
    && (forall j :: 0 <= j < |rm| ==> Prefixed(opts.prefix, rm[j]) != k)
  }

  /** After the writes, every key the run does not touch is as it was. */
  lemma SyncedOther(store: Store, opts: Options, files: seq<FileEntry>, up: seq<FileEntry>, rm: seq<string>,
                    sized: seq<SizedFile>, disk: Disk, k: string)
    requires SizedAre(sized, up, disk) && Untouched(k, opts, up, rm)
    ensures var s := Synced(store, opts, files, rm, sized, disk);
      (k in s <==> k in store) && (k in store ==> s[k] == store[k])
  {
    var pairs := FilePairs(opts.prefix, sized, disk);
    PutAllUntouched(store, pairs, k);
    var del := DeleteRequest(opts.prefix, rm);
    assert k !in del.keys;
  }

  /**
    A run that finishes leaves the namespace in step with the folder: the
    record holds the catalog of the local files, every file that was
    uploaded is stored under its prefixed key with its base64 contents,
    every removed key is gone (a file or removed key whose prefixed key is
    the record's own is overwritten by the record), and no other key changes.
  */
  lemma DoneSyncsStore(store: Store, reply: Request -> Reply, parse: string -> Option<Catalog>, env: map<string, string>, listing: seq<Listed>,
                       encode: string -> string, decode: string -> string, disk: Disk, opts: Options, remote: Catalog)
    requires DistinctPaths(listing) && Injective(encode)
    requires LoadCatalog(Respond(store, reply, RecordKey(opts.prefix, opts.hash)), parse) == Ok(remote)
    requires Run(store, reply, parse, env, listing, encode, decode, disk, opts).outcome == Done
    ensures var files := WithKeys(listing, encode);
      var s := Run(store, reply, parse, env, listing, encode, decode, disk, opts).store;
      RecordKey(opts.prefix, opts.hash) in s && s[RecordKey(opts.prefix, opts.hash)] == Record(CatalogOf(files))
    ensures var files := WithKeys(listing, encode);
      var up := ToUpload(files, remote);
      var s := Run(store, reply, parse, env, listing, encode, decode, disk, opts).store;
      forall i :: 0 <= i < |up| && Prefixed(opts.prefix, up[i].key) != RecordKey(opts.prefix, opts.hash) ==>
        && up[i].original in disk && Prefixed(opts.prefix, up[i].key) in s
        && s[Prefixed(opts.prefix, up[i].key)] == Blob(disk[up[i].original].base64, true)
    ensures var files := WithKeys(listing, encode);
      var rm := ToRemove(files, remote.keys);
      var s := Run(store, reply, parse, env, listing, encode, decode, disk, opts).store;
      forall j :: 0 <= j < |rm| && Prefixed(opts.prefix, rm[j]) != RecordKey(opts.prefix, opts.hash) ==>
        Prefixed(opts.prefix, rm[j]) !in s
    ensures var files := WithKeys(listing, encode);
      var s := Run(store, reply, parse, env, listing, encode, decode, disk, opts).store;
      forall k :: Untouched(k, opts, ToUpload(files, remote), ToRemove(files, remote.keys)) ==>
        (k in s <==> k in store) && (k in store ==> s[k] == store[k])
  {
    var files := WithKeys(listing, encode);
    var up := ToUpload(files, remote);
    var rm := ToRemove(files, remote.keys);
    DoneNeedsEverything(store, reply, parse, env, listing, encode, decode, disk, opts);
    var sized := Stat(disk, up).value;
    DoneStore(store, reply, parse, env, listing, encode, decode, disk, opts, remote, sized);
    StatSized(disk, up, sized);
    KeysAreUnique(listing, encode);
    UploadKeysUnique(files, remote);
    UploadAndRemoveDisjoint(files, remote);
    SyncedStore(store, opts, files, up, rm, sized, disk);
  }

  /** A size check that passed hands the uploads exactly the files to upload, each on disk. */
  lemma StatSized(disk: Disk, up: seq<FileEntry>, sized: seq<SizedFile>)
    requires Stat(disk, up) == Ok(sized)
    ensures SizedAre(sized, up, disk)
  {
    forall i | 0 <= i < |sized| ensures sized[i].entry == up[i] && up[i].original in disk {
      assert Uploadable(disk, up[i]);
    }
  }

  /** The four facts of `DoneSyncsStore` about the store the whole plan leaves. */
  lemma SyncedStore(store: Store, opts: Options, files: seq<FileEntry>, up: seq<FileEntry>, rm: seq<string>,
                    sized: seq<SizedFile>, disk: Disk)
    requires UniqueKeys(up) && SizedAre(sized, up, disk)
    requires forall f :: f in up ==> f.key !in rm
    ensures var s := Synced(store, opts, files, rm, sized, disk);
      RecordKey(opts.prefix, opts.hash) in s && s[RecordKey(opts.prefix, opts.hash)] == Record(CatalogOf(files))
    ensures var s := Synced(store, opts, files, rm, sized, disk);
      forall i :: 0 <= i < |up| && Prefixed(opts.prefix, up[i].key) != RecordKey(opts.prefix, opts.hash) ==>
        && up[i].original in disk && Prefixed(opts.prefix, up[i].key) in s
        && s[Prefixed(opts.prefix, up[i].key)] == Blob(disk[up[i].original].base64, true)
    ensures forall j :: 0 <= j < |rm| && Prefixed(opts.prefix, rm[j]) != RecordKey(opts.prefix, opts.hash) ==>
        Prefixed(opts.prefix, rm[j]) !in Synced(store, opts, files, rm, sized, disk)
    ensures var s := Synced(store, opts, files, rm, sized, disk);
      forall k :: Untouched(k, opts, up, rm) ==> (k in s <==> k in store) && (k in store ==> s[k] == store[k])
  {
    SyncedRecord(store, opts, files, rm, sized, disk);
    forall i | 0 <= i < |up| && Prefixed(opts.prefix, up[i].key) != RecordKey(opts.prefix, opts.hash)
      ensures var s := Synced(store, opts, files, rm, sized, disk);
        up[i].original in disk && Prefixed(opts.prefix, up[i].key) in s
        && s[Prefixed(opts.prefix, up[i].key)] == Blob(disk[up[i].original].base64, true)
    {
      SyncedUpload(store, opts, files, up, rm, sized, disk, i);
    }
    forall j | 0 <= j < |rm| && Prefixed(opts.prefix, rm[j]) != RecordKey(opts.prefix, opts.hash)
      ensures Prefixed(opts.prefix, rm[j]) !in Synced(store, opts, files, rm, sized, disk)
    {
      SyncedRemoval(store, opts, files, rm, sized, disk, j);
    }
    forall k | Untouched(k, opts, up, rm)
      ensures var s := Synced(store, opts, files, rm, sized, disk);
        (k in s <==> k in store) && (k in store ==> s[k] == store[k])
    {
      SyncedOther(store, opts, files, up, rm, sized, disk, k);
    }
  }

  /** The plan of a run with nothing to upload and nothing to remove. */
  lemma EmptyPlan(opts: Options, files: seq<FileEntry>, disk: Disk)
    ensures Plan(opts, files, [], [], disk) == EmptySync(opts, files)
  {
    assert Packed([]) == [Batch(0, [])];
    assert UploadPlan(opts.prefix, [], disk) == [PutBulk([])];
    assert DeleteRequest(opts.prefix, []) == DeleteBulk([]);
  }

  /** Over a store that already holds the record, the plan with nothing to upload or remove changes nothing. */
  lemma EmptySyncChangesNothing(store: Store, reply: Request -> Reply, opts: Options, files: seq<FileEntry>)
    requires RecordKey(opts.prefix, opts.hash) in store
    requires store[RecordKey(opts.prefix, opts.hash)] == Record(CatalogOf(files))
    ensures Execute(store, reply, EmptySync(opts, files)).store == store
  {
    EmptySyncRequestsAreNoOps(store, opts, files);
    ExecuteNoOps(store, reply, EmptySync(opts, files));
  }

  /** Each request of the plan with nothing to upload or remove, applied alone, leaves such a store as it was. */
  lemma EmptySyncRequestsAreNoOps(store: Store, opts: Options, files: seq<FileEntry>)
    requires RecordKey(opts.prefix, opts.hash) in store
    requires store[RecordKey(opts.prefix, opts.hash)] == Record(CatalogOf(files))
    ensures Apply(store, PutBulk([])) == store && Apply(store, DeleteBulk([])) == store
    ensures Apply(store, PutValue(RecordKey(opts.prefix, opts.hash), CatalogOf(files))) == store
  {
    assert store - (set k | k in []) == store;
    assert store[RecordKey(opts.prefix, opts.hash) := Record(CatalogOf(files))] == store;
  }

  /** The files of a listing with distinct paths and an injective encoding have nothing to sync against their own record. */
  lemma OwnRecordNothingToSync(listing: seq<Listed>, encode: string -> string)
    requires DistinctPaths(listing) && Injective(encode)
    ensures var files := WithKeys(listing, encode);
      ToUpload(files, CatalogOf(files)) == [] && ToRemove(files, CatalogOf(files).keys) == []
  {
    KeysAreUnique(listing, encode);
    DiffOfOwnRecordIsEmpty(WithKeys(listing, encode));
  }

  /** The requests a run sends after the GET when there is nothing to upload or remove. */
  function EmptySync(opts: Options, files: seq<FileEntry>): seq<Request>
  {
    [PutBulk([]), DeleteBulk([]), PutValue(RecordKey(opts.prefix, opts.hash), CatalogOf(files))]
  }

  /** A rerun over the namespace's own record runs the plan with nothing to upload or remove. */
  lemma RerunRunsEmptySync(store: Store, reply: Request -> Reply, parse: string -> Option<Catalog>, env: map<string, string>, listing: seq<Listed>,
                           encode: string -> string, decode: string -> string, disk: Disk, opts: Options)
    requires !opts.dryrun && Configure(env, []).Ok?
    requires DistinctPaths(listing) && Injective(encode)
    requires reply(GetValue(RecordKey(opts.prefix, opts.hash))) == Accepted
    requires RecordKey(opts.prefix, opts.hash) in store
    requires store[RecordKey(opts.prefix, opts.hash)] == Record(CatalogOf(WithKeys(listing, encode)))
    ensures var r := Run(store, reply, parse, env, listing, encode, decode, disk, opts);
      var e := Execute(store, reply, EmptySync(opts, WithKeys(listing, encode)));
      r.sent == [GetValue(RecordKey(opts.prefix, opts.hash))] + e.sent && r.store == e.store
  {
    var files := WithKeys(listing, encode);
    var record := CatalogOf(files);
    assert LoadCatalog(Respond(store, reply, RecordKey(opts.prefix, opts.hash)), parse) == Ok(record);
    OwnRecordNothingToSync(listing, encode);
    RunActs(store, reply, parse, env, listing, encode, decode, disk, opts, record);
    assert Stat(disk, []) == Ok([]);
    WriteFollowsPlan(store, reply, opts, files, [], [], disk, []);
    EmptyPlan(opts, files, disk);
  }

  /**
    Running again over a namespace whose record already holds the catalog
    of the local files uploads and removes nothing: at most an empty bulk
    PUT, an empty bulk DELETE and the same record are sent after the GET,
    and the store is left exactly as it was.
  */
  lemma RerunChangesNothing(store: Store, reply: Request -> Reply, parse: string -> Option<Catalog>, env: map<string, string>, listing: seq<Listed>,
                            encode: string -> string, decode: string -> string, disk: Disk, opts: Options)
    requires !opts.dryrun && Configure(env, []).Ok?
    requires DistinctPaths(listing) && Injective(encode)
    requires reply(GetValue(RecordKey(opts.prefix, opts.hash))) == Accepted
    requires RecordKey(opts.prefix, opts.hash) in store
    requires store[RecordKey(opts.prefix, opts.hash)] == Record(CatalogOf(WithKeys(listing, encode)))
    ensures var r := Run(store, reply, parse, env, listing, encode, decode, disk, opts);
      var key := RecordKey(opts.prefix, opts.hash);
      && r.store == store
      && IsPrefix(r.sent, [GetValue(key), PutBulk([]), DeleteBulk([]), PutValue(key, CatalogOf(WithKeys(listing, encode)))])
  {
    RerunRunsEmptySync(store, reply, parse, env, listing, encode, decode, disk, opts);
    var r := Run(store, reply, parse, env, listing, encode, decode, disk, opts);
    EmptySyncOutcome(store, reply, opts, WithKeys(listing, encode), r.sent, r.store);
  }

  /** After the GET, the plan with nothing to upload or remove sends a prefix of it and leaves the store as it was. */
  lemma EmptySyncOutcome(store: Store, reply: Request -> Reply, opts: Options, files: seq<FileEntry>,
                         sent: seq<Request>, after: Store)
    requires RecordKey(opts.prefix, opts.hash) in store
    requires store[RecordKey(opts.prefix, opts.hash)] == Record(CatalogOf(files))
    requires sent == [GetValue(RecordKey(opts.prefix, opts.hash))] + Execute(store, reply, EmptySync(opts, files)).sent
    requires after == Execute(store, reply, EmptySync(opts, files)).store
    ensures after == store
    ensures var key := RecordKey(opts.prefix, opts.hash);
      IsPrefix(sent, [GetValue(key), PutBulk([]), DeleteBulk([]), PutValue(key, CatalogOf(files))])
  {
    var get := GetValue(RecordKey(opts.prefix, opts.hash));
    var plan := EmptySync(opts, files);
    EmptySyncChangesNothing(store, reply, opts, files);
    SentAfter([get], store, reply, plan);
    assert IsPrefix(sent, [get] + plan);
    assert [get] + plan == [get, PutBulk([]), DeleteBulk([]), PutValue(RecordKey(opts.prefix, opts.hash), CatalogOf(files))];
  }

  /**
    Sync is idempotent: after a run that finished, the same run again
    leaves the store as the first one left it and sends no file.
  */
  lemma SecondRunChangesNothing(store: Store, reply: Request -> Reply, parse: string -> Option<Catalog>, env: map<string, string>, listing: seq<Listed>,
                                encode: string -> string, decode: string -> string, disk: Disk, opts: Options)
    requires DistinctPaths(listing) && Injective(encode)
    requires reply(GetValue(RecordKey(opts.prefix, opts.hash))) == Accepted
    requires Run(store, reply, parse, env, listing, encode, decode, disk, opts).outcome == Done
    ensures var first := Run(store, reply, parse, env, listing, encode, decode, disk, opts).store;
      var key := RecordKey(opts.prefix, opts.hash);
      var r := Run(first, reply, parse, env, listing, encode, decode, disk, opts);
      && r.store == first
      && IsPrefix(r.sent, [GetValue(key), PutBulk([]), DeleteBulk([]), PutValue(key, CatalogOf(WithKeys(listing, encode)))])
  {
    DoneNeedsEverything(store, reply, parse, env, listing, encode, decode, disk, opts);
    var remote := LoadCatalog(Respond(store, reply, RecordKey(opts.prefix, opts.hash)), parse).value;
    DoneSyncsStore(store, reply, parse, env, listing, encode, decode, disk, opts, remote);
    var first := Run(store, reply, parse, env, listing, encode, decode, disk, opts).store;
    RerunChangesNothing(first, reply, parse, env, listing, encode, decode, disk, opts);
  }

  /**
    A first run, with no record stored, uploads every file and removes
    nothing; the bulk DELETE is still sent, with no keys.
  */
  lemma FirstRunUploadsAll(store: Store, reply: Request -> Reply, parse: string -> Option<Catalog>, env: map<string, string>, listing: seq<Listed>,
                           encode: string -> string, decode: string -> string, disk: Disk, opts: Options, sized: seq<SizedFile>)
    requires !opts.dryrun && Configure(env, []).Ok?
    requires reply(GetValue(RecordKey(opts.prefix, opts.hash))) == Accepted
    requires RecordKey(opts.prefix, opts.hash) !in store
    requires Stat(disk, WithKeys(listing, encode)) == Ok(sized)
    ensures forall i :: 0 <= i < |sized| ==> sized[i].entry.original in disk
    ensures var key := RecordKey(opts.prefix, opts.hash);
      var plan := UploadPlan(opts.prefix, sized, disk) + [DeleteBulk([]), PutValue(key, CatalogOf(WithKeys(listing, encode)))];
      var r := Run(store, reply, parse, env, listing, encode, decode, disk, opts);
      r.sent == [GetValue(key)] + Execute(store, reply, plan).sent && r.store == Execute(store, reply, plan).store
  {
    var key := RecordKey(opts.prefix, opts.hash);
    var files := WithKeys(listing, encode);
    assert LoadCatalog(Respond(store, reply, key), parse) == Ok(EMPTY);
    NothingStoredUploadsAll(files);
    RunActs(store, reply, parse, env, listing, encode, decode, disk, opts, EMPTY);
    WriteFollowsPlan(store, reply, opts, files, files, [], disk, sized);
    assert DeleteRequest(opts.prefix, []) == DeleteBulk([]);
  }
}
