/**
  The `sync-to-kv <folder>` action (index.js:21-61): hash the local files,
  read the stored hash record, diff, and either report the plan (dry run)
  or upload, remove, and write the new record, in that order.
*/
module Sync {
  import opened Wrappers
  import opened HashCatalog
  import opened Diff
  import opened Report
  import opened Packer
  import opened Kv
  import opened Config
  import opened Worker

  /** The command-line options the action uses. */
  datatype Options = Options(prefix: Option<string>, hash: Option<string>, dryrun: bool)

  /** How a run ends: finished, printed the dry-run plan, or stopped by a failure. */
  datatype Outcome = Done | Reported(lines: seq<string>) | Aborted(failure: Failure)

  /** The requests sent, the store left behind, and the outcome. */
  datatype RunResult = RunResult(sent: seq<Request>, store: Store, outcome: Outcome)

  /** What a dry run prints: the banner, the upload list by path, the remove list by decoded key. */
  function DryRunReport(up: seq<FileEntry>, rm: seq<string>, decode: string -> string): (lines: seq<string>)
    ensures |lines| == |up| + |rm| + 3
    ensures lines[0] == "(Dry run, no files will be modified.)"
    ensures lines[1] == Logger("Upload", up)
    ensures forall i :: 0 <= i < |up| ==> lines[2 + i] == "- " + up[i].original
    ensures lines[|up| + 2] == Logger("Remove", rm)
    ensures forall i :: 0 <= i < |rm| ==> lines[|up| + 3 + i] == "- " + decode(rm[i])
  {
    ["(Dry run, no files will be modified.)", Logger("Upload", up)]
      + seq(|up|, i requires 0 <= i < |up| => "- " + up[i].original)
      + [Logger("Remove", rm)]
      + seq(|rm|, i requires 0 <= i < |rm| => "- " + decode(rm[i]))
  }

  /** The writes of a real run once the sizes are known: the uploads, the delete, the new record. */
  function Plan(opts: Options, files: seq<FileEntry>, rm: seq<string>, sized: seq<SizedFile>, disk: Disk): seq<Request>
    requires forall i :: 0 <= i < |sized| ==> sized[i].entry.original in disk
  {
    UploadPlan(opts.prefix, sized, disk) + Commit(opts, files, rm)
  }

  /**
    A run of the action against a store and a service that answers each
    request with `reply`. `parse` stands for JSON.parse of a stored file's
    text, as `LoadCatalog` uses it. `encode` and `decode` stand for
    encodeURIComponent and decodeURIComponent; `listing` is the hashed
    file list; `disk` the folder's contents.
  */
  function Run(store: Store, reply: Request -> Reply, parse: string -> Option<Catalog>, env: map<string, string>,
               listing: seq<Listed>, encode: string -> string, decode: string -> string, disk: Disk, opts: Options): RunResult
  {
    match Configure(env, [])
    case Err(e) => RunResult([], store, Aborted(ConfigInvalid(e)))
    case Ok(_) => Reconcile(store, reply, parse, WithKeys(listing, encode), decode, disk, opts)
  }

  /** Once the settings are valid: read the record, diff, then report or write. */
  function Reconcile(store: Store, reply: Request -> Reply, parse: string -> Option<Catalog>, files: seq<FileEntry>,
                     decode: string -> string, disk: Disk, opts: Options): RunResult
  {
    var key := RecordKey(opts.prefix, opts.hash);
    match LoadCatalog(Respond(store, reply, key), parse)
    case Err(f) => RunResult([GetValue(key)], store, Aborted(f))
    case Ok(remote) =>
      var a := Act(store, reply, files, remote, decode, disk, opts);
      RunResult([GetValue(key)] + a.sent, a.store, a.outcome)
  }

  /** With the stored record in hand: the diff, then the dry-run report or the writes. */
  function Act(store: Store, reply: Request -> Reply, files: seq<FileEntry>, remote: Catalog,
               decode: string -> string, disk: Disk, opts: Options): RunResult
  {
    var up := ToUpload(files, remote);
    var rm := ToRemove(files, remote.keys);
    if opts.dryrun then RunResult([], store, Reported(DryRunReport(up, rm, decode)))
    else Write(store, reply, opts, files, up, rm, disk)
  }

  /** The writing half of a real run: the uploads, then the delete and the new record, until something fails. */
  function Write(store: Store, reply: Request -> Reply, opts: Options, files: seq<FileEntry>,
                 up: seq<FileEntry>, rm: seq<string>, disk: Disk): RunResult
  {
    var u := Uploads(store, reply, opts.prefix, up, disk);
    if u.failure.Some? then RunResult(u.sent, u.store, Aborted(u.failure.value))
    else
      var c := EffectOf(Execute(u.store, reply, Commit(opts, files, rm)));
      RunResult(u.sent + c.sent, c.store, if c.failure.Some? then Aborted(c.failure.value) else Done)
  }

  /** The two writes after the uploads: the delete, then the new record. */
  function Commit(opts: Options, files: seq<FileEntry>, rm: seq<string>): seq<Request>
  {
    [DeleteRequest(opts.prefix, rm), PutValue(RecordKey(opts.prefix, opts.hash), CatalogOf(files))]
  }

  /** Sending `b` and then `c` after `a` is sending `b + c` after it. */
  lemma Regroup(a: seq<Request>, b: seq<Request>, c: seq<Request>)
    ensures a + b + c == a + (b + c)
  {
  }

  /** The action's body, step by step against the namespace. */
  method Sync(ns: Namespace, parse: string -> Option<Catalog>, env: map<string, string>, listing: seq<Listed>,
              encode: string -> string, decode: string -> string, disk: Disk, opts: Options) returns (outcome: Outcome)
    modifies ns
    ensures var r := Run(old(ns.store), ns.reply, parse, env, listing, encode, decode, disk, opts);
      ns.sent == old(ns.sent) + r.sent && ns.store == r.store && outcome == r.outcome
  {
    var files := WithKeys(listing, encode);
    var settings := Initialize(env, []);
    if settings.Err? {
      return Aborted(ConfigInvalid(settings.error));
    }
    outcome := ReconcileWith(ns, parse, files, decode, disk, opts);
  }

  /** index.js:30-59 once the settings are valid. */
  method ReconcileWith(ns: Namespace, parse: string -> Option<Catalog>, files: seq<FileEntry>, decode: string -> string,
                       disk: Disk, opts: Options)
    returns (outcome: Outcome)
    modifies ns
    ensures var r := Reconcile(old(ns.store), ns.reply, parse, files, decode, disk, opts);
      ns.sent == old(ns.sent) + r.sent && ns.store == r.store && outcome == r.outcome
  {
    ghost var store0, sent0 := ns.store, ns.sent;
    var get := [GetValue(RecordKey(opts.prefix, opts.hash))];
    var loaded := GetFileHashes(ns, opts.prefix, opts.hash, parse);
    ReconcileSteps(store0, ns.reply, parse, files, decode, disk, opts, loaded);
    if loaded.Err? {
      return Aborted(loaded.error);
    }
    outcome := ActOn(ns, files, loaded.value, decode, disk, opts);
    Regroup(sent0, get, Act(store0, ns.reply, files, loaded.value, decode, disk, opts).sent);
  }

  /** `Reconcile` once the record has been read: the GET, then `Act` on what it returned. */
  lemma ReconcileSteps(store: Store, reply: Request -> Reply, parse: string -> Option<Catalog>, files: seq<FileEntry>,
                       decode: string -> string, disk: Disk, opts: Options, loaded: Result<Catalog, Failure>)
    requires loaded == LoadCatalog(Respond(store, reply, RecordKey(opts.prefix, opts.hash)), parse)
    ensures var r := Reconcile(store, reply, parse, files, decode, disk, opts);
      var get := [GetValue(RecordKey(opts.prefix, opts.hash))];
      match loaded
      case Err(f) => r == RunResult(get, store, Aborted(f))
      case Ok(remote) =>
        var a := Act(store, reply, files, remote, decode, disk, opts);
        r == RunResult(get + a.sent, a.store, a.outcome)
  {
  }

  /** index.js:32-59: the diff, then the report of a dry run or the writes of a real one. */
  method ActOn(ns: Namespace, files: seq<FileEntry>, remote: Catalog, decode: string -> string, disk: Disk, opts: Options)
    returns (outcome: Outcome)
    modifies ns
    ensures var r := Act(old(ns.store), ns.reply, files, remote, decode, disk, opts);
      ns.sent == old(ns.sent) + r.sent && ns.store == r.store && outcome == r.outcome
  {
    var up := ToUpload(files, remote);
    var rm := ToRemove(files, remote.keys);
    if opts.dryrun {
      return Reported(DryRunReport(up, rm, decode));
    }
    outcome := WriteAll(ns, opts, files, up, rm, disk);
  }

  /** index.js:45-59: `putItems`, then `removeItems`, then `putFileHashes` with the record of every local file. */
  method WriteAll(ns: Namespace, opts: Options, files: seq<FileEntry>, up: seq<FileEntry>, rm: seq<string>, disk: Disk)
    returns (outcome: Outcome)
    modifies ns
    ensures var w := Write(old(ns.store), ns.reply, opts, files, up, rm, disk);
      ns.sent == old(ns.sent) + w.sent && ns.store == w.store && outcome == w.outcome
  {
    ghost var store0, sent0 := ns.store, ns.sent;
    var failure := PutItems(ns, opts.prefix, up, disk);
    WriteSteps(store0, ns.reply, opts, files, up, rm, disk, ns.store);
    if failure.Some? {
      return Aborted(failure.value);
    }
    ghost var u := Uploads(store0, ns.reply, opts.prefix, up, disk);
    outcome := CommitAll(ns, opts, files, rm);
    Regroup(sent0, u.sent, EffectOf(Execute(u.store, ns.reply, Commit(opts, files, rm))).sent);
  }

  /** `Write` as the uploads followed, when they all succeed, by the commit from the store they leave. */
  lemma WriteSteps(store: Store, reply: Request -> Reply, opts: Options, files: seq<FileEntry>,
                   up: seq<FileEntry>, rm: seq<string>, disk: Disk, store1: Store)
    requires store1 == Uploads(store, reply, opts.prefix, up, disk).store
    ensures var w := Write(store, reply, opts, files, up, rm, disk);
      var u := Uploads(store, reply, opts.prefix, up, disk);
      var c := EffectOf(Execute(store1, reply, Commit(opts, files, rm)));
      if u.failure.Some? then w == RunResult(u.sent, u.store, Aborted(u.failure.value))
      else
        w == RunResult(u.sent + c.sent, c.store, if c.failure.Some? then Aborted(c.failure.value) else Done)
  {
  }

  /** index.js:48-59: `removeItems`, then `putFileHashes`, stopping at the first failure. */
  method CommitAll(ns: Namespace, opts: Options, files: seq<FileEntry>, rm: seq<string>) returns (outcome: Outcome)
    modifies ns
    ensures var c := EffectOf(Execute(old(ns.store), ns.reply, Commit(opts, files, rm)));
      && ns.sent == old(ns.sent) + c.sent && ns.store == c.store
      && outcome == if c.failure.Some? then Aborted(c.failure.value) else Done
  {
    ghost var store0, sent0 := ns.store, ns.sent;
    var failure := RemoveItems(ns, opts.prefix, rm);
    CommitSteps(store0, ns.reply, opts, files, rm, ns.store);
    if failure.Some? {
      return Aborted(failure.value);
    }
    ghost var store1 := ns.store;
    var record := BuildHashMap(files);
    failure := PutFileHashes(ns, opts.prefix, opts.hash, record);
    Regroup(sent0, EffectOf(Execute(store0, ns.reply, [DeleteRequest(opts.prefix, rm)])).sent,
            EffectOf(Execute(store1, ns.reply, [PutValue(RecordKey(opts.prefix, opts.hash), CatalogOf(files))])).sent);
    if failure.Some? {
      return Aborted(failure.value);
    }
    return Done;
  }

  /** `Commit` run as the delete followed, if it is accepted, by the write of the record. */
  lemma CommitSteps(store: Store, reply: Request -> Reply, opts: Options, files: seq<FileEntry>, rm: seq<string>, store1: Store)
    requires store1 == Execute(store, reply, [DeleteRequest(opts.prefix, rm)]).store
    ensures var d := EffectOf(Execute(store, reply, [DeleteRequest(opts.prefix, rm)]));
      var p := EffectOf(Execute(store1, reply, [PutValue(RecordKey(opts.prefix, opts.hash), CatalogOf(files))]));
      var c := EffectOf(Execute(store, reply, Commit(opts, files, rm)));
      if d.failure.Some? then c == d
      else c == Effect(d.sent + p.sent, p.store, p.failure)
  {
    var tail := Commit(opts, files, rm);
    ExecuteConcat(store, reply, [tail[0]], [tail[1]]);
    assert [tail[0]] + [tail[1]] == tail;
  }
}
