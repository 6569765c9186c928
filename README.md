# sync-to-kv: the reconciliation core in Dafny

`sync-to-kv <folder>` pushes a local folder into a Cloudflare Workers KV
namespace. The namespace keeps one JSON hash record (by default under the key
`hashes`) that maps each file's key to its content hash. A run does the
following:

- it hashes the local files and gives each one the key `encodeURIComponent(path)`;
- it reads the stored record (a 404 means `{}`);
- it diffs the two;
- with `--dryrun` it prints the plan and stops;
- otherwise it uploads the changed files in size-bounded bulk PUTs, sends one
  bulk DELETE for the keys that no local file has, and writes the new record.

This project models that core (`index.js`, and `src/worker.js` without its
HTTP plumbing) and proves what the code promises.

The modules follow the program:

- `HashCatalog` (`catalog.dfy`): the file entries. It also models the hash
  record as a JavaScript object, with its `Object.keys` order, and the
  `reduce` that builds it (a method proved against `CatalogOf`).
- `Diff` (`diff.dfy`): the upload list and the remove list of `index.js:32-36`.
- `Report` (`report.dfy`): the `logger` helper.
- `Packer` (`packer.dfy`): the size ceiling and the greedy packing `reduce`.
  `Pack` and `PlaceInto` are methods proved against the function `Packed`, and
  the greedy-shape invariant is proved about `Packed`.
- `Kv` (`kv.dfy`): the namespace.
  - The `Namespace` class holds the store and the log of the requests sent.
  - The service's answer to each request is the function `reply`.
  - A rejected write (bulk PUT, bulk DELETE, record PUT) is the HTTP error
    that `handleHttpError` turns into `process.exit(1)`.
  - A rejected GET is the error `getFileHashes` sees: `{}` on a 404,
    otherwise the run stops (the error is rethrown to the top-level `.catch`).
  - `Execute` runs a sequence of requests up to the first rejection.
- `Config` (`config.dfy`): `initialize`. Its two loops live in the method
  `CopySettings`, proved against `Overlay`.
- `Worker` (`worker.js` operations): `putItems`, `removeItems`,
  `getFileHashes` and `putFileHashes`, as methods on a `Namespace`. Each is
  proved against a function of the old store.
- `Sync` (`sync.dfy`): the action body. The method `Sync` is proved against
  the function `Run`, stage by stage.
- `Guarantees` (`guarantees.dfy`): what a whole run does, stated about `Run`.
  - A configuration error sends nothing.
  - `--dryrun` writes nothing.
  - The writes follow the plan and stop at the first rejection.
  - The record is written last.
  - A finished run leaves the store in step with the folder.
  - A second run changes nothing.

Some behaviours of the code are easy to miss. The model follows the code:

- `removeItems` always sends its bulk DELETE, even with no key to remove
  (`src/worker.js:110-116`).
- With nothing to upload, the packing still yields one empty batch, so one
  empty bulk PUT is sent (`src/worker.js:148`, `152-171`).
- A rerun with nothing to do therefore still sends an empty PUT, an empty
  DELETE and the same record (`Guarantees.RerunChangesNothing`). A first run
  still sends an empty DELETE (`Guarantees.FirstRunUploadsAll`).
- The record committed is the catalog of the local files. It is not merged
  with the stored one (`index.js:52-57`).
- The remove list keeps the enumeration order of the stored record.
- The `--file` option is declared (`index.js:17`) but never used, so no file
  key gets a file prefix.
- As a consequence, a file whose key equals the record key (a top-level file
  named `hashes` when no `--hash` is given) is overwritten by the record at the
  end of the run. `Guarantees.DoneSyncsStore` states its upload clause for
  every other key. If the run stops after the upload and before the record is
  written, the next run reads the file's text as the record and parses it
  (`Worker.StoredTextRead`).

## Model

| member | source | states |
|---|---|---|
| HashCatalog.WithKeys | index.js:26-29 | every listed file, in order, keeps its path and hash and gets the key `encode(path)` |
| HashCatalog.KeysAreUnique | index.js:26-29 | distinct paths under an injective encoding get distinct keys |
| HashCatalog.Assign | index.js:55 | `map[key] = hash` sets the hash. A new key goes to the end of the enumeration order; an existing key keeps its place. The object stays well formed |
| HashCatalog.CatalogOfKeys | index.js:54-57 | the record built by the `reduce` holds exactly the keys of the files |
| HashCatalog.CatalogOfHashes | index.js:54-57 | every key of the record maps to the hash of the last file with that key |
| HashCatalog.CatalogOfUnique | index.js:54-57 | with unique keys, the record enumerates the keys in file order and maps each to its file's hash |
| HashCatalog.BuildHashMap | index.js:54-57 | the `reduce` loop, starting from `{}`, builds exactly the record `CatalogOf(files)` |
| Diff.ToUpload | index.js:32-33 | the upload list keeps the local order of the files it takes. A file is in it iff it is local and the record lacks its key or maps the key to another hash |
| Diff.ToRemove | index.js:34-36 | the remove list keeps the order of the record's keys. A key is in it iff the record has it and no local file has it |
| Diff.CompletenessByKey | index.js:32-36 | in terms of the two catalogs: a key is uploaded iff the local one has it and the stored one lacks it or differs; a key is removed iff the stored one has it and the local one does not |
| Diff.UploadAndRemoveDisjoint | index.js:32-36 | no uploaded file's key is also removed |
| Diff.UploadKeysUnique | index.js:32-33 | local files with distinct keys give an upload list with distinct keys |
| Diff.DiffOfOwnRecordIsEmpty | index.js:32-57 | diffing the files against the record built from them uploads nothing and removes nothing |
| Diff.NothingStoredUploadsAll | index.js:32-36 | against `{}`, every file is uploaded, in order, and nothing is removed |
| Report.Decimal | index.js:10 | `${list.length}` is a non-empty string of digits with no leading zero |
| Report.DecimalRoundTrip | index.js:10 | reading that numeral back gives the length |
| Report.Logger | index.js:10 | the line starts with the prefix and a space. It ends in `.` iff the list is empty, otherwise `:`. The letter before that is `s` iff the length is 0 or more than 1 |
| Report.LoggerCount | index.js:10 | the text between the prefix and ` file` is the decimal numeral of the list length |
| Packer.PackedEmpty | src/worker.js:148 | with no files the packing is exactly one empty batch |
| Packer.PackedPreservesFiles | src/worker.js:139-148 | concatenating the batches gives back the files: nothing lost, duplicated or reordered |
| Packer.PackedSizes | src/worker.js:143-146 | every batch records the sum of its files' sizes |
| Packer.PackedOpensAtCeiling | src/worker.js:141-144 | every batch after the first starts with a file that would have taken the previous batch to the ceiling or beyond |
| Packer.PackedJoinsBelowCeiling | src/worker.js:141-146 | every other file of a batch joined it below the ceiling |
| Packer.PackedBelowCeiling | src/worker.js:129-148 | when every file is under `MAX_PAYLOAD`, every batch is under it, and no batch is empty unless there are no files |
| Packer.PlaceKeepsShape | src/worker.js:140-147 | one step of the `reduce` keeps the greedy shape (sizes, openings at the ceiling, joins below it) |
| Packer.PlaceAppends | src/worker.js:140-147 | one step appends the file to the concatenated batches |
| Packer.PlaceInto | src/worker.js:140-147 | the callback that pushes a new batch at the ceiling and then adds the file to the last batch is the step `Place` |
| Packer.Pack | src/worker.js:139-148 | the `reduce` from one empty batch computes exactly `Packed(files)` |
| Kv.ExecuteStopsAtRejection | src/worker.js:55-58 | what a run of requests sent is a prefix of them. Every request before the last was accepted. The run completes iff all were sent and accepted, and otherwise the last one was rejected with the reported status |
| Kv.ExecuteConcat | src/worker.js:55-58 | running `a + b` is running `a` and then, if nothing was rejected, `b` from the store `a` left |
| Kv.PutAllWrites | src/worker.js:160-170 | after a bulk PUT, a key holds the value of the last pair naming it |
| Kv.PutAllUntouched | src/worker.js:160-170 | a bulk PUT leaves every key none of its pairs names as it was |
| Kv.Namespace.Send | src/worker.js:160-171 | a write is logged. It is carried out iff the service accepts it; otherwise the store is unchanged |
| Kv.Namespace.Get | src/worker.js:182-191 | a GET is logged, leaves the store unchanged and returns the service's answer for the key: a rejection, a 404, the record stored there, or the text of a value a bulk PUT stored there |
| Config.OverlayAt | src/worker.js:26-36 | a pass over a table with one variable per option sets an option from its variable when that variable is set and non-empty, and otherwise leaves it |
| Config.TablesNameEveryOption | src/worker.js:7-20 | each table names every option exactly once |
| Config.OverlayPrecedence | src/worker.js:26-36 | the legacy pass and then the current pass leave exactly the options that have a setting. A set `CLOUDFLARE_*` variable overrides its `CF_*` one |
| Config.ConfigureMissingRequired | src/worker.js:37-41 | `initialize` fails with the required list iff some required option has no setting |
| Config.ConfigureMissingAuth | src/worker.js:42-45 | it fails for authentication iff every required option is set and neither an auth key nor an API token is |
| Config.ConfigureSettings | src/worker.js:46-52 | on success every option has its setting. The headers are a bearer token if there is one, else the key and e-mail pair if both are set, else none |
| Config.CopySettings | src/worker.js:26-36 | one pass of the loop over a table computes exactly `Overlay` |
| Config.Initialize | src/worker.js:25-53 | the method returns exactly `Configure(env, more)` |
| Worker.Prefixed | src/worker.js:167 | the store key is `prefix or ""` followed by the file key, and splits back into the two |
| Worker.PrefixedInjective | src/worker.js:115 | prefixing keeps distinct keys distinct, in both directions |
| Worker.RecordKey | src/worker.js:220 | the record key is the prefix followed by `--hash` when that is given and non-empty, else `hashes` |
| Worker.LoadCatalog | src/worker.js:217-231 | a 404, an empty body or `{}` gives `{}`. A stored record gives the object it holds. Stored text gives the object `JSON.parse` makes of it, and text it throws on is re-raised as a malformed record. Any other HTTP error is re-raised |
| Worker.StoredTextRead | src/worker.js:217-231 | when the record key holds the non-empty text of an uploaded file, the catalog read is the object `JSON.parse` makes of that text, or a malformed-record failure when it throws |
| Worker.RecordRoundTrip | src/worker.js:217-237 | a record written with `putFileHashes` under the key is read back by `getFileHashes` when the read is accepted |
| Worker.Stat | src/worker.js:131-138 | the size check passes iff every file is on disk and under `MAX_PAYLOAD`, and then gives each file with its size. Otherwise it reports the first file that is missing or too large |
| Worker.UploadRequests | src/worker.js:152-172 | one bulk PUT per batch, in batch order, whose body is the pairs of that batch's files |
| Worker.FilePairs | src/worker.js:165-170 | the body of a bulk PUT: one pair per file, in order, each under its prefixed key with its base64 contents and `base64: true` |
| Worker.UploadPlanCarriesFiles | src/worker.js:139-172 | the uploads are one bulk PUT per packed batch, and the batches together hold exactly the files |
| Worker.UploadRequestsStore | src/worker.js:152-172 | the bulk PUTs of the batches, all carried out, leave the store as one bulk PUT of all their files would |
| Worker.UploadPlanStore | src/worker.js:130-172 | the uploads of the sized files, all carried out, put every file's pair, in file order |
| Worker.PutItems | src/worker.js:130-173 | nothing is sent if a file fails the size check. Otherwise the bulk PUTs of the packed batches are sent in order until one is rejected. The new store and the log are stated exactly |
| Worker.PutBatches | src/worker.js:152-172 | the loop over the batches is the run of their bulk PUTs up to the first rejection |
| Worker.DeleteRequest | src/worker.js:115 | the DELETE body is every key, in order, with the prefix in front |
| Worker.RemoveItems | src/worker.js:104-117 | exactly one bulk DELETE is sent, even with no key, and its effect is stated |
| Worker.GetFileHashes | src/worker.js:217-231 | one GET of the record key; the store is unchanged; the result is what `LoadCatalog` makes of the answer, with `JSON.parse` given as `parse` |
| Worker.PutFileHashes | src/worker.js:232-237 | exactly one PUT of the record under the record key, and its effect is stated |
| Sync.DryRunReport | index.js:38-43 | the dry run prints the banner, the upload count line, one line per upload by path, the remove count line, and one line per removed key, decoded |
| Sync.Sync | index.js:21-61 | the action's body sends exactly `Run`'s requests, leaves `Run`'s store and ends with `Run`'s outcome |
| Sync.ReconcileWith | index.js:30-59 | after valid settings: the GET of the record, then the diff and the action |
| Sync.ActOn | index.js:32-59 | the diff, then the report of a dry run or the writes of a real one |
| Sync.WriteAll | index.js:45-59 | `putItems`, then, if it did not fail, `removeItems` and `putFileHashes` |
| Sync.CommitAll | index.js:48-59 | the bulk DELETE, then, if it was accepted, the record built from all the local files |
| Guarantees.ConfigErrorSendsNothing | src/worker.js:182-190 | a run sends nothing iff its settings are invalid, and then ends with that configuration error. With valid settings the first request is the GET of the record |
| Guarantees.ReadFailureStops | src/worker.js:217-231 | when the record cannot be read, the run sends only the GET, changes nothing and ends with that failure |
| Guarantees.DryRunWritesNothing | index.js:38-43 | with `--dryrun` the store is unchanged, and at most the GET of the record is sent |
| Guarantees.DryRunReports | index.js:38-43 | once the record is read, a dry run ends with the report of the diff |
| Guarantees.StatFailureWritesNothing | src/worker.js:131-138 | a file that is missing or too large stops the run after the GET, before any write |
| Guarantees.WriteFollowsPlan | index.js:45-59 | once the size check passes, the writes are one run of the plan (the bulk PUTs, the DELETE, the record) up to the first rejection |
| Guarantees.WritesFollowPlan | index.js:45-59 | a real run sends the GET and then a prefix of the plan. Every write before the last one sent was accepted. It is done iff the whole plan was sent and accepted, and otherwise it fails with the last write's status. The store is the plan's run |
| Guarantees.PlanShape | index.js:45-59 | in the plan, the record is the last request, the bulk DELETE comes just before it, and no earlier request writes a record |
| Guarantees.RecordWrittenLast | index.js:45-59 | in every run, a record write is the last request sent. It comes right after the bulk DELETE, writes the catalog of the local files under the record key, and follows only accepted writes |
| Guarantees.DoneNeedsEverything | index.js:21-61 | a run that finished had valid settings, was not a dry run, read the record and passed the size check |
| Guarantees.PlanStore | index.js:45-59 | carrying out the whole plan puts every file's pair, then deletes the removed keys, then writes the record |
| Guarantees.DoneStore | index.js:45-59 | a finished run leaves the store as the whole plan carried out |
| Guarantees.DoneSyncsStore | index.js:45-59 | after a finished run: the record holds the catalog of the local files; every uploaded file is stored under its prefixed key with its base64 contents (unless that key is the record's); every removed key is gone (same exception); every other key is unchanged |
| Guarantees.OwnRecordNothingToSync | index.js:26-57 | for distinct paths and an injective encoding, the local files have nothing to upload or remove against their own record |
| Guarantees.RerunChangesNothing | index.js:32-59 | over a namespace whose record already holds the local catalog, a run leaves the store exactly as it was. After the GET it sends at most an empty PUT, an empty DELETE and the same record |
| Guarantees.SecondRunChangesNothing | index.js:21-61 | idempotence: after a run that finished, the same run again leaves the store as the first left it. After the GET it sends at most an empty PUT, an empty DELETE and the same record |
| Guarantees.FirstRunUploadsAll | index.js:32-59 | with no record stored, once the size check passes, the writes are the uploads of every local file, an empty DELETE and the record, run up to the first rejection |

## Left out

- HTTP transport (`httpie`), URLs, headers on the wire and `listKeys` pagination (`src/worker.js:60-93`). The service is the function `reply`, which accepts or rejects each request; `listKeys` is not used by the sync.
- The filesystem: `stat` and `readFile(…, 'base64')` are the map `disk` from path to size and base64 contents. `src/files.js` (listing, glob and ignore patterns) is not part of this model, and the listing is an input.
- A file removed between the size check and the read is not modelled: the uploads require every packed file to be on disk.
- Content hashing (`many-file-hashes`) and command-line parsing (`sade`): hashes are opaque strings, and the options are the `Options` value.
- `encodeURIComponent`, `decodeURIComponent` and `JSON.parse` are parameters.
  - `encode` and `decode` are functions; uniqueness results assume `encode` is injective.
  - `parse` gives what `JSON.parse` makes of the text of a value a bulk PUT stored (such a value is found under the record key when a file's key is the record key): an object, or `None` when it throws. Base64 decoding by the service is folded into `parse`.
  - A record written by `putFileHashes` is read back as the same object: the JSON text of the record and `JSON.parse` are not modelled.
  - Stored text that parses to something other than an object (a number, `null`, an array) is not modelled.
- The concurrency of `Promise.all`: the stat pass and the reads run in file order. A missing file is reported as a failed stat and stops the run like a file that is too large. When several files fail, the model reports the first in list order.
- Console output outside the dry run, exit codes, and the top-level `.catch` that only logs. A failure ends the run with an `Aborted` outcome.
- JavaScript's enumeration of integer-like keys before other keys, and keys such as `__proto__`. The record is enumerated in insertion order.
- `initialize` is run once, before the GET. In the source it runs again inside every worker call (`getItem`, `putItems`, `removeItems`, `putItem`), with the same environment and therefore the same result. `moreRequired` is a parameter, and the run passes none, as the source does.
- The `--file` option, which the source declares and never uses.

## Findings

No source defect was established. The key clash between a file named like the record key and the record itself is described above and is stated in `Guarantees.DoneSyncsStore`.
