# Loading Datastore exports into BigQuery: a Dafny model

This project models `src/lib/load-into-to-bigquery.ts` of the datastore-to-bigquery tool.
That file holds the three operations that turn a Cloud Datastore export in a Cloud
Storage bucket into BigQuery tables:

- `loadAllKindsFromPrefix` lists the objects under a prefix. It keeps the names that end
  in `.export_metadata`, one per exported kind. It then loads them one at a time, in
  listing order, and stops at the first error.
- `loadOneKind` takes the kind name out of the metadata URL with the regular expression
  `/_kind_(.+)\.export_metadata$/`. It builds a load-job descriptor and submits it. The
  descriptor sets format `DATASTORE_BACKUP`, `WRITE_TRUNCATE`, autodetect, no unknown
  values, zero bad records and job id `import-<kind>-<dataset>-<millis>`. Any error is
  rethrown unchanged.
- `ensureDataset` probes a dataset with `getTables`. It creates the dataset (location
  `US` by default) when the probe fails with a message starting `Not found: Dataset `,
  and rethrows every other error.

The modules are:

- `Text`: prefixes, suffixes and the decimal text of a millisecond timestamp.
- `KindName`: the regular expression, with JavaScript semantics. The leftmost match
  wins. `.` matches anything but the four line terminators. `$` is the end of the input.
- `LoadJob`: the job descriptor and its id.
- `Warehouse`: the BigQuery client as a class. It holds the project's datasets, the log
  of `createDataset` calls and the log of submitted jobs. Three oracles hold what the
  service decides: a fault for probing a dataset, a fault that refuses creating a
  dataset, and a verdict on each job.
- `Provision`: `ensureDataset`.
- `Loader`: `loadOneKind` and `loadAllKindsFromPrefix`.

The two methods `Loader.LoadAllKindsFromPrefix` and `Provision.EnsureDataset` change the
client's logs and store. Each is proved equal to a pure reference, `Loader.LoadAll` and
`Provision.Ensure`. The lemmas state the properties of those references.

Two points where the code does something a reader may not expect. The model follows
the code:

- A metadata name that yields no kind does not stop the run before any job. It throws
  only when its turn in the loop comes, after the jobs of every earlier kind were
  submitted (`Loader.MalformedNameStopsRun`). What it throws is the TypeError of
  indexing `null`, which does not name the file; the model's `NoKindName` carries
  nothing either.
- `ensureDataset` always returns the handle `bigquery.dataset(name)` made before the
  probe. That handle is local and carries no location. The handle that `createDataset`
  returns is bound by `const [dataset]` at line 133 to a second, inner variable. That
  variable shadows the outer one and is then dropped. So even after a creation, the
  caller does not get the region the dataset was created in (`Provision.Ensure`).

The kind extraction is exact under a sufficient condition on the directory part `P` of
`P + "_kind_" + N + ".export_metadata"`: that `P + "_kind"` holds no `_kind_`
(`KindName.KindOfExportName`). `P` alone holding none is not enough. With
`P = "x_kind"` the match starts inside `P`, and the kind comes out as `kind_User`
instead of `User` (`KindName.OverlapShiftsKind`). The condition is not necessary: a
marker inside `P` that a line terminator follows cannot start a match, because `.`
does not cross the terminator.

## Model

| member | source | states |
|---|---|---|
| Text.DecimalText | src/lib/load-into-to-bigquery.ts:98 | the millisecond reading is written as a non-empty string of digits with no leading zero |
| Text.ParseDecimalText | src/lib/load-into-to-bigquery.ts:98 | the decimal text of a timestamp reads back as that timestamp |
| Text.DecimalTextInjective | src/lib/load-into-to-bigquery.ts:98 | distinct timestamps have distinct decimal texts |
| KindName.FirstMatch | src/lib/load-into-to-bigquery.ts:55 | finds the leftmost position where the expression matches, and reports none only when no position matches |
| KindName.KindOf | src/lib/load-into-to-bigquery.ts:55 | an extracted kind is non-empty, has no line terminator, and the URL ends in `_kind_` + kind + `.export_metadata` |
| KindName.KindOfIsLeftmostMatch | src/lib/load-into-to-bigquery.ts:55 | `match` gives null exactly when no position matches; otherwise group 1 is the capture of the leftmost match |
| KindName.KindOfExportName | src/lib/load-into-to-bigquery.ts:55 | a URL `P_kind_N.export_metadata` yields exactly N when N is non-empty without line terminators and `P + "_kind"` holds no marker |
| KindName.NoMarkerNoKind | src/lib/load-into-to-bigquery.ts:55 | a URL without `_kind_` yields no kind |
| KindName.EmptyKindNoKind | src/lib/load-into-to-bigquery.ts:55 | an empty kind between the marker and the suffix yields no kind, because `.+` needs a character |
| KindName.OverlapShiftsKind | src/lib/load-into-to-bigquery.ts:55 | a directory ending in `_kind` holds no marker, yet shifts the match: `x_kind_kind_User.export_metadata` yields `kind_User` |
| LoadJob.JobFor | src/lib/load-into-to-bigquery.ts:73-100 | every descriptor is a LOAD job from `DATASTORE_BACKUP` with autodetect, no unknown values, zero bad records and `WRITE_TRUNCATE`; it reads exactly the metadata URL, writes table `kind` of `project:dataset`, and runs in that project under the id `JobId` gives for the kind, the dataset and the clock reading |
| LoadJob.JobId | src/lib/load-into-to-bigquery.ts:98 | builds `import-<kind>-<dataset>-<millis>`; no contract of its own, its properties are `JobIdInjective` and `JobIdEndsWithTimestamp` |
| LoadJob.JobIdInjective | src/lib/load-into-to-bigquery.ts:96-99 | within one dataset, equal job ids mean the same kind and the same timestamp |
| LoadJob.JobIdEndsWithTimestamp | src/lib/load-into-to-bigquery.ts:96-99 | a job id is `import-<kind>-<dataset>-` followed by digits that read back as the timestamp |
| Warehouse.BigQuery.GetTables | src/lib/load-into-to-bigquery.ts:125-126 | the probe throws the probe fault if there is one, nothing for an existing dataset, and a `Not found: Dataset ` error otherwise |
| Warehouse.BigQuery.CreateDataset | src/lib/load-into-to-bigquery.ts:133-135 | the call is logged; a creation the service refuses throws its fault and changes nothing; otherwise an existing dataset gives an "Already Exists" error and stays as it was, and an absent one is added with the requested location |
| Warehouse.BigQuery.CreateJob | src/lib/load-into-to-bigquery.ts:102-104 | the job is appended to the submitted jobs, and the call fails exactly as the service's verdict on that job says |
| Warehouse.LocalHandle | src/lib/load-into-to-bigquery.ts:125 | `bigquery.dataset(name)`: a handle with the name and no location, made without contacting the service; no contract of its own, it is what `Provision.Ensure` returns |
| Provision.Ensure | src/lib/load-into-to-bigquery.ts:115-139 | success returns the location-less probe handle, and the dataset then exists; at most one creation, with the requested name and location; without a creation the store is unchanged; a successful creation adds exactly that dataset; a failed call leaves the store unchanged |
| Provision.IsNotFound | src/lib/load-into-to-bigquery.ts:129 | a probe error counts as "not found" when its message starts with `Not found: Dataset `; no contract of its own, `EnsureMissing` and `EnsureRethrows` state the two branches it selects |
| Provision.EnsureExisting | src/lib/load-into-to-bigquery.ts:124-127 | when the probe succeeds, nothing is created, the store is unchanged, and the existing dataset keeps its own location |
| Provision.EnsureMissing | src/lib/load-into-to-bigquery.ts:128-136 | a not-found probe error leads to exactly one `createDataset` with the requested name and location; a refused creation throws its fault and leaves the store as it was; a dataset present after all (created since the probe) makes the call throw "Already Exists" with the store unchanged; otherwise the dataset then exists in the requested location |
| Provision.EnsureRethrows | src/lib/load-into-to-bigquery.ts:129-131 | any other probe error is thrown unchanged and nothing is created |
| Provision.EnsureCreatesAbsent | src/lib/load-into-to-bigquery.ts:119-136 | with no fault on the probe or on the creation, a missing dataset is created in the requested location and the call succeeds |
| Provision.EnsureIdempotent | src/lib/load-into-to-bigquery.ts:115-139 | with no fault on the probe, after a successful call, a second call for the same name creates nothing and returns the same handle and store, whatever location it asks for |
| Provision.EnsureDataset | src/lib/load-into-to-bigquery.ts:115-139 | the method's result, new store and new creation log are those of `Ensure` on the store before the call |
| Loader.KindFiles | src/lib/load-into-to-bigquery.ts:27-33 | a name is kept exactly when it is listed and ends in `.export_metadata`; no more names than listed |
| Loader.KindFilesAppend | src/lib/load-into-to-bigquery.ts:27-33 | filtering distributes over concatenation, so listing order is preserved |
| Loader.KindFilesAllOrNone | src/lib/load-into-to-bigquery.ts:27-33 | a listing of metadata files only is kept whole; one without any is emptied |
| Loader.MetadataUrl | src/lib/load-into-to-bigquery.ts:39-42 | builds `gs://` + bucket + `/` + name; no contract of its own, `MetadataUrlNamesObject` states its shape |
| Loader.MetadataUrlNamesObject | src/lib/load-into-to-bigquery.ts:39-42 | the URL is `gs://<bucket>/` followed by the object name and nothing else, so the URL of a kept name still ends in `.export_metadata` |
| Loader.LoadOne | src/lib/load-into-to-bigquery.ts:49-112 | no job is submitted exactly when no kind is found, and then the error is the failed match; otherwise exactly the descriptor `JobFor` builds from this URL, project, dataset, extracted kind and clock reading is submitted, and the call fails exactly when the service's verdict on it is an error, with that message |
| Loader.Chain | src/lib/load-into-to-bigquery.ts:38-44 | the loop from a given load on; an error it ends with is the error of one of those loads, unchanged |
| Loader.FirstFailure | src/lib/load-into-to-bigquery.ts:38-44 | the first load at or after a position that fails on its own: all before it succeed, and it fails unless it is the end |
| Loader.ChainFailFast | src/lib/load-into-to-bigquery.ts:38-44 | the sequential loop submits the jobs of loads up to the first failing one, in order, and ends with that load's error unchanged |
| Loader.LoadAll | src/lib/load-into-to-bigquery.ts:38-45 | a run submits at most one job per discovered file, and one for every file when it succeeds |
| Loader.LoadAllInOrder | src/lib/load-into-to-bigquery.ts:38-44 | the j-th submitted job is the job of the j-th discovered file: one job per kind, in listing order |
| Loader.LoadAllSucceeds | src/lib/load-into-to-bigquery.ts:38-45 | the run succeeds exactly when every kind loads on its own, and then every kind was submitted |
| Loader.LoadAllFailFast | src/lib/load-into-to-bigquery.ts:38-44 | when kind k is the first to fail, its error is the run's error and no job is submitted for any later kind |
| Loader.MalformedNameStopsRun | src/lib/load-into-to-bigquery.ts:43-55 | a name that yields no kind aborts the run at its turn with the null-match TypeError, after exactly the jobs of the earlier kinds |
| Loader.RunJobsAreBackupLoads | src/lib/load-into-to-bigquery.ts:38-100 | every job of a run is a backup load that reads exactly its file's URL and writes, in the run's project and dataset, the table named by that URL's kind |
| Loader.RunJobIdsDistinct | src/lib/load-into-to-bigquery.ts:38-44 | with a clock that reads differently at each load, no two jobs of a run share an id |
| Loader.LoadOneKind | src/lib/load-into-to-bigquery.ts:49-112 | the method submits what `LoadOne` submits and throws what it throws |
| Loader.LoadAllKindsFromPrefix | src/lib/load-into-to-bigquery.ts:15-46 | the method submits exactly the jobs of `LoadAll` over the filtered listing; it returns the filtered names when no load fails, and the first error otherwise |

## Left out

- Listing the bucket (`getFiles` with its prefix and paging) is not modelled; the names it returns are the `listing` parameter, and `pathPrefix` only reaches the model through them.
- `getProjectId()` is not modelled as a call: the project id is a field of the client, fixed for the run.
- Loader.LoadAllKindsFromPrefix: `new Date().getTime()` is the parameter `now`, read once per load and indexed by the load's position; it is a natural number, so clocks before 1970 are not modelled.
- Loader.MetadataUrl is `gs://` + bucket + `/` + name; the normalisation `path.join` does on `.`, `..` and repeated slashes is not modelled.
- What the service does with a job (running it, `job.promise()`, the statistics) is folded into one verdict per job, fixed for the run; the elapsed time in seconds, a floating-point value used only for display, is left out.
- The probe fault, the creation fault and the "Already Exists" message stand for the service's own errors; their exact texts beyond the `Not found: Dataset ` prefix are not modelled.
- The spinner and its messages are output only and are left out, as is the `ora` default for a missing spinner.
- Concurrency and `await` are left out: the loop is sequential in the source, and the model runs it step by step.
- Strings are sequences of Unicode characters; JavaScript strings are UTF-16 code units. The kind text is the same either way, but positions inside a surrogate pair are not modelled.
- The command-line entry point in `src/bin/bigqueryLoad.ts` is not part of this model.
