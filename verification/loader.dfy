/** `loadAllKindsFromPrefix` and `loadOneKind` (src/lib/load-into-to-bigquery.ts,
    lines 15-112): discover the per-kind export-metadata files of a listing, then load
    them one at a time, in listing order, stopping at the first error. */
module Loader {
  import opened Wrappers
  import opened Text
  import opened KindName
  import opened LoadJob
  import opened Warehouse

  /** What a load throws: the TypeError of indexing the `null` that a failed kind-name
      match gives (its message does not name the file), or a service error rethrown as
      it came. */
  datatype Error = NoKindName | Rethrown(message: string)

  /** The jobs submitted by (part of) a run, in order, and the error it ended with, if any. */
  datatype Run = Run(submitted: seq<JobOptions>, error: Option<Error>)

  /** Everything a run depends on besides the file names: the project, the destination
      dataset, the bucket, the clock reading taken when the i-th file is loaded, and the
      service's verdict on each job. */
  datatype Env = Env(
    projectId: string,
    datasetName: string,
    bucket: string,
    now: nat -> nat,
    verdict: JobOptions -> Option<string>)

  predicate IsExportMetadata(name: string) {
    EndsWith(name, Suffix)
  }

  /** The listed object names that end in `.export_metadata`, in listing order. */
  function KindFiles(listing: seq<string>): (r: seq<string>)
    ensures forall x :: x in r <==> x in listing && IsExportMetadata(x)
    ensures |r| <= |listing|
  {
    if listing == [] then []
    else (if IsExportMetadata(listing[0]) then [listing[0]] else []) + KindFiles(listing[1..])
  }

  /** Filtering distributes over concatenation: together with the one-element case this
      pins the result down, order included. */
  lemma {:induction false} KindFilesAppend(a: seq<string>, b: seq<string>)
    ensures KindFiles(a + b) == KindFiles(a) + KindFiles(b)
    decreases |a|
  {
    if a != [] {
      var head := if IsExportMetadata(a[0]) then [a[0]] else [];
      assert (a + b)[0] == a[0];
      assert (a + b)[1..] == a[1..] + b;
      assert KindFiles(a + b) == head + KindFiles(a[1..] + b);
      assert KindFiles(a) == head + KindFiles(a[1..]);
      KindFilesAppend(a[1..], b);
      assert head + (KindFiles(a[1..]) + KindFiles(b)) == (head + KindFiles(a[1..])) + KindFiles(b);
    } else {
      assert a + b == b;
    }
  }

  /** A listing of export-metadata files only is kept whole; one without any is emptied. */
  lemma {:induction false} KindFilesAllOrNone(listing: seq<string>)
    ensures (forall i :: 0 <= i < |listing| ==> IsExportMetadata(listing[i]))
              ==> KindFiles(listing) == listing
    ensures (forall i :: 0 <= i < |listing| ==> !IsExportMetadata(listing[i]))
              ==> KindFiles(listing) == []
  {
    if listing != [] {
      KindFilesAllOrNone(listing[1..]);
    }
  }

  /** `gs://${path.join(bucket, name)}`, for names that need no normalisation. */
  function MetadataUrl(bucket: string, name: string): string {
    "gs://" + bucket + "/" + name
  }

  /** The URL is the bucket's `gs://` prefix followed by the object name and nothing else,
      so the URL of a kept file is still an export-metadata name. */
  lemma MetadataUrlNamesObject(bucket: string, name: string)
    ensures var url := MetadataUrl(bucket, name);
            && StartsWith(url, "gs://" + bucket + "/") && EndsWith(url, name)
            && |url| == |"gs://" + bucket + "/"| + |name|
            && (IsExportMetadata(name) ==> IsExportMetadata(url))
  {
    var prefix := "gs://" + bucket + "/";
    assert MetadataUrl(bucket, name) == prefix + name;
    assert (prefix + name)[..|prefix|] == prefix;
    EndsWithAppend(prefix, name, name);
    if IsExportMetadata(name) {
      EndsWithAppend(prefix, name, Suffix);
    }
  }

  /** One `loadOneKind` call: extract the kind, build and submit the job, rethrow its error. */
  function LoadOne(projectId: string, datasetName: string, metadataUrl: string,
                   timestamp: nat, verdict: JobOptions -> Option<string>): (r: Run)
    ensures r.submitted == [] <==> KindOf(metadataUrl).None?
    ensures r.submitted == [] ==> r.error == Some(NoKindName)
    ensures r.submitted != [] ==>
              r.submitted == [JobFor(metadataUrl, projectId, datasetName, KindOf(metadataUrl).value, timestamp)]
    ensures r.submitted != [] ==> r.error == match verdict(r.submitted[0])
                                            case None => None
                                            case Some(m) => Some(Rethrown(m))
  {
    match KindOf(metadataUrl)
    case None => Run([], Some(NoKindName))
    case Some(kind) =>
      var job := JobFor(metadataUrl, projectId, datasetName, kind, timestamp);
      match verdict(job)
      case None => Run([job], None)
      case Some(message) => Run([job], Some(Rethrown(message)))
  }

  function UrlAt(env: Env, files: seq<string>, i: nat): string
    requires i < |files|
  {
    MetadataUrl(env.bucket, files[i])
  }

  /** The load of the i-th discovered file, considered on its own. */
  function StepAt(env: Env, files: seq<string>, i: nat): Run
    requires i < |files|
  {
    LoadOne(env.projectId, env.datasetName, UrlAt(env, files, i), env.now(i), env.verdict)
  }

  /** The job built for the i-th discovered file. */
  function JobAt(env: Env, files: seq<string>, i: nat): JobOptions
    requires i < |files| && KindOf(UrlAt(env, files, i)).Some?
  {
    JobFor(UrlAt(env, files, i), env.projectId, env.datasetName,
           KindOf(UrlAt(env, files, i)).value, env.now(i))
  }

  /** The per-file loads, each considered on its own, in discovery order. */
  function Steps(env: Env, files: seq<string>): (steps: seq<Run>)
    ensures |steps| == |files|
    decreases |files|
  {
    if files == [] then []
    else Steps(env, files[..|files| - 1]) + [StepAt(env, files, |files| - 1)]
  }

  /** Load i of the sequence is the load of file i. */
  lemma {:induction false} StepsAt(env: Env, files: seq<string>, i: nat)
    requires i < |files|
    ensures Steps(env, files)[i] == StepAt(env, files, i)
    decreases |files|
  {
    if i < |files| - 1 {
      StepsAt(env, files[..|files| - 1], i);
      assert files[..|files| - 1][i] == files[i];
    }
  }

  /** Load i of the sequence, spelled as the `loadOneKind` call the loop makes. */
  lemma StepIsLoadOne(env: Env, files: seq<string>, i: nat)
    requires i < |files|
    ensures Steps(env, files)[i]
            == LoadOne(env.projectId, env.datasetName, MetadataUrl(env.bucket, files[i]),
                       env.now(i), env.verdict)
  {
    StepsAt(env, files, i);
  }

  /** What each load contributes: at most one job, and exactly one when it succeeds. */
  predicate WellFormed(steps: seq<Run>) {
    forall j :: 0 <= j < |steps| ==>
      |steps[j].submitted| <= 1 && (steps[j].error.None? ==> |steps[j].submitted| == 1)
  }

  /** The `for … of` loop from the i-th load on, as a reduction that short-circuits: each
      load in turn, the first error ends the run. */
  function Chain(steps: seq<Run>, i: nat): (r: Run)
    ensures r.error.Some? ==> exists j :: i <= j < |steps| && r.error == steps[j].error
    decreases |steps| - i
  {
    if i >= |steps| then Run([], None)
    else if steps[i].error.Some? then steps[i]
    else
      var rest := Chain(steps, i + 1);
      Run(steps[i].submitted + rest.submitted, rest.error)
  }

  /** The jobs of the first i loads. */
  function Submitted(steps: seq<Run>, i: nat): seq<JobOptions>
    requires i <= |steps|
  {
    if i == 0 then [] else Submitted(steps, i - 1) + steps[i - 1].submitted
  }

  /** The loop's invariant: the first i loads succeeded, and the run is their jobs followed
      by the run from load i on. */
  predicate SplitsAt(steps: seq<Run>, i: nat)
    requires i <= |steps|
  {
    Chain(steps, 0) == Run(Submitted(steps, i) + Chain(steps, i).submitted, Chain(steps, i).error)
  }

  /** A successful load i keeps the invariant for i + 1. */
  lemma ChainAdvance(steps: seq<Run>, i: nat)
    requires i < |steps| && SplitsAt(steps, i) && steps[i].error.None?
    ensures SplitsAt(steps, i + 1)
  {
    var rest := Chain(steps, i + 1);
    assert Chain(steps, i) == Run(steps[i].submitted + rest.submitted, rest.error);
    assert Submitted(steps, i) + (steps[i].submitted + rest.submitted)
        == (Submitted(steps, i) + steps[i].submitted) + rest.submitted;
  }

  /** A failing load i ends the run with its own jobs and its own error. */
  lemma ChainStopsAt(steps: seq<Run>, i: nat)
    requires i < |steps| && SplitsAt(steps, i) && steps[i].error.Some?
    ensures Chain(steps, 0) == Run(Submitted(steps, i) + steps[i].submitted, steps[i].error)
  {
  }

  /** Appending load i's jobs to a log that holds the jobs of the loads before it. */
  lemma LogAdvance(log: seq<JobOptions>, before: seq<JobOptions>, steps: seq<Run>, i: nat)
    requires i < |steps| && log == before + Submitted(steps, i)
    ensures log + steps[i].submitted == before + Submitted(steps, i + 1)
  {
  }

  /** The whole run over the discovered files. */
  function LoadAll(env: Env, files: seq<string>): (r: Run)
    ensures |r.submitted| <= |files|
    ensures r.error.None? ==> |r.submitted| == |files|
  {
    StepsSubmitJobAt(env, files);
    ChainFailFast(Steps(env, files), 0);
    Chain(Steps(env, files), 0)
  }

  /** The first load at or after i that fails on its own, or |steps| if none does. */
  function FirstFailure(steps: seq<Run>, i: nat): (k: nat)
    requires i <= |steps|
    ensures i <= k <= |steps|
    ensures forall j :: i <= j < k ==> steps[j].error.None?
    ensures k < |steps| ==> steps[k].error.Some?
    decreases |steps| - i
  {
    if i == |steps| then i
    else if steps[i].error.Some? then i
    else FirstFailure(steps, i + 1)
  }

  /** The reduction against its reference: from i it submits the jobs of loads i .. k in
      order, k the first failing load, and ends with load k's error unchanged. */
  lemma {:induction false} ChainFailFast(steps: seq<Run>, i: nat)
    requires WellFormed(steps) && i <= |steps|
    ensures var r := Chain(steps, i);
            var k := FirstFailure(steps, i);
            && (r.error.None? <==> k == |steps|)
            && (k < |steps| ==> r.error == steps[k].error
                                && |r.submitted| == k - i + |steps[k].submitted|)
            && (k == |steps| ==> |r.submitted| == k - i)
            && (forall j :: i <= j < i + |r.submitted| ==>
                  j < |steps| && |steps[j].submitted| == 1 && r.submitted[j - i] == steps[j].submitted[0])
    decreases |steps| - i
  {
    if i < |steps| && steps[i].error.None? {
      ChainFailFast(steps, i + 1);
    }
  }

  /** The per-file loads are well formed, and a load that submits, submits its file's job. */
  lemma StepsSubmitJobAt(env: Env, files: seq<string>)
    ensures WellFormed(Steps(env, files))
    ensures forall j :: 0 <= j < |files| && Steps(env, files)[j].submitted != [] ==>
              KindOf(UrlAt(env, files, j)).Some?
              && Steps(env, files)[j].submitted == [JobAt(env, files, j)]
  {
    forall j | 0 <= j < |files|
      ensures Steps(env, files)[j] == StepAt(env, files, j)
    {
      StepsAt(env, files, j);
    }
  }

  /** Kinds are submitted strictly in discovery order, one job per kind. */
  lemma LoadAllInOrder(env: Env, files: seq<string>)
    ensures var r := LoadAll(env, files);
            && |r.submitted| <= |files|
            && forall j :: 0 <= j < |r.submitted| ==>
                 KindOf(UrlAt(env, files, j)).Some? && r.submitted[j] == JobAt(env, files, j)
  {
    StepsSubmitJobAt(env, files);
    ChainFailFast(Steps(env, files), 0);
  }

  /** The run succeeds exactly when every kind loads, and then every kind was submitted. */
  lemma LoadAllSucceeds(env: Env, files: seq<string>)
    ensures var r := LoadAll(env, files);
            && (r.error.None? <==> forall j :: 0 <= j < |files| ==> StepAt(env, files, j).error.None?)
            && (r.error.None? ==> |r.submitted| == |files|)
  {
    var steps := Steps(env, files);
    StepsSubmitJobAt(env, files);
    ChainFailFast(steps, 0);
    forall j | 0 <= j < |files|
      ensures Steps(env, files)[j] == StepAt(env, files, j)
    {
      StepsAt(env, files, j);
    }
  }

  /** Fail-fast: when the k-th kind fails, its error is the run's error, unchanged, and no
      job is submitted for any later kind. */
  lemma LoadAllFailFast(env: Env, files: seq<string>, k: nat)
    requires k < |files|
    requires StepAt(env, files, k).error.Some?
    requires forall j :: 0 <= j < k ==> StepAt(env, files, j).error.None?
    ensures var r := LoadAll(env, files);
            && r.error == StepAt(env, files, k).error
            && |r.submitted| == k + |StepAt(env, files, k).submitted|
            && |r.submitted| <= k + 1
  {
    var steps := Steps(env, files);
    forall j | 0 <= j < k
      ensures steps[j].error.None?
    {
      StepsAt(env, files, j);
    }
    StepsAt(env, files, k);
    assert FirstFailure(steps, 0) == k;
    StepsSubmitJobAt(env, files);
    ChainFailFast(steps, 0);
  }

  /** A file whose name yields no kind aborts the run when its turn comes, after the jobs
      of all earlier files were already submitted, and before any job of its own. */
  lemma MalformedNameStopsRun(env: Env, files: seq<string>, k: nat)
    requires k < |files| && KindOf(UrlAt(env, files, k)).None?
    requires forall j :: 0 <= j < k ==> StepAt(env, files, j).error.None?
    ensures var r := LoadAll(env, files);
            && r.error == Some(NoKindName)
            && |r.submitted| == k
  {
    LoadAllFailFast(env, files, k);
  }

  /** Each submitted descriptor follows the load policy, reads exactly its file's URL and
      writes, in the run's project and dataset, the table that the URL itself names. */
  lemma RunJobsAreBackupLoads(env: Env, files: seq<string>)
    ensures var r := LoadAll(env, files);
            && |r.submitted| <= |files|
            && forall j :: 0 <= j < |r.submitted| ==>
                 var job := r.submitted[j];
                 var load := job.configuration.load;
                 && IsDatastoreBackupLoad(job)
                 && load.sourceUris == [MetadataUrl(env.bucket, files[j])]
                 && KindOf(load.sourceUris[0]) == Some(load.destinationTable.tableId)
                 && load.destinationTable.projectId == env.projectId
                 && load.destinationTable.datasetId == env.datasetName
  {
    var r := LoadAll(env, files);
    LoadAllInOrder(env, files);
    forall j | 0 <= j < |r.submitted|
      ensures IsDatastoreBackupLoad(r.submitted[j])
    {
      assert r.submitted[j] == JobAt(env, files, j);
    }
  }

  /** With a clock that reads differently for every file, every job of a run has its own id. */
  lemma RunJobIdsDistinct(env: Env, files: seq<string>)
    requires forall j1, j2 :: 0 <= j1 < j2 < |files| ==> env.now(j1) != env.now(j2)
    ensures var r := LoadAll(env, files);
            forall j1, j2 :: 0 <= j1 < j2 < |r.submitted| ==>
              r.submitted[j1].jobReference.jobId != r.submitted[j2].jobReference.jobId
  {
    var r := LoadAll(env, files);
    LoadAllInOrder(env, files);
    forall j1, j2 | 0 <= j1 < j2 < |r.submitted|
      ensures r.submitted[j1].jobReference.jobId != r.submitted[j2].jobReference.jobId
    {
      var k1 := KindOf(UrlAt(env, files, j1)).value;
      var k2 := KindOf(UrlAt(env, files, j2)).value;
      if JobId(k1, env.datasetName, env.now(j1)) == JobId(k2, env.datasetName, env.now(j2)) {
        JobIdInjective(k1, k2, env.datasetName, env.now(j1), env.now(j2));
      }
    }
  }

  /** `loadOneKind(bigquery, datasetName, metadataUrl)`, with `timestamp` the clock reading
      `new Date().getTime()` takes. Returns the error it throws, if any. */
  method LoadOneKind(bq: BigQuery, datasetName: string, metadataUrl: string, timestamp: nat)
    returns (error: Option<Error>)
    modifies bq`jobs
    ensures var step := LoadOne(bq.projectId, datasetName, metadataUrl, timestamp, bq.verdict);
            bq.jobs == old(bq.jobs) + step.submitted && error == step.error
  {
    var kind := KindOf(metadataUrl);
    if kind.None? {
      return Some(NoKindName);
    }
    var jobOptions := JobFor(metadataUrl, bq.projectId, datasetName, kind.value, timestamp);
    var failure := bq.CreateJob(jobOptions);
    if failure.Some? {
      return Some(Rethrown(failure.value));
    }
    return None;
  }

  /** `loadAllKindsFromPrefix`, given the names the bucket listing under the prefix
      returned and the clock reading for each load. On success it returns the discovered
      names; otherwise the first error, after submitting the jobs `LoadAll` describes. */
  method LoadAllKindsFromPrefix(bq: BigQuery, datasetName: string, backupBucketName: string,
                                listing: seq<string>, now: nat -> nat)
    returns (result: Result<seq<string>, Error>)
    modifies bq`jobs
    ensures var env := Env(bq.projectId, datasetName, backupBucketName, now, bq.verdict);
            var run := LoadAll(env, KindFiles(listing));
            && bq.jobs == old(bq.jobs) + run.submitted
            && result == (if run.error.None? then Success(KindFiles(listing))
                          else Failure(run.error.value))
  {
    var kindFiles := KindFiles(listing);
    ghost var env := Env(bq.projectId, datasetName, backupBucketName, now, bq.verdict);
    ghost var steps := Steps(env, kindFiles);
    for i := 0 to |kindFiles|
      invariant SplitsAt(steps, i)
      invariant bq.jobs == old(bq.jobs) + Submitted(steps, i)
    {
      var metadataUrl := MetadataUrl(backupBucketName, kindFiles[i]);
      StepIsLoadOne(env, kindFiles, i);
      LogAdvance(bq.jobs, old(bq.jobs), steps, i);
      var error := LoadOneKind(bq, datasetName, metadataUrl, now(i));
      if error.Some? {
        ChainStopsAt(steps, i);
        return Failure(error.value);
      }
      ChainAdvance(steps, i);
    }
    return Success(kindFiles);
  }
}
