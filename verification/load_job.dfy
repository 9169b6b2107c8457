/** The load-job descriptor `jobOptions` that `loadOneKind` hands to the warehouse
    (src/lib/load-into-to-bigquery.ts, lines 73-100), and its job id. */
module LoadJob {
  import opened Text

  datatype TableReference = TableReference(projectId: string, datasetId: string, tableId: string)

  datatype LoadConfiguration = LoadConfiguration(
    sourceUris: seq<string>,
    destinationTable: TableReference,
    autodetect: bool,
    ignoreUnknownValues: bool,
    maxBadRecords: int,
    sourceFormat: string,
    writeDisposition: string)

  datatype JobConfiguration = JobConfiguration(jobType: string, load: LoadConfiguration)

  datatype JobReference = JobReference(projectId: string, jobId: string)

  datatype JobOptions = JobOptions(configuration: JobConfiguration, jobReference: JobReference)

  /** `import-${kind}-${datasetName}-${timestamp}`, the timestamp in milliseconds. */
  function JobId(kind: string, datasetName: string, timestamp: nat): string {
    "import-" + kind + "-" + datasetName + "-" + DecimalText(timestamp)
  }

  /** The descriptor for loading one kind's export into table `kind` of the dataset: it
      follows the load policy, reads exactly the metadata URL, writes table `kind` of
      `projectId:datasetName`, and runs under the id the kind and the clock make. */
  function JobFor(metadataUrl: string, projectId: string, datasetName: string,
                  kind: string, timestamp: nat): (job: JobOptions)
    ensures IsDatastoreBackupLoad(job)
    ensures job.configuration.load.sourceUris == [metadataUrl]
    ensures job.configuration.load.destinationTable == TableReference(projectId, datasetName, kind)
    ensures job.jobReference == JobReference(projectId, JobId(kind, datasetName, timestamp))
  {
    JobOptions(
      JobConfiguration(
        "LOAD",
        LoadConfiguration(
          [metadataUrl],
          TableReference(projectId, datasetName, kind),
          true, false, 0, "DATASTORE_BACKUP", "WRITE_TRUNCATE")),
      JobReference(projectId, JobId(kind, datasetName, timestamp)))
  }

  /** The load policy a Datastore export demands: a single source URI, the backup format,
      truncation of the destination table, schema autodetection, no unknown values and no
      bad records tolerated, and the job running in the destination's project. */
  predicate IsDatastoreBackupLoad(job: JobOptions) {
    var load := job.configuration.load;
    && job.configuration.jobType == "LOAD"
    && |load.sourceUris| == 1
    && load.sourceFormat == "DATASTORE_BACKUP"
    && load.writeDisposition == "WRITE_TRUNCATE"
    && load.autodetect
    && !load.ignoreUnknownValues
    && load.maxBadRecords == 0
    && job.jobReference.projectId == load.destinationTable.projectId
  }

  /** Where the shorter digit tail begins, the other string still has a digit, not a dash. */
  lemma ShorterTailDiffers(a1: string, t1: string, a2: string, t2: string)
    requires |a1| > 0 && a1[|a1| - 1] == '-' && AllDigits(t2)
    ensures |t1| < |t2| ==> a1 + t1 != a2 + t2
  {
    if |t1| < |t2| && |a1| + |t1| == |a2| + |t2| {
      var i := |a1| - 1;
      assert (a1 + t1)[i] == '-';
      assert (a2 + t2)[i] == t2[i - |a2|];
    }
  }

  /** A string that ends in a dash followed by digits splits there in one way only. */
  lemma SplitAtLastDash(a1: string, t1: string, a2: string, t2: string)
    requires a1 + t1 == a2 + t2
    requires |a1| > 0 && a1[|a1| - 1] == '-' && AllDigits(t1)
    requires |a2| > 0 && a2[|a2| - 1] == '-' && AllDigits(t2)
    ensures a1 == a2 && t1 == t2
  {
    var s := a1 + t1;
    ShorterTailDiffers(a1, t1, a2, t2);
    ShorterTailDiffers(a2, t2, a1, t1);
    assert a1 == s[..|a1|] == a2;
    assert t1 == s[|a1|..] == t2;
  }

  /** A job id is its kind part followed by the decimal timestamp, and the kind part ends
      in a dash. */
  lemma JobIdSplits(kind: string, datasetName: string, timestamp: nat)
    ensures var head := "import-" + kind + ("-" + datasetName + "-");
            && JobId(kind, datasetName, timestamp) == head + DecimalText(timestamp)
            && |head| > 0 && head[|head| - 1] == '-'
  {
    var tail := "-" + datasetName + "-";
    var head := "import-" + kind + tail;
    assert head[|head| - 1] == tail[|tail| - 1];
  }

  /** The kind parts of two ids are equal only for equal kinds. */
  lemma KindPartCancels(kind1: string, kind2: string, tail: string)
    requires "import-" + kind1 + tail == "import-" + kind2 + tail
    ensures kind1 == kind2
  {
    var h1 := "import-" + kind1 + tail;
    var h2 := "import-" + kind2 + tail;
    assert kind1 == h1[7..|h1| - |tail|];
    assert kind2 == h2[7..|h2| - |tail|];
  }

  /** Within one dataset a job id determines both the kind and the timestamp: loads of
      the same kind at distinct timestamps, or of distinct kinds, never share an id. */
  lemma JobIdInjective(kind1: string, kind2: string, datasetName: string, t1: nat, t2: nat)
    requires JobId(kind1, datasetName, t1) == JobId(kind2, datasetName, t2)
    ensures kind1 == kind2 && t1 == t2
  {
    var tail := "-" + datasetName + "-";
    JobIdSplits(kind1, datasetName, t1);
    JobIdSplits(kind2, datasetName, t2);
    SplitAtLastDash("import-" + kind1 + tail, DecimalText(t1), "import-" + kind2 + tail, DecimalText(t2));
    KindPartCancels(kind1, kind2, tail);
    if t1 != t2 {
      DecimalTextInjective(t1, t2);
    }
  }

  /** The timestamp is recoverable from the job id: its decimal text is the id's tail. */
  lemma JobIdEndsWithTimestamp(kind: string, datasetName: string, timestamp: nat)
    ensures var id := JobId(kind, datasetName, timestamp);
            var prefix := "import-" + kind + "-" + datasetName + "-";
            && StartsWith(id, prefix)
            && AllDigits(id[|prefix|..])
            && ParseDecimal(id[|prefix|..]) == timestamp
  {
    var prefix := "import-" + kind + "-" + datasetName + "-";
    var id := JobId(kind, datasetName, timestamp);
    assert id == prefix + DecimalText(timestamp);
    assert id[..|prefix|] == prefix;
    assert id[|prefix|..] == DecimalText(timestamp);
    ParseDecimalText(timestamp);
  }
}
