/** The BigQuery client as the core sees it: a dataset store probed through `getTables`
    and extended through `createDataset`, and a job submitter (`createJob` followed by
    `job.promise()`). What the service itself decides is held in three oracles fixed for
    the run: the fault, if any, that a probe of a dataset runs into (a permission error,
    say), the fault, if any, that refuses the creation of a dataset, and the verdict on
    each submitted job (None for success, else the message of the error thrown by
    submission or by the job). */
module Warehouse {
  import opened Wrappers
  import opened LoadJob

  /** A dataset handle: its id and, when the client knows it, its location. */
  datatype Dataset = Dataset(id: string, location: Option<string>)

  const NotFoundPrefix := "Not found: Dataset "

  function NotFoundMessage(projectId: string, name: string): string {
    NotFoundPrefix + projectId + ":" + name
  }

  function AlreadyExistsMessage(projectId: string, name: string): string {
    "Already Exists: Dataset " + projectId + ":" + name
  }

  /** `bigquery.dataset(name)`: a local handle, built without contacting the service and
      without a location. */
  function LocalHandle(name: string): Dataset {
    Dataset(name, None)
  }

  /** What `dataset.getTables()` throws, if anything. */
  function Probe(projectId: string, fault: string -> Option<string>,
                 datasets: map<string, string>, name: string): Option<string>
  {
    if fault(name).Some? then fault(name)
    else if name in datasets then None
    else Some(NotFoundMessage(projectId, name))
  }

  datatype Created = Created(result: Result<Dataset, string>, datasets: map<string, string>)

  /** What `createDataset(name, {location})` returns and leaves behind: the fault the
      service refuses the creation with, if any (a permission error, an invalid location),
      else "Already Exists" for a present dataset, else the new dataset. */
  function Create(projectId: string, createFault: string -> Option<string>,
                  datasets: map<string, string>, name: string, location: string): Created
  {
    if createFault(name).Some? then Created(Failure(createFault(name).value), datasets)
    else if name in datasets then Created(Failure(AlreadyExistsMessage(projectId, name)), datasets)
    else Created(Success(Dataset(name, Some(location))), datasets[name := location])
  }

  class BigQuery {
    const projectId: string
    const probeFault: string -> Option<string>
    const createFault: string -> Option<string>
    const verdict: JobOptions -> Option<string>
    /** Datasets of the project, by name, with their locations. */
    var datasets: map<string, string>
    /** Every `createDataset` call made, as (name, location). */
    var creations: seq<(string, string)>
    /** Every job submitted with `createJob`, in submission order. */
    var jobs: seq<JobOptions>

    constructor (projectId: string, probeFault: string -> Option<string>,
                 createFault: string -> Option<string>, verdict: JobOptions -> Option<string>, datasets: map<string, string>)
      ensures this.projectId == projectId && this.probeFault == probeFault
      ensures this.createFault == createFault
      ensures this.verdict == verdict && this.datasets == datasets
      ensures creations == [] && jobs == []
    {
      this.projectId := projectId;
      this.probeFault := probeFault;
      this.createFault := createFault;
      this.verdict := verdict;
      this.datasets := datasets;
      creations := [];
      jobs := [];
    }

    method GetTables(name: string) returns (failure: Option<string>)
      ensures failure == Probe(projectId, probeFault, datasets, name)
    {
      failure := Probe(projectId, probeFault, datasets, name);
    }

    method CreateDataset(name: string, location: string) returns (r: Result<Dataset, string>)
      modifies this`datasets, this`creations
      ensures creations == old(creations) + [(name, location)]
      ensures Created(r, datasets) == Create(projectId, createFault, old(datasets), name, location)
    {
      var c := Create(projectId, createFault, datasets, name, location);
      r, datasets := c.result, c.datasets;
      creations := creations + [(name, location)];
    }

    method CreateJob(job: JobOptions) returns (failure: Option<string>)
      modifies this`jobs
      ensures jobs == old(jobs) + [job]
      ensures failure == verdict(job)
    {
      jobs := jobs + [job];
      failure := verdict(job);
    }
  }
}
