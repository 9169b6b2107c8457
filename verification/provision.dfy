/** `ensureDataset` (src/lib/load-into-to-bigquery.ts, lines 115-139): probe the dataset,
    create it when the probe says it is not found, rethrow every other probe error. */
module Provision {
  import opened Wrappers
  import opened Text
  import opened Warehouse

  const DefaultLocation := "US"

  /** The outcome of one `ensureDataset` call: what it returns or throws, the dataset
      store afterwards, and the `createDataset` calls it made. */
  datatype Provisioned = Provisioned(
    result: Result<Dataset, string>,
    datasets: map<string, string>,
    creations: seq<(string, string)>)

  predicate IsNotFound(message: string) {
    StartsWith(message, NotFoundPrefix)
  }

  /** The reference for `EnsureDataset`. The handle returned on success is always the
      local handle of the probe: the handle `createDataset` yields is bound to a second,
      inner variable and dropped. */
  function Ensure(projectId: string,
                  fault: string -> Option<string>, createFault: string -> Option<string>,
                  datasets: map<string, string>, name: string, location: string): (p: Provisioned)
    ensures p.result.Success? ==> p.result.value == LocalHandle(name) && name in p.datasets
    ensures p.creations == [] ==> p.datasets == datasets
    ensures p.creations != [] ==> p.creations == [(name, location)]
    ensures p.creations != [] && p.result.Success? ==> p.datasets == datasets[name := location]
    ensures p.result.Failure? ==> p.datasets == datasets
  {
    match Probe(projectId, fault, datasets, name)
    case None => Provisioned(Success(LocalHandle(name)), datasets, [])
    case Some(message) =>
      if !IsNotFound(message) then Provisioned(Failure(message), datasets, [])
      else
        var c := Create(projectId, createFault, datasets, name, location);
        var result := if c.result.Success? then Success(LocalHandle(name)) else Failure(c.result.error);
        Provisioned(result, c.datasets, [(name, location)])
  }

  /** The probe succeeds: nothing is created and the existing dataset, with its own
      location, is kept whatever location was asked for. */
  lemma EnsureExisting(projectId: string, fault: string -> Option<string>,
                       createFault: string -> Option<string>,
                       datasets: map<string, string>, name: string, location: string)
    requires Probe(projectId, fault, datasets, name).None?
    ensures Ensure(projectId, fault, createFault, datasets, name, location)
            == Provisioned(Success(LocalHandle(name)), datasets, [])
  {
  }

  /** The probe throws a not-found error: `createDataset` is called exactly once, with the
      requested location. When the service refuses the creation, its error is thrown and
      the store is unchanged. A dataset that is present after all (created by someone else
      since the probe) makes the creation fail with "Already Exists", which is thrown,
      the store unchanged. Otherwise the dataset then exists in that location. */
  lemma EnsureMissing(projectId: string, fault: string -> Option<string>,
                      createFault: string -> Option<string>,
                      datasets: map<string, string>, name: string, location: string)
    requires Probe(projectId, fault, datasets, name).Some?
    requires IsNotFound(Probe(projectId, fault, datasets, name).value)
    ensures var p := Ensure(projectId, fault, createFault, datasets, name, location);
            && p.creations == [(name, location)]
            && (createFault(name).Some? ==> p.result == Failure(createFault(name).value)
                                            && p.datasets == datasets)
            && (createFault(name).None? && name !in datasets ==>
                  p.result == Success(LocalHandle(name)) && p.datasets == datasets[name := location])
            && (createFault(name).None? && name in datasets ==>
                  p.result == Failure(AlreadyExistsMessage(projectId, name)) && p.datasets == datasets)
  {
  }

  /** Any other probe error is thrown unchanged and nothing is created. */
  lemma EnsureRethrows(projectId: string, fault: string -> Option<string>,
                       createFault: string -> Option<string>,
                       datasets: map<string, string>, name: string, location: string)
    requires Probe(projectId, fault, datasets, name).Some?
    requires !IsNotFound(Probe(projectId, fault, datasets, name).value)
    ensures Ensure(projectId, fault, createFault, datasets, name, location)
            == Provisioned(Failure(Probe(projectId, fault, datasets, name).value), datasets, [])
  {
  }

  /** With no fault in the way of the probe or the creation, a missing dataset is created
      in the requested location. */
  lemma EnsureCreatesAbsent(projectId: string, fault: string -> Option<string>,
                            createFault: string -> Option<string>,
                            datasets: map<string, string>, name: string, location: string)
    requires fault(name).None? && createFault(name).None? && name !in datasets
    ensures var p := Ensure(projectId, fault, createFault, datasets, name, location);
            && p.result == Success(LocalHandle(name))
            && p.datasets == datasets[name := location]
            && p.datasets[name] == location
            && p.creations == [(name, location)]
  {
    assert IsNotFound(NotFoundMessage(projectId, name)) by {
      assert NotFoundMessage(projectId, name)[..|NotFoundPrefix|] == NotFoundPrefix;
    }
  }

  /** A second call after a successful one, for the same name, takes the "exists" branch:
      no create, the same store and the same handle. */
  lemma EnsureIdempotent(projectId: string, fault: string -> Option<string>,
                         createFault: string -> Option<string>,
                         datasets: map<string, string>, name: string,
                         location1: string, location2: string)
    requires fault(name).None?
    requires Ensure(projectId, fault, createFault, datasets, name, location1).result.Success?
    ensures var p1 := Ensure(projectId, fault, createFault, datasets, name, location1);
            Ensure(projectId, fault, createFault, p1.datasets, name, location2)
              == Provisioned(p1.result, p1.datasets, [])
  {
  }

  /** `ensureDataset(bigquery, datasetName, spinner, newDatasetLocation = 'US')`. */
  method EnsureDataset(bq: BigQuery, datasetName: string,
                       newDatasetLocation: string := DefaultLocation)
    returns (result: Result<Dataset, string>)
    modifies bq`datasets, bq`creations
    ensures var p := Ensure(bq.projectId, bq.probeFault, bq.createFault, old(bq.datasets),
                            datasetName, newDatasetLocation);
            && result == p.result
            && bq.datasets == p.datasets
            && bq.creations == old(bq.creations) + p.creations
  {
    var dataset := LocalHandle(datasetName);
    var failure := bq.GetTables(datasetName);
    if failure.Some? {
      if !IsNotFound(failure.value) {
        return Failure(failure.value);
      }
      // The created handle goes to a binding of its own; `dataset` keeps the probe handle.
      var created := bq.CreateDataset(datasetName, newDatasetLocation);
      if created.Failure? {
        return Failure(created.error);
      }
    }
    return Success(dataset);
  }
}
