/** The values exchanged with the fitness provider, and the rule that picks, from one batch
    of discovered data sources, the one the activity subscribes to. */
module Sensors {
  import opened Wrappers

  /** A data type is matched by its name only: comparing the provider's data-type objects
      directly did not find the location type, so the activity compares names. Attributes
      other than the name are not modelled. */
  datatype DataType = DataType(name: string)

  /** A provider-side stream: the type it emits and the identifier of the stream. */
  datatype DataSource = DataSource(dataType: DataType, streamId: string)

  /** The discovery query: which data types, and which kinds of source (raw or derived). */
  datatype DataSourcesRequest = DataSourcesRequest(dataTypes: seq<DataType>, dataSourceTypes: seq<int>)

  /** A subscription request: the source, the data type and the sampling period in seconds. */
  datatype SensorRequest = SensorRequest(dataSource: DataSource, dataType: DataType, samplingSeconds: nat)

  /** `DataType.TypeLocationSample`. */
  const TypeLocationSample: DataType := DataType("com.google.location.sample")

  /** `DataSource.TypeRaw`. */
  const TypeRaw: int := 0

  /** `SetSamplingRate(10, TimeUnit.Seconds)`. */
  const SamplingSeconds: nat := 10

  /** The query every discovery issues: raw sources of location samples. */
  const LocationSourcesRequest: DataSourcesRequest := DataSourcesRequest([TypeLocationSample], [TypeRaw])

  /** The name-equality test of the discovery loop. */
  predicate IsLocationSample(ds: DataSource)
  {
    ds.dataType.name == TypeLocationSample.name
  }

  /** The request `RegisterFitnessDataListener` builds for a chosen source. */
  function SensorRequestFor(ds: DataSource): SensorRequest
  {
    SensorRequest(ds, TypeLocationSample, SamplingSeconds)
  }

  /** The index, in provider order, of the first location-sample source of a batch. */
  function SelectSource(sources: seq<DataSource>): (r: Option<nat>)
    ensures r.Some? ==> r.value < |sources| && IsLocationSample(sources[r.value])
    ensures r.Some? ==> forall j :: 0 <= j < r.value ==> !IsLocationSample(sources[j])
    ensures r.None? ==> forall j :: 0 <= j < |sources| ==> !IsLocationSample(sources[j])
    decreases |sources|
  {
    if sources == [] then None
    else if IsLocationSample(sources[0]) then Some(0)
    else match SelectSource(sources[1..])
      case None => None
      case Some(i) => Some(i + 1)
  }

  /** The choice depends on the batch alone: any index that matches and has no match before
      it is the one `SelectSource` returns. */
  lemma SelectSourceIsFirst(sources: seq<DataSource>, k: nat)
    requires k < |sources| && IsLocationSample(sources[k])
    requires forall j :: 0 <= j < k ==> !IsLocationSample(sources[j])
    ensures SelectSource(sources) == Some(k)
  {
  }
}
