/** What the activity does to the world outside it, one token per call it makes: log lines,
    notices shown to the user, permission and consent prompts, and provider calls. A handler's
    behaviour is the sequence of tokens it produces. */
module Effects {
  import opened Sensors

  datatype Effect =
    | LogInfo(message: string)
    | LogError(message: string)
      /** An indefinite notice whose OK action asks for the location permission with this code. */
    | ShowRationaleNotice(requestCode: int)
      /** `ActivityCompat.RequestPermissions` for `AccessFineLocation`. */
    | RequestFineLocation(requestCode: int)
      /** An indefinite notice whose action opens the application's settings page. */
    | ShowDeniedNotice
      /** `GoogleSignIn.RequestPermissions` for the fitness options. */
    | RequestConsent(requestCode: int)
      /** `FindDataSources` on the sensors client; the batch arrives later. */
    | QueryDataSources(query: DataSourcesRequest)
      /** `AddAsync` of a freshly created data-point listener. */
    | AddSensorListener(request: SensorRequest)
      /** `RemoveAsync` of the held listener, with the status the provider answered. */
    | RemoveSensorListener(removed: bool)

  /** The one action the dispatcher knows: discovering location-sample sources. */
  const StartFindDataSources: Effect := QueryDataSources(LocationSourcesRequest)

  /** How many times a trace starts the discovery action. */
  function Runs(r: seq<Effect>): nat
  {
    multiset(r)[StartFindDataSources]
  }

  predicate ShowsRationale(r: seq<Effect>)
  {
    exists e :: e in r && e.ShowRationaleNotice?
  }

  predicate IssuesOsRequest(r: seq<Effect>)
  {
    exists e :: e in r && e.RequestFineLocation?
  }

  predicate RequestsConsent(r: seq<Effect>)
  {
    exists e :: e in r && e.RequestConsent?
  }

  /** Every prompt in the trace carries `code`: the code survives the round trip. */
  predicate CodesAre(r: seq<Effect>, code: int)
  {
    forall e :: e in r && (e.ShowRationaleNotice? || e.RequestFineLocation? || e.RequestConsent?) ==>
      e.requestCode == code
  }

  /** The trace leaves the listener registration alone. */
  predicate Neutral(r: seq<Effect>)
  {
    forall e :: e in r ==> !e.AddSensorListener? && !e.RemoveSensorListener?
  }
}
