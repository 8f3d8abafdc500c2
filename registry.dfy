/** The single data-point listener, seen from the provider's side. Whether a listener is
    registered is a function of the calls made so far (`RegisteredAfter`), and the activity
    promises never to add a second listener while one is registered (`SingleListener`). The
    effects of the discovery loop and of unregistration are given here as functions of their
    inputs, with what each does to those two facts. */
module Registry {
  import opened Wrappers
  import opened Sensors
  import opened Effects

  const RegisteringMessage: string := "Data source for LOCATION_SAMPLE found!  Registering."
  const RegisteredMessage: string := "Listener registered."
  const RemovedMessage: string := "Listener was removed!"
  const NotRemovedMessage: string := "Listener was not removed."

  /** Whether a listener is registered after one more call to the provider. */
  function StepRegistered(held: bool, e: Effect): bool
  {
    match e
    case AddSensorListener(_) => true
    case RemoveSensorListener(removed) => held && !removed
    case _ => held
  }

  function RegisteredAfter(held: bool, trace: seq<Effect>): bool
    decreases |trace|
  {
    if trace == [] then held else RegisteredAfter(StepRegistered(held, trace[0]), trace[1..])
  }

  /** No listener is added while another one is registered. */
  predicate SingleListener(held: bool, trace: seq<Effect>)
    decreases |trace|
  {
    trace == [] ||
    ((trace[0].AddSensorListener? ==> !held) && SingleListener(StepRegistered(held, trace[0]), trace[1..]))
  }

  /** Both facts can be computed in two halves. */
  lemma {:induction false} RegistryAppend(held: bool, a: seq<Effect>, b: seq<Effect>)
    ensures RegisteredAfter(held, a + b) == RegisteredAfter(RegisteredAfter(held, a), b)
    ensures SingleListener(held, a + b) <==> SingleListener(held, a) && SingleListener(RegisteredAfter(held, a), b)
    decreases |a|
  {
    if a == [] {
      assert a + b == b;
    } else {
      assert (a + b)[0] == a[0] && (a + b)[1..] == a[1..] + b;
      RegistryAppend(StepRegistered(held, a[0]), a[1..], b);
    }
  }

  /** Calls that neither add nor remove a listener change neither fact. */
  lemma {:induction false} NeutralKeepsRegistry(held: bool, trace: seq<Effect>)
    requires Neutral(trace)
    ensures RegisteredAfter(held, trace) == held
    ensures SingleListener(held, trace)
    decreases |trace|
  {
    if trace != [] {
      assert trace[0] in trace;
      assert Neutral(trace[1..]) by {
        forall e | e in trace[1..] ensures e in trace { }
      }
      NeutralKeepsRegistry(held, trace[1..]);
    }
  }

  /** `RegisterFitnessDataListener` together with the log line the loop writes before it. */
  function RegistrationEffects(ds: DataSource): (r: seq<Effect>)
    ensures RegisteredAfter(false, r) && SingleListener(false, r)
  {
    var r := [LogInfo(RegisteringMessage), AddSensorListener(SensorRequestFor(ds)), LogInfo(RegisteredMessage)];
    assert r[1..][1..] == [LogInfo(RegisteredMessage)] && r[1..][1..][1..] == [];
    assert RegisteredAfter(true, r[1..][1..]) && SingleListener(true, r[1..][1..]);
    assert RegisteredAfter(false, r[1..]) && SingleListener(false, r[1..]);
    r
  }

  /** What one discovery batch does, given whether a listener was already held: nothing when
      one was; otherwise it subscribes to the first location-sample source, if there is one. */
  function DiscoveryEffects(sources: seq<DataSource>, held: bool): (r: seq<Effect>)
    ensures held ==> r == []
    ensures RegisteredAfter(held, r) == (held || SelectSource(sources).Some?)
    ensures SingleListener(held, r)
    ensures Runs(r) == 0 && !IssuesOsRequest(r) && !RequestsConsent(r)
  {
    if held then []
    else match SelectSource(sources)
      case None => []
      case Some(i) => RegistrationEffects(sources[i])
  }

  /** The listener a batch adds is for the first location-sample source, and it adds one only
      when none was held. */
  lemma DiscoveryAddsFirstMatch(sources: seq<DataSource>, held: bool, req: SensorRequest)
    ensures AddSensorListener(req) in DiscoveryEffects(sources, held) <==>
      !held && SelectSource(sources).Some? && req == SensorRequestFor(sources[SelectSource(sources).value])
  {
  }

  /** What a walk over the batch that remembers the first match it took (`chosen`) must
      have produced: the effects of `DiscoveryEffects`. */
  lemma DiscoveryEffectsOf(sources: seq<DataSource>, held: bool, chosen: Option<nat>)
    requires held ==> chosen.None?
    requires chosen.Some? ==> chosen.value < |sources| && IsLocationSample(sources[chosen.value])
    requires chosen.Some? ==> forall j :: 0 <= j < chosen.value ==> !IsLocationSample(sources[j])
    requires !held && chosen.None? ==> forall j :: 0 <= j < |sources| ==> !IsLocationSample(sources[j])
    ensures chosen == (if held then None else SelectSource(sources))
    ensures DiscoveryEffects(sources, held) == if chosen.Some? then RegistrationEffects(sources[chosen.value]) else []
  {
    if chosen.Some? {
      SelectSourceIsFirst(sources, chosen.value);
    }
  }

  /** First match wins: in a batch where source `k` is the first location sample and a later
      source `j` also is one, exactly one listener is added, for source `k`, and none for
      source `j` unless it equals source `k`. */
  lemma FirstMatchWins(sources: seq<DataSource>, k: nat, j: nat)
    requires k < j < |sources|
    requires IsLocationSample(sources[k]) && IsLocationSample(sources[j])
    requires forall m :: 0 <= m < k ==> !IsLocationSample(sources[m])
    ensures AddSensorListener(SensorRequestFor(sources[k])) in DiscoveryEffects(sources, false)
    ensures sources[j] != sources[k] ==> AddSensorListener(SensorRequestFor(sources[j])) !in DiscoveryEffects(sources, false)
    ensures multiset(DiscoveryEffects(sources, false))[AddSensorListener(SensorRequestFor(sources[k]))] == 1
  {
  }

  /** `UnregisterFitnessDataListener`: with no listener it makes no provider call; otherwise
      it asks the provider to remove it and keeps it when the provider says it was not. */
  function UnregisterEffects(held: bool, removed: bool): (r: seq<Effect>)
    ensures !held ==> r == []
    ensures held ==> RemoveSensorListener(removed) in r
    ensures RegisteredAfter(held, r) == (held && !removed)
    ensures SingleListener(held, r)
    ensures Runs(r) == 0 && !IssuesOsRequest(r) && !RequestsConsent(r)
  {
    if !held then []
    else
      var r := [RemoveSensorListener(removed), LogInfo(if removed then RemovedMessage else NotRemovedMessage)];
      assert r[1..][1..] == [];
      assert RegisteredAfter(held && !removed, r[1..]) == (held && !removed);
      r
  }
}
