/** The activity itself: the one field it updates in place, the data-point listener it holds,
    and the record of what it has done to the outside world. Its methods are the C# handlers,
    each a step of the state machine; each says what it appends to the record by the function
    of `Dispatch` or `Registry` that specifies it, and keeps the invariant that the listener
    field mirrors the provider-side registration. */
module Activity {
  import opened Wrappers
  import opened Android
  import opened Sensors
  import opened Effects
  import opened Registry
  import opened Dispatch

  /** The listener object handed to the provider. Its per-field logging of incoming data
      points is presentation and is not modelled. */
  class OnDataPointListener {
    constructor ()
    {
    }
  }

  class MainActivity {
    /** Everything the activity has asked of the outside world, in order. */
    var effects: seq<Effect>
    /** `_dataPointListener`: the listener currently registered, if any. */
    var dataPointListener: OnDataPointListener?
    /** The request code captured by the OK action of the rationale notice on screen, if that
        notice is showing. Only one notice shows at a time: a new one replaces it, and pressing
        OK dismisses it. */
    var rationaleCode: Option<int>

    /** A listener is held exactly when the provider was last told to add one and has not
        since confirmed its removal, and a second one was never added over the first. A
        rationale notice waiting for OK is one that was shown, with the code it was shown for. */
    ghost predicate Valid()
      reads this
    {
      (dataPointListener != null) == RegisteredAfter(false, effects) &&
      SingleListener(false, effects) &&
      (rationaleCode.Some? ==> ShowRationaleNotice(rationaleCode.value) in effects)
    }

    constructor ()
      ensures Valid()
      ensures effects == [] && dataPointListener == null && rationaleCode == None
    {
      effects := [];
      dataPointListener := null;
      rationaleCode := None;
    }

    /** One call to the outside world that leaves the listener registration alone. */
    method Emit(e: Effect)
      requires Valid()
      requires !e.AddSensorListener? && !e.RemoveSensorListener?
      modifies this`effects
      ensures Valid()
      ensures effects == old(effects) + [e]
    {
      RegistryAppend(false, effects, [e]);
      NeutralKeepsRegistry(RegisteredAfter(false, effects), [e]);
      effects := effects + [e];
      assert forall x :: x in old(effects) ==> x in effects;
    }

    /** `OnCreate`: the activity starts by asking for the discovery action. */
    method OnCreate(dev: Device)
      requires Valid()
      modifies this`effects, this`rationaleCode
      ensures Valid()
      ensures effects == old(effects) + CheckPermissionsAndRunEffects(dev, FindDataSourcesCode)
      ensures rationaleCode == if !Approved(dev) && dev.showRationale then Some(FindDataSourcesCode) else old(rationaleCode)
    {
      CheckPermissionsAndRun(dev, FindDataSourcesCode);
    }

    method CheckPermissionsAndRun(dev: Device, code: int)
      requires Valid()
      modifies this`effects, this`rationaleCode
      ensures Valid()
      ensures effects == old(effects) + CheckPermissionsAndRunEffects(dev, code)
      ensures rationaleCode == if !Approved(dev) && dev.showRationale then Some(code) else old(rationaleCode)
    {
      if PermissionApproved(dev.sdkInt, dev.fineLocation) {
        FitSignIn(dev, code);
      } else {
        RequestRuntimePermissions(dev, code);
      }
    }

    /** With a rationale warranted, the notice is shown and its OK action keeps `code` for the
        deferred request; otherwise the request is made at once and any notice stays. */
    method RequestRuntimePermissions(dev: Device, code: int)
      requires Valid()
      modifies this`effects, this`rationaleCode
      ensures Valid()
      ensures effects == old(effects) + RequestRuntimePermissionsEffects(dev, code)
      ensures rationaleCode == if dev.showRationale then Some(code) else old(rationaleCode)
    {
      if dev.showRationale {
        Emit(LogInfo(RationaleMessage));
        Emit(ShowRationaleNotice(code));
        rationaleCode := Some(code);
      } else {
        Emit(LogInfo(RequestingMessage));
        Emit(RequestFineLocation(code));
      }
    }

    /** The user pressed OK on the rationale notice on screen: the notice is dismissed and its
        closure asks for the permission with the code it captured when it was shown. */
    method OnRationaleConfirmed()
      requires Valid() && rationaleCode.Some?
      modifies this`effects, this`rationaleCode
      ensures Valid()
      ensures rationaleCode == None
      ensures ShowRationaleNotice(old(rationaleCode).value) in old(effects)
      ensures effects == old(effects) + RationaleConfirmedEffects(old(rationaleCode).value)
    {
      var code := rationaleCode.value;
      rationaleCode := None;
      Emit(RequestFineLocation(code));
    }

    /** The denial notice replaces any rationale notice still on screen. */
    method OnRequestPermissionsResult(dev: Device, code: int, grantResults: seq<int>)
      requires Valid()
      modifies this`effects, this`rationaleCode
      ensures Valid()
      ensures effects == old(effects) + OnRequestPermissionsResultEffects(dev, code, grantResults)
      ensures rationaleCode ==
        if ShowDeniedNotice in OnRequestPermissionsResultEffects(dev, code, grantResults) then None
        else old(rationaleCode)
    {
      if code == FindDataSourcesCode {
        if |grantResults| <= 0 {
          Emit(LogInfo(CancelledMessage));
        } else if grantResults[0] == PermissionGranted {
          FitSignIn(dev, FindDataSourcesCode);
        } else {
          Emit(ShowDeniedNotice);
          rationaleCode := None;
        }
      }
    }

    method FitSignIn(dev: Device, code: int)
      requires Valid()
      modifies this`effects
      ensures Valid()
      ensures effects == old(effects) + FitSignInEffects(dev, code)
    {
      if dev.oauthApproved {
        PerformActionForRequestCode(code);
      } else {
        Emit(RequestConsent(code));
      }
    }

    method OnActivityResult(requestCode: int, resultCode: int)
      requires Valid()
      modifies this`effects
      ensures Valid()
      ensures effects == old(effects) + OnActivityResultEffects(requestCode, resultCode)
    {
      if resultCode == ResultOk {
        PerformActionForRequestCode(requestCode);
      } else {
        OAuthErrorMsg(requestCode, resultCode);
      }
    }

    method PerformActionForRequestCode(code: int)
      requires Valid()
      modifies this`effects
      ensures Valid()
      ensures effects == old(effects) + PerformActionEffects(code)
    {
      match ActionForCode(code)
      case Some(FindDataSources) => FindFitnessDataSources();
      case None =>
    }

    method OAuthErrorMsg(requestCode: int, resultCode: int)
      requires Valid()
      modifies this`effects
      ensures Valid()
      ensures effects == old(effects) + [LogError(OAuthErrorMessage(requestCode, resultCode))]
    {
      Emit(LogError(OAuthErrorMessage(requestCode, resultCode)));
    }

    /** `FindFitnessDataSources`: issues the discovery query; the batch of sources comes back
        later through `OnDataSourcesFound`. */
    method FindFitnessDataSources()
      requires Valid()
      modifies this`effects
      ensures Valid()
      ensures effects == old(effects) + [StartFindDataSources]
    {
      Emit(StartFindDataSources);
    }

    /** The discovery loop: walks the batch in provider order and registers a listener for a
        location-sample source only while none is held, so only the first match is taken. */
    method OnDataSourcesFound(sources: seq<DataSource>)
      requires Valid()
      modifies this`effects, this`dataPointListener
      ensures Valid()
      ensures effects == old(effects) + DiscoveryEffects(sources, old(dataPointListener) != null)
      ensures old(dataPointListener) != null ==> dataPointListener == old(dataPointListener)
      ensures old(dataPointListener) == null ==> (dataPointListener != null <==> SelectSource(sources).Some?)
      ensures dataPointListener != old(dataPointListener) ==> fresh(dataPointListener)
    {
      ghost var held := old(dataPointListener) != null;
      ghost var chosen: Option<nat> := None;
      var i := 0;
      while i < |sources|
        invariant 0 <= i <= |sources|
        invariant Valid()
        invariant held ==> chosen.None? && dataPointListener == old(dataPointListener)
        invariant !held ==> (dataPointListener != null <==> chosen.Some?)
        invariant chosen.Some? ==> chosen.value < i && IsLocationSample(sources[chosen.value])
        invariant chosen.Some? ==> forall j :: 0 <= j < chosen.value ==> !IsLocationSample(sources[j])
        invariant !held && chosen.None? ==> forall j :: 0 <= j < i ==> !IsLocationSample(sources[j])
        invariant effects == old(effects) + if chosen.Some? then RegistrationEffects(sources[chosen.value]) else []
        invariant dataPointListener != old(dataPointListener) ==> fresh(dataPointListener)
      {
        if IsLocationSample(sources[i]) && dataPointListener == null {
          ghost var before := effects;
          Emit(LogInfo(RegisteringMessage));
          ghost var mid := effects;
          RegisterFitnessDataListener(sources[i], TypeLocationSample);
          chosen := Some(i);
          assert effects == before + RegistrationEffects(sources[i]) by {
            ghost var reg := RegistrationEffects(sources[i]);
            assert reg == [LogInfo(RegisteringMessage), AddSensorListener(SensorRequestFor(sources[i])), LogInfo(RegisteredMessage)];
            assert mid == before + reg[..1];
            assert effects == mid + reg[1..];
          }
        }
        i := i + 1;
      }
      DiscoveryEffectsOf(sources, held, chosen);
    }

    /** `RegisterFitnessDataListener`: stores a new listener, then asks the provider to add it
        with a ten-second sampling period. Its only caller checks that no listener is held. */
    method RegisterFitnessDataListener(dataSource: DataSource, dataType: DataType)
      requires Valid() && dataPointListener == null
      modifies this`effects, this`dataPointListener
      ensures Valid()
      ensures dataPointListener != null && fresh(dataPointListener)
      ensures effects == old(effects) +
        [AddSensorListener(SensorRequest(dataSource, dataType, SamplingSeconds)), LogInfo(RegisteredMessage)]
    {
      var request := SensorRequest(dataSource, dataType, SamplingSeconds);
      dataPointListener := new OnDataPointListener();
      var calls := [AddSensorListener(request), LogInfo(RegisteredMessage)];
      assert calls[1..][1..] == [];
      assert RegisteredAfter(true, calls[1..]) && SingleListener(true, calls[1..]);
      RegistryAppend(false, effects, calls);
      effects := effects + calls;
    }

    /** `UnregisterFitnessDataListener`: `removed` is the status the provider answers, and is
        consulted only when a listener is held. */
    method UnregisterFitnessDataListener(removed: bool)
      requires Valid()
      modifies this`effects, this`dataPointListener
      ensures Valid()
      ensures effects == old(effects) + UnregisterEffects(old(dataPointListener) != null, removed)
      ensures dataPointListener == if removed then null else old(dataPointListener)
    {
      if dataPointListener == null {
        return;
      }
      var calls := UnregisterEffects(true, removed);
      RegistryAppend(false, effects, calls);
      effects := effects + calls;
      if removed {
        dataPointListener := null;
      }
    }
  }
}
