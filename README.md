# BasicSensorsApi: the permission-gated action dispatcher and the listener registry

This project models the core of the BasicSensorsApi sample's main activity. The activity asks
for the fine-location permission and for fitness consent on the signed-in Google account. It
then discovers raw location-sample data sources and subscribes one data-point listener to
them. Three pieces of its logic are modelled:

- **The dispatcher.** `PermissionApproved` is the version-gated permission probe.
  `CheckPermissionsAndRun`, `RequestRuntimePermissions`, `OnRequestPermissionsResult`,
  `FitSignIn`, `OnActivityResult` and `PerformActionForRequestCode` decide, from a few answers
  given by the platform, what the activity does next. That can be a rationale notice, a
  permission prompt, a consent prompt, the discovery action, a denial notice or a log line.
- **The listener registry.** This is the `_dataPointListener` field. `RegisterFitnessDataListener`
  sets it. `UnregisterFitnessDataListener` clears it only when the provider confirms the removal.
- **The selection loop.** It walks one batch of discovered sources in provider order. It
  subscribes to the first source whose data-type name is the location-sample name, and only
  while no listener is held.

Layout, one module per file:

- `wrappers.dfy` (`Wrappers`): `Option`.
- `decimal.dfy` (`Decimal`): how C# interpolation renders an `int` when the negative sign is `-`, with a parser that reads it back.
- `android.dfy` (`Android`): the platform constants. These are `Build.VERSION_CODES.Q` = 29,
  `PermissionGranted` = 0 and `Result.Ok` = -1. Also the `Device` snapshot and `PermissionApproved`.
- `sensors.dfy` (`Sensors`): data types, data sources, the two provider requests, and `SelectSource`, the first-match rule.
- `effects.dfy` (`Effects`): one `Effect` token per outside call the activity makes, and predicates over sequences of them.
- `registry.dfy` (`Registry`): whether a listener is registered after a sequence of provider
  calls (`RegisteredAfter`), and the promise that no second listener is added over a live one
  (`SingleListener`). Also the effects of one discovery batch and of unregistration.
- `dispatch.dfy` (`Dispatch`): request codes, the error message, and one function per handler
  giving the effects it produces. The contracts state each handler's decision. Scenario lemmas
  compose several handlers.
- `activity.dfy` (`Activity`): the class `MainActivity`. It has a `dataPointListener` field,
  updated in place, and an `effects` field recording the outside calls made so far. Each
  method is the C# handler of the same name. Its `ensures` says that it appends exactly the
  effects that the matching `Dispatch` or `Registry` function gives. The three handlers
  that make one or two fixed calls (`RegisterFitnessDataListener`, `FindFitnessDataSources`
  and `OAuthErrorMsg`) list the effects they append directly. The discovery loop is a
  `while` loop that reads the listener field on every iteration. The invariant `Valid()`
  holds across every method. It says the field is set exactly when the provider-side
  registration is live, and that no listener was ever added over a live one. It also says a
  rationale notice waiting for OK was shown, with the code it carries.

What the platform and the libraries answer is not computed. It is an input:
`Device(sdkInt, fineLocation, showRationale, oauthApproved)` gives the SDK level,
`CheckSelfPermission`, `ShouldShowRequestPermissionRationale` and `GoogleSignIn.HasPermissions`
as they stand when a handler runs. The grant array, the activity result code, the discovered
batch and the removal status are the handlers' own parameters. Each asynchronous callback is a
separate, sequential method call. Pressing OK on the rationale notice is `OnRationaleConfirmed`.
It takes no code: the field `rationaleCode` holds the code the notice's closure captured when
`RequestRuntimePermissions` showed it. Only one notice shows at a time, so a later notice
replaces it. The arrival of a discovery batch is `OnDataSourcesFound`.

The model follows the code as written. Three of its behaviours are worth knowing:

- A non-OK activity result is logged as an error for any request code, including codes that
  name no action. Only an OK result with an unknown code is ignored.
- Re-entry is not idempotent. There is no table of pending requests, so an OK result delivered
  twice runs the action twice (`Dispatch.RepeatedConsentResultRunsAgain`).
- The listener field is set before `AddAsync` is awaited, and nothing clears it if that call
  fails.

## Model

| member | source | states |
|---|---|---|
| `Android.PermissionApproved` | BasicSensorsApi/MainActivity.cs:115-131 | below SDK Q (29) the probe approves whatever the permission registry says; from Q on it approves exactly when `AccessFineLocation` is granted |
| `Decimal.NatToString` | BasicSensorsApi/MainActivity.cs:274-276 | the rendering of a code is a non-empty digit string with no leading zero |
| `Decimal.IntToString` | BasicSensorsApi/MainActivity.cs:272-279 | an interpolated code is an optional minus sign followed by digits, with no line break |
| `Decimal.ParseNatToString` | BasicSensorsApi/MainActivity.cs:275-276 | reading back the digits of a natural number gives that number |
| `Decimal.IntToStringRoundTrip` | BasicSensorsApi/MainActivity.cs:274-276 | reading back the rendering of any code gives that code |
| `Decimal.IntToStringInjective` | BasicSensorsApi/MainActivity.cs:274-277 | different codes are never rendered alike |
| `Sensors.SelectSource` | BasicSensorsApi/MainActivity.cs:318-332 | the chosen index is a source passing the data-type name test of line 327 (`IsLocationSample`), with no passing source before it; no choice means no source in the batch passes |
| `Sensors.SelectSourceIsFirst` | BasicSensorsApi/MainActivity.cs:354-368 | any matching index with no match before it is the one chosen |
| `Registry.RegistryAppend` | BasicSensorsApi/MainActivity.cs:404-451 | registration state and the single-listener promise compose over concatenated call sequences |
| `Registry.RegistrationEffects` | BasicSensorsApi/MainActivity.cs:404-418 | registering from a free state leaves a listener registered and adds only one |
| `Registry.DiscoveryEffects` | BasicSensorsApi/MainActivity.cs:387-401 | with a listener held a batch does nothing; otherwise a listener is registered afterwards exactly when the batch has a location-sample source; never two listeners; no prompt and no action |
| `Registry.DiscoveryAddsFirstMatch` | BasicSensorsApi/MainActivity.cs:327-330 | a batch adds a listener for a request exactly when none was held and the request is for the first location-sample source |
| `Registry.DiscoveryEffectsOf` | BasicSensorsApi/MainActivity.cs:318-332 | a walk that keeps the first match it took produces the batch's effects, and that match is `SelectSource`'s choice |
| `Registry.FirstMatchWins` | BasicSensorsApi/MainActivity.cs:318-332 | for a batch with two location-sample sources, the first is subscribed exactly once and the later one (if different) never |
| `Registry.UnregisterEffects` | BasicSensorsApi/MainActivity.cs:430-451 | with no listener no provider call is made; otherwise a removal is requested, and the listener stays registered exactly when the provider says it was not removed |
| `Dispatch.ActionForCode` | BasicSensorsApi/MainActivity.cs:252-270 | a code maps to the action whose code it is; a code that names no action maps to none |
| `Dispatch.ActionForCodeRoundTrip` | BasicSensorsApi/MainActivity.cs:486-489 | every action's code maps back to that action |
| `Dispatch.OAuthErrorMessage` | BasicSensorsApi/MainActivity.cs:272-279 | the logged error contains the rendering of the request code and of the result code |
| `Dispatch.CodesText` | BasicSensorsApi/MainActivity.cs:275-276 | the codes part starts with the rendered request code and ends with the rendered result code |
| `Dispatch.OAuthErrorMessageInjective` | BasicSensorsApi/MainActivity.cs:272-279 | the logged error determines both codes |
| `Dispatch.PerformActionEffects` | BasicSensorsApi/MainActivity.cs:252-270 | the discovery action runs once for its own code; a code that names no action does nothing at all; no prompt is issued |
| `Dispatch.FitSignInEffects` | BasicSensorsApi/MainActivity.cs:230-244 | with consent held the action runs and no consent is requested; otherwise consent is requested with the same code and nothing runs |
| `Dispatch.RequestRuntimePermissionsEffects` | BasicSensorsApi/MainActivity.cs:133-169 | a rationale notice is shown exactly when warranted, and then no permission request is made; otherwise the request is made at once; both carry the given code; nothing runs |
| `Dispatch.RationaleConfirmedEffects` | BasicSensorsApi/MainActivity.cs:148-155 | confirming a notice issues the permission request with the code it is given; it shows neither notice, asks no consent and runs nothing |
| `Dispatch.CheckPermissionsAndRunEffects` | BasicSensorsApi/MainActivity.cs:103-113 | sign-in step (action or consent prompt) exactly when permission is approved, runtime request (rationale or prompt) exactly when it is not; never both; when fully authorized the action runs exactly once with no prompt |
| `Dispatch.OnRequestPermissionsResultEffects` | BasicSensorsApi/MainActivity.cs:171-223 | only code 1 is handled; for code 1 an empty grant array produces exactly the cancellation log line; a grant in slot 0 goes to sign-in; anything else shows the denial notice and runs nothing |
| `Dispatch.OnActivityResultEffects` | BasicSensorsApi/MainActivity.cs:68-80 | an OK result dispatches the code (discovery runs once for code 1; any other code does nothing at all); any other result runs nothing and logs exactly the error naming both codes |
| `Dispatch.RationaleThenGrantRunsOnce` | BasicSensorsApi/MainActivity.cs:103-187 | the rationale notice for code 1 comes first with no request; confirmation issues the request; a grant then runs the action once over the whole flow |
| `Dispatch.ConsentFailureNamesCodes` | BasicSensorsApi/MainActivity.cs:72-79 | consent result 5 for code 1 runs nothing and logs one error containing "1" and "5" |
| `Dispatch.RepeatedConsentResultRunsAgain` | BasicSensorsApi/MainActivity.cs:68-75 | an OK result delivered twice runs the action twice |
| `Activity.MainActivity.constructor` | BasicSensorsApi/MainActivity.cs:30 | a new activity holds no listener, shows no notice and has made no calls |
| `Activity.MainActivity.OnCreate` | BasicSensorsApi/MainActivity.cs:48-60 | start-up runs the permission check for the discovery code; a rationale notice for that code is left waiting exactly when the check shows one |
| `Activity.MainActivity.CheckPermissionsAndRun` | BasicSensorsApi/MainActivity.cs:103-113 | appends exactly `CheckPermissionsAndRunEffects`, keeps the registry invariant, and leaves a notice waiting with `code` exactly when permission is not approved and a rationale is warranted |
| `Activity.MainActivity.RequestRuntimePermissions` | BasicSensorsApi/MainActivity.cs:133-169 | appends exactly `RequestRuntimePermissionsEffects`; when a rationale is warranted the notice shown keeps `code` for its OK action |
| `Activity.MainActivity.OnRationaleConfirmed` | BasicSensorsApi/MainActivity.cs:148-155 | callable only while a rationale notice is showing; requests the permission with the code that notice was shown with, and dismisses it |
| `Activity.MainActivity.OnRequestPermissionsResult` | BasicSensorsApi/MainActivity.cs:171-223 | appends exactly `OnRequestPermissionsResultEffects`; the denial notice replaces any rationale notice |
| `Activity.MainActivity.FitSignIn` | BasicSensorsApi/MainActivity.cs:230-244 | appends exactly `FitSignInEffects` |
| `Activity.MainActivity.OnActivityResult` | BasicSensorsApi/MainActivity.cs:68-80 | appends exactly `OnActivityResultEffects` |
| `Activity.MainActivity.PerformActionForRequestCode` | BasicSensorsApi/MainActivity.cs:252-270 | appends exactly `PerformActionEffects` |
| `Activity.MainActivity.OAuthErrorMsg` | BasicSensorsApi/MainActivity.cs:272-279 | logs one error with the message naming both codes |
| `Activity.MainActivity.FindFitnessDataSources` | BasicSensorsApi/MainActivity.cs:305-337 | issues the discovery query for raw location-sample sources |
| `Activity.MainActivity.OnDataSourcesFound` | BasicSensorsApi/MainActivity.cs:316-333 | appends exactly `DiscoveryEffects` for the batch; a held listener is kept; otherwise a fresh listener is held afterwards exactly when the batch has a location-sample source |
| `Activity.MainActivity.RegisterFitnessDataListener` | BasicSensorsApi/MainActivity.cs:404-428 | stores a fresh listener and adds it with a 10-second sampling period for the given source and type |
| `Activity.MainActivity.UnregisterFitnessDataListener` | BasicSensorsApi/MainActivity.cs:430-451 | appends exactly `UnregisterEffects`; the field is cleared on a true status and left unchanged on a false one (and when empty) |

## Left out

- Notice contents and the settings intent (lines 144-156, 203-219) are left out. Each notice
  is one effect token: `ShowRationaleNotice(code)` or `ShowDeniedNotice`. Building the
  settings intent and its package URI is not modelled.
- The options menu (lines 82-101) is left out. It is the only path to
  `UnregisterFitnessDataListener`, which the model takes as a direct call.
- The logging chain (`InitializeLogging`, lines 281-300) and the data-point logging in
  `OnDataPointListener.OnDataPoint` (lines 453-464) are presentation and are left out.
- The per-source log lines of the discovery loop (lines 320-321, 356-357, 389-390) and the
  status log (line 385) are left out. They print the provider's own `ToString` of a data
  source, which the model has no text for.
- The three compile-time variants (lines 257-267) are modelled as one discovery action,
  whose batch arrives through `OnDataSourcesFound`. The exception the async variant raises
  and `DataSourcesFailureListener` (lines 476-484) are not modelled.
- Account resolution (`GoogleAccount`), `GetSensorsClient` and `HasPermissions` are library
  calls. They are left out, and only their answer (`Device.oauthApproved`) is an input.
- Activity.MainActivity.RegisterFitnessDataListener: `AddAsync` is taken to complete. If it
  faults, the source keeps the listener field set and the discovery loop stops. Neither is
  modelled.
- A user-triggered unregister between the listener being stored and `AddAsync` completing
  is not modelled, because callbacks are sequential in the model. Such an unregister would
  let a later match in the same batch register again.
- Decimal.IntToString: interpolation at lines 274-276 formats with the current culture. The
  model takes that culture's negative sign to be `-`, as in the invariant culture. A culture
  with another negative sign would render negative codes differently.
- `base.OnActivityResult` and the unused `permissions` argument of
  `OnRequestPermissionsResult` are left out.
- Request and result codes are C# 32-bit `int`s; the model uses `int`. The code does no
  arithmetic on them, so no wrap-around can occur.
- The C# verbatim string of the error message spans source lines. The model writes its line
  breaks as `\n`. The literal holds whatever line ending the source file uses.
- `DataType` keeps only the name, which is all the selection test compares. The provider's
  other data-type attributes are not modelled.
