/** The permission-gated action dispatcher. Each handler of the activity is given here as the
    sequence of effects it produces from its inputs and the device snapshot; the class in
    `Activity` performs the same steps on its state. The contracts state the decision each
    handler makes. */
module Dispatch {
  import opened Wrappers
  import opened Decimal
  import opened Android
  import opened Sensors
  import opened Effects

  /** `FitActionRequestCode`: the actions that can wait for authorization. */
  datatype FitAction = FindDataSources

  /** The integer each action travels as through the platform's callbacks. */
  function RequestCode(a: FitAction): int
  {
    match a
    case FindDataSources => 1
  }

  /** The cast back from an integer and the switch of `PerformActionForRequestCode`: a code
      that names no action falls through. */
  function ActionForCode(code: int): (a: Option<FitAction>)
    ensures a.Some? ==> RequestCode(a.value) == code
    ensures a.None? ==> forall b :: RequestCode(b) != code
  {
    if code == 1 then Some(FindDataSources) else None
  }

  lemma ActionForCodeRoundTrip(a: FitAction)
    ensures ActionForCode(RequestCode(a)) == Some(a)
  {
  }

  const FindDataSourcesCode: int := RequestCode(FindDataSources)

  const RationaleMessage: string := "Displaying permission rationale to provide additional context."
  const RequestingMessage: string := "Requesting permission(s)..."
  const CancelledMessage: string := "User interaction was cancelled."

  const OAuthErrorPrefix: string :=
    "There was an error signing into Fit. Check the troubleshooting section of the README for potential issues.\n            Request code was: "
  const OAuthErrorMiddle: string := "\n            Result code was: "

  /** The error logged when the consent flow does not return OK: it names both codes. */
  function OAuthErrorMessage(requestCode: int, resultCode: int): (m: string)
    ensures Contains(m, IntToString(requestCode)) && Contains(m, IntToString(resultCode))
  {
    var codes := CodesText(requestCode, resultCode);
    var m := OAuthErrorPrefix + codes;
    assert m[|OAuthErrorPrefix|..] == codes;
    m
  }

  /** The part of the message after its fixed opening: it starts with the request code and
      ends with the result code. */
  function CodesText(requestCode: int, resultCode: int): (t: string)
    ensures |IntToString(requestCode)| + |IntToString(resultCode)| < |t|
    ensures IntToString(requestCode) <= t
    ensures t[|t| - |IntToString(resultCode)|..] == IntToString(resultCode)
  {
    var t := IntToString(requestCode) + OAuthErrorMiddle + IntToString(resultCode);
    assert t == (IntToString(requestCode) + OAuthErrorMiddle) + IntToString(resultCode);
    t
  }

  predicate Contains(s: string, part: string)
  {
    exists i | 0 <= i <= |s| :: part <= s[i..]
  }

  /** In a string with no line break followed by text that starts with one, the first line
      break sits right after the string. */
  lemma FirstLineBreak(x: string, rest: string)
    requires '\n' !in x
    requires |rest| > 0 && rest[0] == '\n'
    ensures (x + rest)[|x|] == '\n'
    ensures forall k :: 0 <= k < |x| ==> (x + rest)[k] != '\n'
  {
  }

  /** A string with no line break, followed by text that starts with one, can be split back
      in only one way. */
  lemma SplitAtLineBreak(x: string, y: string, x': string, y': string, mid: string)
    requires '\n' !in x && '\n' !in x'
    requires |mid| > 0 && mid[0] == '\n'
    requires x + mid + y == x' + mid + y'
    ensures x == x' && y == y'
  {
    var s := x + mid + y;
    FirstLineBreak(x, mid + y);
    FirstLineBreak(x', mid + y');
    assert x + (mid + y) == s == x' + (mid + y');
    assert |x| == |x'|;
    assert x == s[..|x|] && x' == s[..|x'|];
    assert y == s[|x| + |mid|..] && y' == s[|x'| + |mid|..];
  }

  /** The message determines both codes: two failures with different codes are never logged
      alike. */
  lemma OAuthErrorMessageInjective(req: int, res: int, req': int, res': int)
    requires OAuthErrorMessage(req, res) == OAuthErrorMessage(req', res')
    ensures req == req' && res == res'
  {
    assert CodesText(req, res) == (OAuthErrorPrefix + CodesText(req, res))[|OAuthErrorPrefix|..];
    assert CodesText(req', res') == (OAuthErrorPrefix + CodesText(req', res'))[|OAuthErrorPrefix|..];
    SplitAtLineBreak(IntToString(req), IntToString(res), IntToString(req'), IntToString(res'), OAuthErrorMiddle);
    IntToStringInjective(req, req');
    IntToStringInjective(res, res');
  }

  /** Whether the activity may read location, as `PermissionApproved` decides it. */
  predicate Approved(dev: Device)
  {
    PermissionApproved(dev.sdkInt, dev.fineLocation)
  }

  /** `PerformActionForRequestCode`: the discovery action for its code, nothing for any other. */
  function PerformActionEffects(code: int): (r: seq<Effect>)
    ensures Runs(r) == (if ActionForCode(code) == Some(FindDataSources) then 1 else 0)
    ensures |r| == Runs(r)
    ensures ActionForCode(code).None? ==> r == []
    ensures !IssuesOsRequest(r) && !RequestsConsent(r) && !ShowsRationale(r)
    ensures Neutral(r)
  {
    match ActionForCode(code)
    case Some(FindDataSources) => [StartFindDataSources]
    case None => []
  }

  /** `FitSignIn`: with consent already held the action runs at once and no consent is asked
      for; otherwise consent is asked for with the same code and nothing runs. */
  function FitSignInEffects(dev: Device, code: int): (r: seq<Effect>)
    ensures Runs(r) == (if dev.oauthApproved && code == FindDataSourcesCode then 1 else 0)
    ensures RequestsConsent(r) <==> !dev.oauthApproved
    ensures !IssuesOsRequest(r) && !ShowsRationale(r)
    ensures CodesAre(r, code) && Neutral(r)
  {
    if dev.oauthApproved then PerformActionEffects(code)
    else
      var r := [RequestConsent(code)];
      assert r[0] in r;
      r
  }

  /** `RequestRuntimePermissions`: when the platform says a rationale is warranted, only the
      notice is shown and no permission request is made until it is confirmed; otherwise the
      request is made at once. Either way with the same code, and nothing runs. */
  function RequestRuntimePermissionsEffects(dev: Device, code: int): (r: seq<Effect>)
    ensures ShowsRationale(r) <==> dev.showRationale
    ensures IssuesOsRequest(r) <==> !dev.showRationale
    ensures Runs(r) == 0 && !RequestsConsent(r)
    ensures CodesAre(r, code) && Neutral(r)
  {
    var r := if dev.showRationale then [LogInfo(RationaleMessage), ShowRationaleNotice(code)]
             else [LogInfo(RequestingMessage), RequestFineLocation(code)];
    assert r[1] in r;
    r
  }

  /** The OK action of the rationale notice: the deferred permission request. */
  function RationaleConfirmedEffects(code: int): (r: seq<Effect>)
    ensures IssuesOsRequest(r) && !ShowsRationale(r) && ShowDeniedNotice !in r
    ensures Runs(r) == 0 && !RequestsConsent(r)
    ensures CodesAre(r, code) && Neutral(r)
  {
    var r := [RequestFineLocation(code)];
    assert r[0] in r;
    r
  }

  /** `CheckPermissionsAndRun`: exactly one of four outcomes. With permission it goes to the
      sign-in step (the action, or the consent prompt); without it, to the runtime request
      (the rationale notice, or the permission prompt). Never both steps. */
  function CheckPermissionsAndRunEffects(dev: Device, code: int): (r: seq<Effect>)
    ensures Runs(r) == (if Approved(dev) && dev.oauthApproved && code == FindDataSourcesCode then 1 else 0)
    ensures RequestsConsent(r) <==> Approved(dev) && !dev.oauthApproved
    ensures ShowsRationale(r) <==> !Approved(dev) && dev.showRationale
    ensures IssuesOsRequest(r) <==> !Approved(dev) && !dev.showRationale
    ensures CodesAre(r, code) && Neutral(r)
  {
    if Approved(dev) then FitSignInEffects(dev, code) else RequestRuntimePermissionsEffects(dev, code)
  }

  /** `OnRequestPermissionsResult`: only the discovery code is handled. An empty grant array
      is a cancelled interaction: it is logged, and neither signs in nor shows the denial
      notice. A grant in the first slot goes to the sign-in step; anything else shows the
      notice that leads to the settings page, and the action does not run. */
  function OnRequestPermissionsResultEffects(dev: Device, code: int, grantResults: seq<int>): (r: seq<Effect>)
    ensures code != FindDataSourcesCode ==> r == []
    ensures LogInfo(CancelledMessage) in r <==> code == FindDataSourcesCode && |grantResults| == 0
    ensures code == FindDataSourcesCode && |grantResults| == 0 ==> r == [LogInfo(CancelledMessage)]
    ensures ShowDeniedNotice in r <==>
      code == FindDataSourcesCode && |grantResults| > 0 && grantResults[0] != PermissionGranted
    ensures Runs(r) ==
      (if code == FindDataSourcesCode && |grantResults| > 0 && grantResults[0] == PermissionGranted && dev.oauthApproved
       then 1 else 0)
    ensures RequestsConsent(r) <==>
      code == FindDataSourcesCode && |grantResults| > 0 && grantResults[0] == PermissionGranted && !dev.oauthApproved
    ensures !IssuesOsRequest(r) && !ShowsRationale(r)
    ensures CodesAre(r, code) && Neutral(r)
  {
    if code != FindDataSourcesCode then []
    else if |grantResults| == 0 then [LogInfo(CancelledMessage)]
    else if grantResults[0] == PermissionGranted then FitSignInEffects(dev, FindDataSourcesCode)
    else [ShowDeniedNotice]
  }

  /** `OnActivityResult`: an OK result dispatches the returned code; any other result runs
      nothing and logs one error naming both codes. */
  function OnActivityResultEffects(requestCode: int, resultCode: int): (r: seq<Effect>)
    ensures Runs(r) == (if resultCode == ResultOk && requestCode == FindDataSourcesCode then 1 else 0)
    ensures resultCode != ResultOk ==> r == [LogError(OAuthErrorMessage(requestCode, resultCode))]
    ensures resultCode == ResultOk ==> forall e :: e in r ==> !e.LogError?
    ensures resultCode == ResultOk && ActionForCode(requestCode).None? ==> r == []
    ensures !IssuesOsRequest(r) && !RequestsConsent(r) && !ShowsRationale(r)
    ensures Neutral(r)
  {
    if resultCode == ResultOk then PerformActionEffects(requestCode)
    else [LogError(OAuthErrorMessage(requestCode, resultCode))]
  }

  /** From Q on, with the permission not granted and a rationale warranted, the first call
      shows the notice and asks for nothing; confirming the notice asks for the permission
      with the same code; a grant then runs the discovery action, once in the whole flow,
      when consent is already held. */
  lemma RationaleThenGrantRunsOnce(before: Device, after: Device)
    requires before.sdkInt >= VersionCodeQ && before.fineLocation != PermissionGranted && before.showRationale
    requires after.oauthApproved
    ensures var first := CheckPermissionsAndRunEffects(before, FindDataSourcesCode);
      ShowRationaleNotice(FindDataSourcesCode) in first && !IssuesOsRequest(first) && Runs(first) == 0
    ensures RationaleConfirmedEffects(FindDataSourcesCode) == [RequestFineLocation(FindDataSourcesCode)]
    ensures Runs(CheckPermissionsAndRunEffects(before, FindDataSourcesCode) +
                 RationaleConfirmedEffects(FindDataSourcesCode) +
                 OnRequestPermissionsResultEffects(after, FindDataSourcesCode, [PermissionGranted])) == 1
  {
  }

  /** A consent flow that comes back for code 1 with result code 5 runs nothing and logs a
      single error whose text contains "1" and "5". */
  lemma ConsentFailureNamesCodes()
    ensures var r := OnActivityResultEffects(1, 5);
      Runs(r) == 0 && |r| == 1 && r[0].LogError? &&
      Contains(r[0].message, "1") && Contains(r[0].message, "5")
  {
  }

  /** There is no table of pending requests: an OK result delivered twice for the same code
      runs the action twice. */
  lemma RepeatedConsentResultRunsAgain()
    ensures Runs(OnActivityResultEffects(FindDataSourcesCode, ResultOk) +
                 OnActivityResultEffects(FindDataSourcesCode, ResultOk)) == 2
  {
  }
}
