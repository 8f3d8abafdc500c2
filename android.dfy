/** The platform values the activity compares against, and the version-gated permission
    probe. The device's answers (its SDK level, what `CheckSelfPermission` and
    `ShouldShowRequestPermissionRationale` return, whether the signed-in account already holds
    the fitness scopes) are not computed by the activity: they arrive as a `Device` snapshot. */
module Android {

  /** `Build.VERSION_CODES.Q`. */
  const VersionCodeQ: int := 29

  /** `PermissionChecker.PermissionGranted`, also the value of `Permission.Granted` in a grant array. */
  const PermissionGranted: int := 0

  /** `Result.Ok`, the result code of an activity that finished successfully. */
  const ResultOk: int := -1

  /** What the activity asks of the platform and of the sign-in library at the moment a
      handler runs. Each handler is given the snapshot current at its own call. */
  datatype Device = Device(
    sdkInt: int,              // Build.VERSION.SdkInt
    fineLocation: int,        // CheckSelfPermission(AccessFineLocation)
    showRationale: bool,      // ShouldShowRequestPermissionRationale(AccessFineLocation)
    oauthApproved: bool       // GoogleSignIn.HasPermissions(account, fitness options)
  )

  function IsRunningQOrLater(sdkInt: int): bool
  {
    sdkInt >= VersionCodeQ
  }

  /** Below Q the probe approves without asking the permission registry; from Q on it
      reports exactly the registry's answer. */
  function PermissionApproved(sdkInt: int, fineLocation: int): (approved: bool)
    ensures sdkInt < VersionCodeQ ==> approved
    ensures sdkInt >= VersionCodeQ ==> (approved <==> fineLocation == PermissionGranted)
  {
    if IsRunningQOrLater(sdkInt) then fineLocation == PermissionGranted else true
  }
}
