/** The main activity: its fixed permission check and the gate that picks the screen it shows. */
module MainActivity {
  import PermissionCheck

  type Permission = PermissionCheck.Permission
  type Activity = PermissionCheck.Activity

  const AccessFineLocation: Permission := "android.permission.ACCESS_FINE_LOCATION"
  const AccessCoarseLocation: Permission := "android.permission.ACCESS_COARSE_LOCATION"
  const ReadPhoneState: Permission := "android.permission.READ_PHONE_STATE"

  /** The permissions the activity needs, in the order it asks for them. */
  const RequiredPermissions: seq<Permission> := [AccessFineLocation, AccessCoarseLocation, ReadPhoneState]

  /** The missing subset of the three required permissions, in list order. */
  lemma {:induction false} RequiredMissing(granted: set<Permission>)
    ensures PermissionCheck.NotGranted(RequiredPermissions, granted) ==
      (if AccessFineLocation in granted then [] else [AccessFineLocation]) +
      (if AccessCoarseLocation in granted then [] else [AccessCoarseLocation]) +
      (if ReadPhoneState in granted then [] else [ReadPhoneState])
  {
    var rest := [AccessCoarseLocation, ReadPhoneState];
    assert RequiredPermissions[1..] == rest && rest[1..] == [ReadPhoneState];
    PermissionCheck.NotGrantedSingleton(ReadPhoneState, granted);
  }

  /** The one request the check makes when some of the three are missing. */
  function RequiredRequest(granted: set<Permission>): PermissionCheck.PermissionRequest
  {
    var missing := PermissionCheck.NotGranted(RequiredPermissions, granted);
    PermissionCheck.PermissionRequest(missing, PermissionCheck.RequestCode)
  }

  /**
   * The activity's own check: true exactly when all three are granted; otherwise one request for exactly the
   * missing ones. It has the same logic as PermissionCheck.CheckAndRequestPermissions on the fixed list.
   */
  method CheckAndRequestPermissions(activity: Activity, granted: set<Permission>) returns (allGranted: bool)
    modifies activity
    ensures allGranted <==>
      AccessFineLocation in granted && AccessCoarseLocation in granted && ReadPhoneState in granted
    ensures allGranted ==> activity.requestLog == old(activity.requestLog)
    ensures !allGranted ==>
      activity.requestLog == old(activity.requestLog) + [RequiredRequest(granted)]
  {
    allGranted := PermissionCheck.CheckAndRequestPermissions(RequiredPermissions, granted, activity);
  }

  /** The two screens the content can show. */
  datatype View = MainScaffold | PermissionRequiredView

  /** The activity's content: the `permissionsGranted` state and the effect that sets it once. */
  class MainActivityContent {
    var permissionsGranted: bool
    var effectLaunched: bool

    /** The screen shown for the current state. */
    function SelectedView(): (v: View)
      reads this
      ensures v == MainScaffold <==> permissionsGranted
      ensures v == PermissionRequiredView <==> !permissionsGranted
    {
      if permissionsGranted then MainScaffold else PermissionRequiredView
    }

    /** Before the effect has run, the permission prompt is what is shown. */
    constructor ()
      ensures !permissionsGranted && !effectLaunched
      ensures SelectedView() == PermissionRequiredView
    {
      permissionsGranted := false;
      effectLaunched := false;
    }

    /**
     * The effect keyed on a constant: the first run stores the result of the check; any later run leaves both
     * the state and the activity's requests alone.
     */
    method RunLaunchedEffect(activity: Activity, granted: set<Permission>)
      modifies this, activity
      ensures effectLaunched
      ensures old(effectLaunched) ==>
        permissionsGranted == old(permissionsGranted) && activity.requestLog == old(activity.requestLog)
      ensures !old(effectLaunched) ==>
        (permissionsGranted <==> forall p :: p in RequiredPermissions ==> p in granted)
      ensures !old(effectLaunched) ==>
        (SelectedView() == MainScaffold <==>
          AccessFineLocation in granted && AccessCoarseLocation in granted && ReadPhoneState in granted)
      ensures !old(effectLaunched) && !permissionsGranted ==>
        activity.requestLog == old(activity.requestLog) + [RequiredRequest(granted)]
      ensures !old(effectLaunched) && permissionsGranted ==> activity.requestLog == old(activity.requestLog)
    {
      if !effectLaunched {
        effectLaunched := true;
        permissionsGranted := CheckAndRequestPermissions(activity, granted);
      }
    }
  }
}
