/** Checking runtime permissions and asking the platform, in one batch, for those not yet granted. */
module PermissionCheck {

  /** A permission, named by its platform identifier. */
  type Permission = string

  /** The request code the check passes with every permission request. */
  const RequestCode: int := 0

  /** One call of the platform's permission-request API. */
  datatype PermissionRequest = PermissionRequest(permissions: seq<Permission>, requestCode: int)

  /** An activity, reduced to the permission requests made through it, oldest first. */
  class Activity {
    var requestLog: seq<PermissionRequest>

    constructor ()
      ensures requestLog == []
    {
      requestLog := [];
    }

    /** Asks the platform for `permissions`; the answer arrives later and is not modelled. */
    method RequestPermissions(permissions: seq<Permission>, requestCode: int)
      modifies this
      ensures requestLog == old(requestLog) + [PermissionRequest(permissions, requestCode)]
    {
      requestLog := requestLog + [PermissionRequest(permissions, requestCode)];
    }
  }

  /** `s` is `t` with some elements left out, the rest in the same order. */
  ghost predicate IsSubsequence(s: seq<Permission>, t: seq<Permission>)
    decreases |t|
  {
    if s == [] then true
    else if t == [] then false
    else (s[0] == t[0] && IsSubsequence(s[1..], t[1..])) || IsSubsequence(s, t[1..])
  }

  /** The permissions in `permissions` that `granted` does not hold. */
  function NotGranted(permissions: seq<Permission>, granted: set<Permission>): (missing: seq<Permission>)
    ensures forall p :: p in missing <==> p in permissions && p !in granted
    ensures missing == [] <==> forall p :: p in permissions ==> p in granted
  {
    if permissions == [] then []
    else if permissions[0] in granted then NotGranted(permissions[1..], granted)
      else [permissions[0]] + NotGranted(permissions[1..], granted)
  }

  /** Each permission not granted is missing as often as it is listed; a granted one not at all. */
  lemma {:induction false} NotGrantedCounts(permissions: seq<Permission>, granted: set<Permission>, p: Permission)
    ensures multiset(NotGranted(permissions, granted))[p] == if p in granted then 0 else multiset(permissions)[p]
  {
    if permissions != [] {
      assert permissions == [permissions[0]] + permissions[1..];
      NotGrantedCounts(permissions[1..], granted, p);
    }
  }

  /** The missing permissions keep the order they have in the list checked. */
  lemma {:induction false} NotGrantedIsSubsequence(permissions: seq<Permission>, granted: set<Permission>)
    ensures IsSubsequence(NotGranted(permissions, granted), permissions)
  {
    if permissions != [] {
      NotGrantedIsSubsequence(permissions[1..], granted);
      var rest := NotGranted(permissions[1..], granted);
      if permissions[0] !in granted {
        assert NotGranted(permissions, granted)[1..] == rest;
      }
    }
  }

  /** A single permission is missing exactly when it is not granted. */
  lemma NotGrantedSingleton(p: Permission, granted: set<Permission>)
    ensures NotGranted([p], granted) == if p in granted then [] else [p]
  {
    assert [p][1..] == [];
  }

  /** Filtering a concatenation filters each part and keeps the parts in order. */
  lemma {:induction false} NotGrantedAppend(a: seq<Permission>, b: seq<Permission>, granted: set<Permission>)
    ensures NotGranted(a + b, granted) == NotGranted(a, granted) + NotGranted(b, granted)
  {
    if a != [] {
      var ab := a + b;
      assert ab[0] == a[0] && ab[1..] == a[1..] + b;
      NotGrantedAppend(a[1..], b, granted);
      if a[0] in granted {
        assert NotGranted(ab, granted) == NotGranted(a[1..] + b, granted);
        assert NotGranted(a, granted) == NotGranted(a[1..], granted);
      } else {
        assert NotGranted(ab, granted) == [a[0]] + NotGranted(a[1..] + b, granted);
        assert NotGranted(a, granted) == [a[0]] + NotGranted(a[1..], granted);
      }
    } else {
      assert a + b == b;
    }
  }

  /**
   * Checks every permission in `permissionsArray`; if some are missing, makes exactly one request for all of them
   * through `currentActivity`. Returns whether none were missing.
   */
  method CheckAndRequestPermissions(permissionsArray: seq<Permission>, granted: set<Permission>,
                                    currentActivity: Activity) returns (allGranted: bool)
    modifies currentActivity
    ensures allGranted <==> forall p :: p in permissionsArray ==> p in granted
    ensures allGranted ==> currentActivity.requestLog == old(currentActivity.requestLog)
    ensures !allGranted ==>
      currentActivity.requestLog ==
        old(currentActivity.requestLog) + [PermissionRequest(NotGranted(permissionsArray, granted), RequestCode)]
    ensures forall r :: r in currentActivity.requestLog[|old(currentActivity.requestLog)|..] ==>
      r.permissions != [] && forall p :: p in r.permissions ==> p in permissionsArray && p !in granted
  {
    var notGranted := NotGranted(permissionsArray, granted);
    if notGranted != [] {
      currentActivity.RequestPermissions(notGranted, RequestCode);
    }
    allGranted := notGranted == [];
  }
}
