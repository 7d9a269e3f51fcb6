/**
 * `SSIDResolverViewModel`: the two permission tables, the status line
 * derived from them, and the view model's reactions to what the
 * resolver reports. Each `Task` or main-queue block runs as one
 * sequential step; what the platform answers comes in as parameters.
 */
module ViewModel {
  import opened Wrappers
  import opened CoreResolver

  const LocKey: string := "loc"
  const WifiKey: string := "wifi"
  const LocLabel: string := "Location (When In Use)"
  const WifiLabel: string := "Access WiFi Information"

  const AllGranted: string := "All permissions granted"
  const AllDenied: string := "All permissions denied"
  const SomeDenied: string := "Some permissions denied"

  const InitialSsid: string := "Unknown SSID Status"
  const InitialStatus: string := "Unknown Permission Status"
  const UnknownSsid: string := "Unknown"
  const MissingPermissionsPrefix: string := "Missing permissions: "

  lemma KeysAndLabelsDistinct()
    ensures LocKey != WifiKey && LocLabel != WifiLabel
  {
    assert LocKey[0] == 'l' && WifiKey[0] == 'w';
    assert LocLabel[0] == 'L' && WifiLabel[0] == 'A';
  }

  /** `updatePermissionStatus`'s choice of status line. */
  function StatusText(granted: map<string, string>, denied: map<string, string>): string {
    if |denied| == 0 then AllGranted
    else if |granted| == 0 then AllDenied
    else SomeDenied
  }

  /** The three status lines are three different strings. */
  lemma StatusTextsDistinct()
    ensures AllGranted != AllDenied && AllGranted != SomeDenied && AllDenied != SomeDenied
  {
    assert AllGranted[0] == 'A' && AllDenied[0] == 'A' && SomeDenied[0] == 'S';
    assert AllGranted[16] == 'g' && AllDenied[16] == 'd';
  }

  /**
   * The status policy: all granted when nothing is denied, otherwise all
   * denied when nothing is granted, otherwise some denied.
   */
  lemma StatusTextPolicy(granted: map<string, string>, denied: map<string, string>)
    ensures StatusText(granted, denied) == AllGranted <==> denied == map[]
    ensures StatusText(granted, denied) == AllDenied <==> denied != map[] && granted == map[]
    ensures StatusText(granted, denied) == SomeDenied <==> denied != map[] && granted != map[]
  {
    StatusTextsDistinct();
    assert |denied| == 0 <==> denied == map[];
    assert |granted| == 0 <==> granted == map[];
  }

  /** The tables hold only the two known keys, each with its own label, never both at once. */
  ghost predicate WellFormed(granted: map<string, string>, denied: map<string, string>) {
    && granted.Keys <= {LocKey, WifiKey}
    && denied.Keys <= {LocKey, WifiKey}
    && granted.Keys !! denied.Keys
    && (LocKey in granted ==> granted[LocKey] == LocLabel)
    && (LocKey in denied ==> denied[LocKey] == LocLabel)
    && (WifiKey in granted ==> granted[WifiKey] == WifiLabel)
    && (WifiKey in denied ==> denied[WifiKey] == WifiLabel)
  }

  /** `key` sits in exactly one of the two tables. */
  ghost predicate Tracked(granted: map<string, string>, denied: map<string, string>, key: string) {
    (key in granted) != (key in denied)
  }

  /**
   * Once both permissions are tracked, the status line speaks about the
   * permissions themselves: all granted iff both are granted, all denied
   * iff both are denied, some denied iff exactly one is.
   */
  lemma StatusReflectsPermissions(granted: map<string, string>, denied: map<string, string>)
    requires WellFormed(granted, denied)
    requires Tracked(granted, denied, LocKey) && Tracked(granted, denied, WifiKey)
    ensures StatusText(granted, denied) == AllGranted <==> LocKey in granted && WifiKey in granted
    ensures StatusText(granted, denied) == AllDenied <==> LocKey in denied && WifiKey in denied
    ensures StatusText(granted, denied) == SomeDenied <==> (LocKey in granted) != (WifiKey in granted)
  {
    StatusTextPolicy(granted, denied);
    assert denied == map[] <==> denied.Keys == {};
    assert granted == map[] <==> granted.Keys == {};
  }

  /**
   * `labels` lists the values of `m`, one per key, in some order. It compares
   * a set and a length, so it pins the list down only when the values are
   * distinct; `WellFormed` keeps the two labels distinct.
   */
  ghost predicate EnumeratesValues(labels: seq<string>, m: map<string, string>) {
    |labels| == |m| && forall v :: v in labels <==> v in m.Values
  }

  /** `msg` is "Missing permissions: " followed by the values of `m` in some order. */
  ghost predicate ListsDenied(msg: string, m: map<string, string>) {
    exists labels :: EnumeratesValues(labels, m) && msg == MissingPermissionsPrefix + Join(labels, ", ")
  }

  /**
   * `dictionary.values`: one value per key, in an order the dictionary
   * does not promise (here, whichever key the choice picks next).
   */
  method ValuesInSomeOrder(m: map<string, string>) returns (labels: seq<string>)
    ensures EnumeratesValues(labels, m)
  {
    labels := [];
    var keys := m.Keys;
    while keys != {}
      invariant keys <= m.Keys
      invariant |labels| + |keys| == |m.Keys|
      invariant forall v :: v in labels ==> v in m.Values
      invariant forall k :: k in m.Keys && k !in keys ==> m[k] in labels
      decreases keys
    {
      var k :| k in keys;
      labels := labels + [m[k]];
      keys := keys - {k};
    }
  }

  /** With one denied permission the message names exactly that one. */
  lemma ListsOneDenied(msg: string, key: string, text: string)
    requires ListsDenied(msg, map[key := text])
    ensures msg == MissingPermissionsPrefix + text
  {
    var texts :| EnumeratesValues(texts, map[key := text])
               && msg == MissingPermissionsPrefix + Join(texts, ", ");
    assert texts[0] in texts;
    assert texts == [text];
  }

  /** Two distinct parts listed in some order are joined in one order or the other. */
  lemma JoinEitherOrder(labels: seq<string>, a: string, b: string, sep: string)
    requires |labels| == 2 && a in labels && b in labels && a != b
    ensures Join(labels, sep) == a + sep + b || Join(labels, sep) == b + sep + a
  {
    assert labels == [a, b] || labels == [b, a];
    JoinTwo(labels[0], labels[1], sep);
  }

  /** With both permissions denied the message names both, in one order or the other. */
  lemma ListsBothDenied(msg: string)
    requires ListsDenied(msg, map[LocKey := LocLabel, WifiKey := WifiLabel])
    ensures msg == MissingPermissionsPrefix + LocLabel + ", " + WifiLabel
         || msg == MissingPermissionsPrefix + WifiLabel + ", " + LocLabel
  {
    var both := map[LocKey := LocLabel, WifiKey := WifiLabel];
    var labels :| EnumeratesValues(labels, both) && msg == MissingPermissionsPrefix + Join(labels, ", ");
    KeysAndLabelsDistinct();
    assert |both| == 2 by { assert both.Keys == {LocKey, WifiKey}; }
    assert LocLabel in both.Values && WifiLabel in both.Values by {
      assert both[LocKey] == LocLabel && both[WifiKey] == WifiLabel;
    }
    JoinEitherOrder(labels, LocLabel, WifiLabel, ", ");
  }

  class SSIDResolverViewModel {
    const coreResolver: CoreSSIDResolver
    var ssid: string
    var permissionStatus: string
    var errorMessage: Option<string>
    var grantedPermissions: map<string, string>
    var deniedPermissions: map<string, string>

    /** The tables are well formed, and the status line is the one they call for (or the initial one). */
    ghost predicate Valid()
      reads this
    {
      && WellFormed(grantedPermissions, deniedPermissions)
      && (|| permissionStatus == StatusText(grantedPermissions, deniedPermissions)
          || (permissionStatus == InitialStatus && grantedPermissions == map[] && deniedPermissions == map[]))
    }

    constructor ()
      ensures Valid() && fresh(coreResolver)
      ensures ssid == InitialSsid && permissionStatus == InitialStatus && errorMessage == None
      ensures grantedPermissions == map[] && deniedPermissions == map[]
      ensures coreResolver.permissionCompletion == None && coreResolver.ssid == None
      ensures coreResolver.delivered == []
    {
      coreResolver := new CoreSSIDResolver();
      ssid := InitialSsid;
      permissionStatus := InitialStatus;
      errorMessage := None;
      grantedPermissions := map[];
      deniedPermissions := map[];
    }

    /** `updatePermissionStatus`. */
    method UpdatePermissionStatus()
      modifies this`permissionStatus
      ensures permissionStatus == StatusText(grantedPermissions, deniedPermissions)
    {
      permissionStatus := StatusText(grantedPermissions, deniedPermissions);
    }

    /**
     * `updateLocPermissionInLists`: "loc" moves to granted when the status
     * is authorised and to denied otherwise; no other key changes.
     */
    method UpdateLocPermissionInLists(status: AuthorizationStatus)
      requires Valid()
      modifies this`grantedPermissions, this`deniedPermissions, this`permissionStatus
      ensures Valid()
      ensures LocKey in grantedPermissions <==> IsAuthorized(status)
      ensures LocKey in deniedPermissions <==> !IsAuthorized(status)
      ensures IsAuthorized(status) ==>
                && grantedPermissions == old(grantedPermissions)[LocKey := LocLabel]
                && deniedPermissions == old(deniedPermissions) - {LocKey}
      ensures !IsAuthorized(status) ==>
                && grantedPermissions == old(grantedPermissions) - {LocKey}
                && deniedPermissions == old(deniedPermissions)[LocKey := LocLabel]
      ensures permissionStatus == StatusText(grantedPermissions, deniedPermissions)
    {
      if IsAuthorized(status) {
        grantedPermissions := grantedPermissions[LocKey := LocLabel];
        deniedPermissions := deniedPermissions - {LocKey};
      } else {
        grantedPermissions := grantedPermissions - {LocKey};
        deniedPermissions := deniedPermissions[LocKey := LocLabel];
      }
      UpdatePermissionStatus();
    }

    /**
     * `updateWifiPermissionInLists`: "wifi" moves to granted when entitled
     * and to denied otherwise; no other key changes.
     */
    method UpdateWifiPermissionInLists(hasWiFiEntitlement: bool)
      requires Valid()
      modifies this`grantedPermissions, this`deniedPermissions, this`permissionStatus
      ensures Valid()
      ensures WifiKey in grantedPermissions <==> hasWiFiEntitlement
      ensures WifiKey in deniedPermissions <==> !hasWiFiEntitlement
      ensures hasWiFiEntitlement ==>
                && grantedPermissions == old(grantedPermissions)[WifiKey := WifiLabel]
                && deniedPermissions == old(deniedPermissions) - {WifiKey}
      ensures !hasWiFiEntitlement ==>
                && grantedPermissions == old(grantedPermissions) - {WifiKey}
                && deniedPermissions == old(deniedPermissions)[WifiKey := WifiLabel]
      ensures permissionStatus == StatusText(grantedPermissions, deniedPermissions)
    {
      if hasWiFiEntitlement {
        grantedPermissions := grantedPermissions[WifiKey := WifiLabel];
        deniedPermissions := deniedPermissions - {WifiKey};
      } else {
        grantedPermissions := grantedPermissions - {WifiKey};
        deniedPermissions := deniedPermissions[WifiKey := WifiLabel];
      }
      UpdatePermissionStatus();
    }

    /**
     * `checkPermissionStatus`: location from the status; WiFi from the
     * entitlement lookup only when location is authorised, denied otherwise
     * whatever the lookup would say.
     */
    method CheckPermissionStatus(status: AuthorizationStatus, lookup: Option<Network>)
      requires Valid()
      modifies this`grantedPermissions, this`deniedPermissions, this`permissionStatus
      ensures Valid()
      ensures Tracked(grantedPermissions, deniedPermissions, LocKey)
      ensures Tracked(grantedPermissions, deniedPermissions, WifiKey)
      ensures LocKey in grantedPermissions <==> IsAuthorized(status)
      ensures WifiKey in grantedPermissions <==> IsAuthorized(status) && lookup.Some?
      ensures !IsAuthorized(status) ==> WifiKey in deniedPermissions
      ensures WifiKey in grantedPermissions ==> LocKey in grantedPermissions
      ensures permissionStatus == StatusText(grantedPermissions, deniedPermissions)
    {
      UpdateLocPermissionInLists(status);
      if IsAuthorized(status) {
        var hasWiFi := CheckAccessWiFiEntitlement(lookup);
        UpdateWifiPermissionInLists(hasWiFi);
      } else {
        UpdateWifiPermissionInLists(false);
      }
    }

    /**
     * The `Task` that `requestPermission` starts after a granted location:
     * refresh "wifi" from the entitlement lookup, then report the denied
     * labels if any are left; otherwise the message stays as it was.
     */
    method RefreshWifiAfterGrant(lookup: Option<Network>)
      requires Valid()
      modifies this`grantedPermissions, this`deniedPermissions, this`permissionStatus, this`errorMessage
      ensures Valid()
      ensures WifiKey in grantedPermissions <==> lookup.Some?
      ensures WifiKey in deniedPermissions <==> lookup.None?
      ensures (LocKey in grantedPermissions) == old(LocKey in grantedPermissions)
      ensures (LocKey in deniedPermissions) == old(LocKey in deniedPermissions)
      ensures deniedPermissions == map[] ==> errorMessage == old(errorMessage)
      ensures deniedPermissions != map[] ==>
                errorMessage.Some? && ListsDenied(errorMessage.value, deniedPermissions)
      ensures permissionStatus == StatusText(grantedPermissions, deniedPermissions)
    {
      KeysAndLabelsDistinct();
      var hasWiFi := CheckAccessWiFiEntitlement(lookup);
      UpdateWifiPermissionInLists(hasWiFi);
      if |deniedPermissions| != 0 {
        var labels := ValuesInSomeOrder(deniedPermissions);
        errorMessage := Some(MissingPermissionsPrefix + Join(labels, ", "));
        assert ListsDenied(errorMessage.value, deniedPermissions);
      }
    }

    /**
     * The completion `requestPermission` hands to the resolver. `status` is
     * the authorisation status read when it runs, `lookup` the answer of
     * the entitlement lookup in the follow-up task, `bridged` the text the
     * platform gives an error that is not a missing-permission exception.
     */
    method HandlePermissionResult(result: PermissionResult, status: AuthorizationStatus,
                                  lookup: Option<Network>, bridged: string)
      requires Valid()
      modifies this`grantedPermissions, this`deniedPermissions, this`permissionStatus, this`errorMessage
      ensures Valid()
      ensures Tracked(grantedPermissions, deniedPermissions, LocKey)
      ensures Tracked(grantedPermissions, deniedPermissions, WifiKey)
      ensures LocKey in grantedPermissions <==> IsAuthorized(status)
      ensures result.Success? ==> (WifiKey in grantedPermissions <==> lookup.Some?)
      ensures result.Success? ==> (errorMessage == None <==> deniedPermissions == map[])
      ensures result.Success? && deniedPermissions != map[] ==>
                errorMessage.Some? && ListsDenied(errorMessage.value, deniedPermissions)
      ensures result.Failure? ==> WifiKey in deniedPermissions && errorMessage.Some?
      ensures result.Failure? ==>
                var reported := if IsAuthorized(status) then old(deniedPermissions) - {LocKey}
                                else old(deniedPermissions)[LocKey := LocLabel];
                if reported != map[] then ListsDenied(errorMessage.value, reported)
                else if result.error.MissingPermission? then errorMessage.value == Description(result.error)
                else errorMessage.value == bridged
      ensures permissionStatus == StatusText(grantedPermissions, deniedPermissions)
    {
      KeysAndLabelsDistinct();
      match result
      case Success(_) =>
        UpdateLocPermissionInLists(status);
        errorMessage := None;
        RefreshWifiAfterGrant(lookup);
      case Failure(error) =>
        UpdateLocPermissionInLists(status);
        if |deniedPermissions| != 0 {
          var labels := ValuesInSomeOrder(deniedPermissions);
          errorMessage := Some(MissingPermissionsPrefix + Join(labels, ", "));
        } else if error.MissingPermission? {
          errorMessage := Some(Description(error));
        } else {
          errorMessage := Some(bridged);
        }
        UpdateWifiPermissionInLists(false);
    }

    /**
     * `fetchSSID`: the resolver's SSID on success with the message cleared;
     * "Unknown" and an error text on any failure, the exception's own text
     * for missing permissions and the bridged text for the rest.
     */
    method FetchSSID(status: AuthorizationStatus, first: Option<Network>, second: Option<Network>,
                     bridged: string)
      modifies this`ssid, this`errorMessage, coreResolver`ssid
      ensures IsAuthorized(status) && first.Some? && second.Some? ==>
                && ssid == second.value.ssid && errorMessage == None
                && coreResolver.ssid == Some(second.value.ssid)
      ensures !(IsAuthorized(status) && first.Some? && second.Some?) ==>
                && ssid == UnknownSsid && errorMessage.Some?
                && coreResolver.ssid == old(coreResolver.ssid)
      ensures !IsAuthorized(status) || first.None? ==>
                exists missing :: ListsMissing(missing, status, first)
                               && errorMessage == Some(Description(MissingPermission(missing)))
      ensures IsAuthorized(status) && first.Some? && second.None? ==> errorMessage == Some(bridged)
    {
      var r := coreResolver.FetchSSID(status, first, second);
      match r
      case Success(fetched) =>
        ssid := fetched;
        errorMessage := None;
      case Failure(error) =>
        ssid := UnknownSsid;
        if error.MissingPermission? {
          errorMessage := Some(Description(error));
        } else {
          errorMessage := Some(bridged);
        }
    }
  }

  /** First launch: the user is prompted, declines, and both permissions end up denied. */
  method DeclinedPromptScenario() {
    var vm := new SSIDResolverViewModel();
    var core := vm.coreResolver;
    core.RequestLocationPermission(1, NotDetermined);
    core.LocationManagerDidChangeAuthorization(Denied, None);
    assert core.delivered == [Delivery(1, Failure(MissingPermission([LocationAccess])))];
    vm.HandlePermissionResult(core.delivered[0].result, Denied, None, "bridged");
    assert LocLabel in vm.deniedPermissions.Values by {
      assert vm.deniedPermissions[LocKey] == LocLabel;
    }
    assert WifiKey in vm.deniedPermissions && vm.grantedPermissions == map[];
    StatusTextPolicy(vm.grantedPermissions, vm.deniedPermissions);
    assert vm.permissionStatus == AllDenied;
    assert map[] [LocKey := LocLabel] == map[LocKey := LocLabel];
    ListsOneDenied(vm.errorMessage.value, LocKey, LocLabel);
    assert vm.errorMessage == Some(MissingPermissionsPrefix + LocLabel);
  }

  /** Both permissions present: the fetched SSID is shown and stored by the resolver. */
  method SuccessfulFetchScenario() {
    var vm := new SSIDResolverViewModel();
    var home := Network("Home", "00:11:22:33:44:55");
    vm.CheckPermissionStatus(AuthorizedWhenInUse, Some(home));
    StatusReflectsPermissions(vm.grantedPermissions, vm.deniedPermissions);
    assert vm.permissionStatus == AllGranted;
    vm.FetchSSID(AuthorizedWhenInUse, Some(home), Some(home), "bridged");
    assert vm.ssid == "Home" && vm.errorMessage == None && vm.coreResolver.ssid == Some("Home");
  }
}
