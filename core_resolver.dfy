/**
 * `CoreSSIDResolver`: location authorisation and the current-network
 * lookup, turned into permission results and thrown errors.
 *
 * The platform is passed in: the authorisation status as a value, and
 * every `NEHotspotNetwork.fetchCurrent()` call as its own optional
 * network record. A completion closure is a `CompletionId`; calling it
 * appends a `Delivery` to the resolver's `delivered` log.
 */
module CoreResolver {
  import opened Wrappers

  /** `CLAuthorizationStatus`; `Unknown` is the `@unknown default` case. */
  datatype AuthorizationStatus =
    | NotDetermined
    | Restricted
    | Denied
    | AuthorizedWhenInUse
    | AuthorizedAlways
    | Unknown

  predicate IsAuthorized(status: AuthorizationStatus) {
    status.AuthorizedWhenInUse? || status.AuthorizedAlways?
  }

  /** What `NEHotspotNetwork.fetchCurrent()` reports (the signal strength is not modelled). */
  datatype Network = Network(ssid: string, bssid: string)

  /** `NetworkInfo` without its floating-point signal strength. */
  datatype NetworkInfo = NetworkInfo(ssid: string, bssid: string)

  /** `MissingPermissionException` and the two cases of `SSIDResolverError`. */
  datatype ResolverError =
    | MissingPermission(missing: seq<string>)
    | NoWifiConnection
    | UnknownError

  /** `Result<Bool, Error>` handed to a permission completion. */
  type PermissionResult = Result<bool, ResolverError>

  /** A completion closure, by identity. */
  type CompletionId = nat

  /** One call of a completion closure with its result. */
  datatype Delivery = Delivery(completion: CompletionId, result: PermissionResult)

  const LocationAccess: string := "Location Access"
  const WiFiInformationAccess: string := "WiFi Information Access"
  const MissingPrefix: string := "Aborting fetchSSID to prevent potential crash. Missing permissions for: "

  /** Swift's `joined(separator:)`. */
  function Join(parts: seq<string>, sep: string): (joined: string)
    ensures |parts| == 0 ==> joined == ""
    ensures |parts| >= 1 ==> parts[0] <= joined
    decreases |parts|
  {
    if |parts| == 0 then ""
    else if |parts| == 1 then parts[0]
    else parts[0] + sep + Join(parts[1..], sep)
  }

  /**
   * The `localizedDescription` each error type declares for itself. Only a
   * missing-permission description starts with the fixed prefix.
   */
  function Description(e: ResolverError): (text: string)
    ensures e.MissingPermission? <==> MissingPrefix <= text
  {
    match e
    case MissingPermission(missing) => MissingPrefix + Join(missing, ", ")
    case NoWifiConnection => "Not connected to any WiFi network"
    case UnknownError => "Unknown error occurred while fetching WiFi information"
  }

  /** Swift joins two labels with the separator between them. */
  lemma JoinTwo(a: string, b: string, sep: string)
    ensures Join([a, b], sep) == a + sep + b
  {
    assert [a, b][1..] == [b];
  }

  /** Joining one more part appends the separator and that part. */
  lemma {:induction false} JoinSnoc(parts: seq<string>, last: string, sep: string)
    requires |parts| >= 1
    ensures Join(parts + [last], sep) == Join(parts, sep) + sep + last
    decreases |parts|
  {
    if |parts| == 1 {
      assert parts + [last] == [parts[0], last];
      JoinTwo(parts[0], last, sep);
    } else {
      assert (parts + [last])[1..] == parts[1..] + [last];
      JoinSnoc(parts[1..], last, sep);
    }
  }

  /** A single missing permission is named right after the prefix. */
  lemma MissingDescriptionSingle(l: string)
    ensures Description(MissingPermission([l])) == MissingPrefix + l
  {
  }

  /**
   * Each further missing permission adds ", " and its label at the end, so the
   * description lists the labels in list order.
   */
  lemma MissingDescriptionExtends(missing: seq<string>, l: string)
    requires |missing| >= 1
    ensures Description(MissingPermission(missing + [l]))
         == Description(MissingPermission(missing)) + ", " + l
  {
    JoinSnoc(missing, l, ", ");
  }

  /** With two missing permissions the description names both, in list order. */
  lemma MissingDescriptionNamesBoth(first: string, second: string)
    ensures Description(MissingPermission([first, second]))
         == MissingPrefix + first + ", " + second
  {
    assert [first, second] == [first] + [second];
    MissingDescriptionExtends([first], second);
  }

  /** `CLAuthorizationStatus.debugDescription`. */
  function DebugDescription(status: AuthorizationStatus): (text: string)
    ensures |text| > 0 && 'a' <= text[0] <= 'z'
  {
    match status
    case NotDetermined => "notDetermined"
    case Restricted => "restricted"
    case Denied => "denied"
    case AuthorizedAlways => "authorizedAlways"
    case AuthorizedWhenInUse => "authorizedWhenInUse"
    case Unknown => "unknown"
  }

  /** Every status has its own debug text. */
  lemma DebugDescriptionInjective(s1: AuthorizationStatus, s2: AuthorizationStatus)
    requires DebugDescription(s1) == DebugDescription(s2)
    ensures s1 == s2
  {
    assert DebugDescription(s1)[..2] == DebugDescription(s2)[..2];
    assert |DebugDescription(s1)| == |DebugDescription(s2)|;
  }

  /** `checkAccessWiFiEntitlement`: entitled exactly when the lookup finds a network. */
  function CheckAccessWiFiEntitlement(lookup: Option<Network>): (entitled: bool)
    ensures entitled <==> lookup.Some?
  {
    lookup.Some?
  }

  /** `fetchNetworkInfo`: the current network's names, or `noWifiConnection`. */
  function FetchNetworkInfo(lookup: Option<Network>): (r: Result<NetworkInfo, ResolverError>)
    ensures r.Failure? <==> lookup.None?
    ensures r.Failure? ==> r.error == NoWifiConnection
    ensures r.Success? ==> r.value.ssid == lookup.value.ssid && r.value.bssid == lookup.value.bssid
  {
    match lookup
    case None => Failure(NoWifiConnection)
    case Some(network) => Success(NetworkInfo(network.ssid, network.bssid))
  }

  /**
   * The missing-permission list of `fetchSSID`: "Location Access" when
   * location is not authorised, "WiFi Information Access" when the first
   * lookup found nothing, one entry per missing permission, location first.
   */
  ghost predicate ListsMissing(missing: seq<string>, status: AuthorizationStatus, first: Option<Network>) {
    && (LocationAccess in missing <==> !IsAuthorized(status))
    && (WiFiInformationAccess in missing <==> first.None?)
    && |missing| == (if IsAuthorized(status) then 0 else 1) + (if first.Some? then 0 else 1)
    && (LocationAccess in missing ==> missing[0] == LocationAccess)
  }

  /** The memberships, the count and the order pin the list down completely. */
  lemma MissingListShape(missing: seq<string>, status: AuthorizationStatus, first: Option<Network>)
    requires ListsMissing(missing, status, first)
    ensures missing == (if IsAuthorized(status) then [] else [LocationAccess])
                     + (if first.Some? then [] else [WiFiInformationAccess])
  {
    if |missing| == 2 {
      assert LocationAccess != WiFiInformationAccess;
    }
  }

  /** The successive appends at the head of `fetchSSID`. */
  method CollectMissingPermissions(status: AuthorizationStatus, first: Option<Network>)
    returns (missing: seq<string>)
    ensures ListsMissing(missing, status, first)
  {
    missing := [];
    if !IsAuthorized(status) {
      missing := missing + [LocationAccess];
    }
    if first == None {
      missing := missing + [WiFiInformationAccess];
    }
  }

  class CoreSSIDResolver {
    /** The one pending-completion slot. */
    var permissionCompletion: Option<CompletionId>
    /** The last SSID fetched successfully. */
    var ssid: Option<string>
    var isLocationPermissionGranted: bool
    /** Every completion call so far, oldest first. */
    var delivered: seq<Delivery>
    /** How often the OS authorisation prompt was requested. */
    var authorizationPrompts: nat

    constructor ()
      ensures permissionCompletion == None && ssid == None && !isLocationPermissionGranted
      ensures delivered == [] && authorizationPrompts == 0
    {
      permissionCompletion := None;
      ssid := None;
      isLocationPermissionGranted := false;
      delivered := [];
      authorizationPrompts := 0;
    }

    /**
     * `requestLocationPermission`: the completion always takes the slot;
     * an undetermined status asks the OS and leaves the result to the
     * callback, every other status completes at once.
     */
    method RequestLocationPermission(completion: CompletionId, status: AuthorizationStatus)
      modifies this
      ensures permissionCompletion == Some(completion)
      ensures ssid == old(ssid) && isLocationPermissionGranted == old(isLocationPermissionGranted)
      ensures status.NotDetermined? ==>
                delivered == old(delivered) && authorizationPrompts == old(authorizationPrompts) + 1
      ensures !status.NotDetermined? ==> authorizationPrompts == old(authorizationPrompts)
      ensures status.Restricted? || status.Denied? ==>
                delivered == old(delivered) + [Delivery(completion, Failure(MissingPermission([LocationAccess])))]
      ensures IsAuthorized(status) ==> delivered == old(delivered) + [Delivery(completion, Success(true))]
      ensures status.Unknown? ==> delivered == old(delivered) + [Delivery(completion, Failure(UnknownError))]
    {
      permissionCompletion := Some(completion);
      match status
      case NotDetermined =>
        authorizationPrompts := authorizationPrompts + 1;
      case Restricted =>
        delivered := delivered + [Delivery(completion, Failure(MissingPermission([LocationAccess])))];
      case Denied =>
        delivered := delivered + [Delivery(completion, Failure(MissingPermission([LocationAccess])))];
      case AuthorizedWhenInUse =>
        delivered := delivered + [Delivery(completion, Success(true))];
      case AuthorizedAlways =>
        delivered := delivered + [Delivery(completion, Success(true))];
      case Unknown =>
        delivered := delivered + [Delivery(completion, Failure(UnknownError))];
    }

    /**
     * `locationManagerDidChangeAuthorization`, with the entitlement
     * refresh it schedules run as part of the same step (`lookup` is what
     * that refresh's lookup answers). With a pending completion and a
     * status that is still undetermined it returns early and changes
     * nothing; otherwise the pending completion, if any, is called once,
     * the slot is emptied and the entitlement flag refreshed.
     */
    method LocationManagerDidChangeAuthorization(status: AuthorizationStatus, lookup: Option<Network>)
      modifies this
      ensures ssid == old(ssid) && authorizationPrompts == old(authorizationPrompts)
      ensures old(permissionCompletion).Some? && status.NotDetermined? ==>
                && permissionCompletion == old(permissionCompletion)
                && delivered == old(delivered)
                && isLocationPermissionGranted == old(isLocationPermissionGranted)
      ensures !(old(permissionCompletion).Some? && status.NotDetermined?) ==>
                permissionCompletion == None && isLocationPermissionGranted == lookup.Some?
      ensures old(permissionCompletion).None? ==> delivered == old(delivered)
      ensures old(permissionCompletion).Some? && IsAuthorized(status) ==>
                delivered == old(delivered) + [Delivery(old(permissionCompletion).value, Success(true))]
      ensures old(permissionCompletion).Some? && (status.Restricted? || status.Denied?) ==>
                delivered == old(delivered)
                  + [Delivery(old(permissionCompletion).value, Failure(MissingPermission([LocationAccess])))]
      ensures old(permissionCompletion).Some? && status.Unknown? ==>
                delivered == old(delivered) + [Delivery(old(permissionCompletion).value, Failure(UnknownError))]
    {
      if permissionCompletion.Some? {
        var completion := permissionCompletion.value;
        match status
        case AuthorizedWhenInUse =>
          delivered := delivered + [Delivery(completion, Success(true))];
        case AuthorizedAlways =>
          delivered := delivered + [Delivery(completion, Success(true))];
        case Restricted =>
          delivered := delivered + [Delivery(completion, Failure(MissingPermission([LocationAccess])))];
        case Denied =>
          delivered := delivered + [Delivery(completion, Failure(MissingPermission([LocationAccess])))];
        case NotDetermined =>
          return;
        case Unknown =>
          delivered := delivered + [Delivery(completion, Failure(UnknownError))];
      }
      permissionCompletion := None;
      isLocationPermissionGranted := CheckAccessWiFiEntitlement(lookup);
    }

    /**
     * `fetchSSID`: `first` and `second` answer its two lookups. Missing
     * permissions are reported all at once; with both present, a second
     * lookup that finds nothing is `noWifiConnection`; only success
     * records the SSID.
     */
    method FetchSSID(status: AuthorizationStatus, first: Option<Network>, second: Option<Network>)
      returns (r: Result<string, ResolverError>)
      modifies this`ssid
      ensures (r.Failure? && r.error.MissingPermission?) <==> (!IsAuthorized(status) || first.None?)
      ensures r.Failure? && r.error.MissingPermission? ==> ListsMissing(r.error.missing, status, first)
      ensures r == Failure(NoWifiConnection) <==> IsAuthorized(status) && first.Some? && second.None?
      ensures r.Success? <==> IsAuthorized(status) && first.Some? && second.Some?
      ensures r.Success? ==> r.value == second.value.ssid
      ensures ssid == if r.Success? then Some(r.value) else old(ssid)
    {
      var missing := CollectMissingPermissions(status, first);
      if missing != [] {
        assert missing[0] in missing;
        return Failure(MissingPermission(missing));
      }
      if second == None {
        return Failure(NoWifiConnection);
      }
      ssid := Some(second.value.ssid);
      return Success(second.value.ssid);
    }
  }

  /** A request made before the user answers is completed by the callback, once. */
  method PromptThenDenyScenario() {
    var resolver := new CoreSSIDResolver();
    resolver.RequestLocationPermission(1, NotDetermined);
    assert resolver.delivered == [] && resolver.authorizationPrompts == 1;
    resolver.LocationManagerDidChangeAuthorization(NotDetermined, None);
    assert resolver.permissionCompletion == Some(1) && resolver.delivered == [];
    resolver.LocationManagerDidChangeAuthorization(Denied, None);
    assert resolver.delivered == [Delivery(1, Failure(MissingPermission(["Location Access"])))];
    assert resolver.permissionCompletion == None && !resolver.isLocationPermissionGranted;
    resolver.LocationManagerDidChangeAuthorization(AuthorizedWhenInUse, Some(Network("Home", "aa")));
    assert |resolver.delivered| == 1 && resolver.isLocationPermissionGranted;
  }

  /** A second request overwrites the slot: the first completion is never called. */
  method OverwrittenRequestScenario() {
    var resolver := new CoreSSIDResolver();
    resolver.RequestLocationPermission(1, NotDetermined);
    resolver.RequestLocationPermission(2, NotDetermined);
    resolver.LocationManagerDidChangeAuthorization(AuthorizedAlways, Some(Network("Home", "aa")));
    assert resolver.delivered == [Delivery(2, Success(true))];
  }

  /**
   * An immediate completion leaves the completion in the slot, so the
   * next authorisation callback calls it a second time.
   */
  method ImmediateCompletionStaysPendingScenario() {
    var resolver := new CoreSSIDResolver();
    resolver.RequestLocationPermission(7, Denied);
    assert resolver.permissionCompletion == Some(7);
    resolver.LocationManagerDidChangeAuthorization(Denied, None);
    var denied := Delivery(7, Failure(MissingPermission([LocationAccess])));
    assert resolver.delivered == [denied, denied];
  }

  /** The fetch outcomes for the four combinations of permissions and lookups. */
  method FetchScenarios() {
    var resolver := new CoreSSIDResolver();
    var home := Network("Home", "00:11:22:33:44:55");
    var r := resolver.FetchSSID(Denied, None, None);
    MissingListShape(r.error.missing, Denied, None);
    assert [LocationAccess] + [WiFiInformationAccess] == ["Location Access", "WiFi Information Access"];
    assert r == Failure(MissingPermission(["Location Access", "WiFi Information Access"]));
    r := resolver.FetchSSID(AuthorizedWhenInUse, None, Some(home));
    MissingListShape(r.error.missing, AuthorizedWhenInUse, None);
    assert [] + [WiFiInformationAccess] == ["WiFi Information Access"];
    assert r == Failure(MissingPermission(["WiFi Information Access"]));
    assert resolver.ssid == None;
    r := resolver.FetchSSID(AuthorizedAlways, Some(home), None);
    assert r == Failure(NoWifiConnection) && resolver.ssid == None;
    r := resolver.FetchSSID(AuthorizedWhenInUse, Some(home), Some(home));
    assert r == Success("Home") && resolver.ssid == Some("Home");
  }
}
