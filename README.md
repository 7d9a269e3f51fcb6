# SSID resolver: a Dafny model

This project models the deterministic core of `ssid-resolver-ios`, an iOS screen that shows the SSID of the
current WiFi network once the app has location access and can read WiFi information.

- **Core resolver** (`core_resolver.dfy`, module `CoreResolver`) models `CoreSSIDResolver`. It covers:
  - the authorization status and how it maps to an immediate permission result or to "pending";
  - the delegate callback, a state machine over one pending-completion slot;
  - `fetchSSID` with its missing-permission list, `noWifiConnection` and the stored SSID;
  - `checkAccessWiFiEntitlement` and `fetchNetworkInfo`;
  - the error types and their descriptions, and `debugDescription`.
  The resolver is a class with the source's fields. A completion closure is a `CompletionId`. Calling a
  completion appends a `Delivery` to the `delivered` log, so "called exactly once" can be stated.
  Each request for the OS prompt adds one to `authorizationPrompts`.
- **View model** (`view_model.dfy`, module `ViewModel`) models `SSIDResolverViewModel`. It is a class with
  the `grantedPermissions` and `deniedPermissions` maps keyed by `"loc"` and `"wifi"`, the status line,
  `ssid` and `errorMessage`. It also has:
  - the completion closure passed by `requestPermission` (`HandlePermissionResult`), with its follow-up task
    (`RefreshWifiAfterGrant`);
  - `fetchSSID`, which calls the resolver class.
- **Hex colours** (`hex_color.dfy`, module `HexColor`) models the integer part of `Color(hex:)`:
  trimming, the hex scan and the split into (a, r, g, b) by digit count. Round trips are proved
  against an independent encoder (`RgbHex`, `ArgbHex`).
- `wrappers.dfy` holds `Option` (Swift optionals) and `Result` (Swift `Result` and thrown errors).

The platform's answers are parameters:
- the authorization status (`AuthorizationStatus`);
- each `NEHotspotNetwork.fetchCurrent()` call, as its own `Option<Network>`. `fetchSSID` makes two such
  calls, and the two answers may differ;
- the text the platform gives an error through `NSError` bridging (`bridged`).

Swift shifts and masks on `UInt64` are written as division and remainder by powers of two. The values these
cases reach are below 2^32, so the two agree.

Behaviour the model keeps exactly as the code has it, although some of it looks unintended:
- `requestLocationPermission` always writes the new completion into the slot, so a second request overwrites
  a pending one.
- When it completes at once, it leaves the completion in the slot. The next authorization callback whose status
  is not `NotDetermined` then calls the same completion a second time (`ImmediateCompletionStaysPendingScenario`).
- The callback returns early only when a completion is pending and the status is still undetermined. With
  no completion pending it empties the slot and refreshes the entitlement flag whatever the status.
- The status line reads "All permissions granted" whenever the denied table is empty, including when only
  "loc" has been tracked and granted, as during the `await` in `checkPermissionStatus`
  (`SSIDResolverViewModel.swift:25-28`). It reads "All permissions denied" only when the denied table is non-empty
  and the granted table is empty.
- On the failure path the message is computed after the location update and before WiFi is forced to
  denied. It can therefore leave out the WiFi label that the same step then denies.

## Model

| member | source | states |
|---|---|---|
| `CoreResolver.CoreSSIDResolver.constructor` | ssid-resolver-ios/src/core/CoreSSIDResolver.swift:32-42 | no pending completion, no SSID, entitlement flag false, nothing delivered |
| `CoreResolver.CoreSSIDResolver.RequestLocationPermission` | ssid-resolver-ios/src/core/CoreSSIDResolver.swift:44-64 | the completion always takes the slot; NotDetermined prompts the OS once and delivers nothing; Restricted/Denied delivers MissingPermission(["Location Access"]); authorised delivers success(true); Unknown delivers the unknown error; each immediate result is delivered exactly once |
| `CoreResolver.CheckAccessWiFiEntitlement` | ssid-resolver-ios/src/core/CoreSSIDResolver.swift:67-73 | entitled iff the lookup returns a network |
| `CoreResolver.CoreSSIDResolver.LocationManagerDidChangeAuthorization` | ssid-resolver-ios/src/core/CoreSSIDResolver.swift:75-101 | with a pending completion and NotDetermined nothing changes (slot kept, no refresh); otherwise the pending completion (if any) is delivered exactly once with the status's result, the slot is cleared and the entitlement flag equals "lookup found a network" |
| `CoreResolver.CollectMissingPermissions` | ssid-resolver-ios/src/core/CoreSSIDResolver.swift:106-116 | "Location Access" is listed iff the status is not authorised, "WiFi Information Access" iff the first lookup is nil, one entry per missing permission, location first |
| `CoreResolver.MissingListShape` | ssid-resolver-ios/src/core/CoreSSIDResolver.swift:106-116 | those memberships, the count and the order determine the list: exactly [Location Access] if needed followed by [WiFi Information Access] if needed |
| `CoreResolver.CoreSSIDResolver.FetchSSID` | ssid-resolver-ios/src/core/CoreSSIDResolver.swift:103-133 | missing-permission error iff unauthorised or first lookup nil, carrying exactly the list above; noWifiConnection iff permissions pass and the second lookup is nil; success iff both pass, returning the second lookup's ssid; `ssid` changes only on success, to that value |
| `CoreResolver.FetchNetworkInfo` | ssid-resolver-ios/src/core/CoreSSIDResolver.swift:136-146 | noWifiConnection iff the lookup is nil; otherwise ssid and bssid copied unchanged |
| `CoreResolver.Join` | ssid-resolver-ios/src/core/CoreSSIDResolver.swift:13 | `joined(separator:)`: no parts give the empty string, and the result starts with the first part; `JoinTwo` and `JoinSnoc` give its exact shape |
| `CoreResolver.Description` | ssid-resolver-ios/src/core/CoreSSIDResolver.swift:12-28 | a description starts with "Aborting fetchSSID to prevent potential crash. Missing permissions for: " iff the error is a missing-permission error |
| `CoreResolver.MissingDescriptionSingle` | ssid-resolver-ios/src/core/CoreSSIDResolver.swift:12-14 | with one missing permission the description is the prefix followed by its label |
| `CoreResolver.MissingDescriptionExtends` | ssid-resolver-ios/src/core/CoreSSIDResolver.swift:12-14 | each further missing permission appends ", " and its label, so the labels appear in list order |
| `CoreResolver.JoinSnoc` | ssid-resolver-ios/src/core/CoreSSIDResolver.swift:13 | joining one more part appends the separator and that part |
| `CoreResolver.MissingDescriptionNamesBoth` | ssid-resolver-ios/src/core/CoreSSIDResolver.swift:12-14 | with two missing permissions (as `fetchSSID` lists "Location Access" and "WiFi Information Access") the description is the prefix, the first label, ", " and the second |
| `CoreResolver.JoinTwo` | ssid-resolver-ios/src/core/CoreSSIDResolver.swift:13 | joining two labels puts the separator between them |
| `CoreResolver.DebugDescription` | ssid-resolver-ios/src/core/CoreSSIDResolver.swift:156-167 | the six case texts; its contract says only that each is non-empty and starts with a lower-case letter, and `DebugDescriptionInjective` is the property proved about it |
| `CoreResolver.DebugDescriptionInjective` | ssid-resolver-ios/src/core/CoreSSIDResolver.swift:156-167 | different statuses have different debug texts |
| `ViewModel.SSIDResolverViewModel.constructor` | ssid-resolver-ios/src/app/SSIDResolverViewModel.swift:6-12 | initial SSID, status and nil message; both tables empty; a fresh resolver with nothing pending |
| `ViewModel.SSIDResolverViewModel.UpdatePermissionStatus` | ssid-resolver-ios/src/app/SSIDResolverViewModel.swift:35-43 | the status line becomes the one the tables call for; nothing else changes |
| `ViewModel.StatusTextPolicy` | ssid-resolver-ios/src/app/SSIDResolverViewModel.swift:35-43 | "All permissions granted" iff denied is empty; "All permissions denied" iff denied is non-empty and granted empty; "Some permissions denied" iff both are non-empty |
| `ViewModel.StatusReflectsPermissions` | ssid-resolver-ios/src/app/SSIDResolverViewModel.swift:35-43 | once both keys are tracked: all granted iff both permissions are granted, all denied iff both are denied, some denied iff exactly one is granted |
| `ViewModel.SSIDResolverViewModel.UpdateLocPermissionInLists` | ssid-resolver-ios/src/app/SSIDResolverViewModel.swift:45-59 | "loc" goes to granted with its label and leaves denied iff the status is authorised, the reverse otherwise; no other entry changes; the tables stay well formed; the status line is recomputed |
| `ViewModel.SSIDResolverViewModel.UpdateWifiPermissionInLists` | ssid-resolver-ios/src/app/SSIDResolverViewModel.swift:61-71 | "wifi" is in granted iff entitled and in denied iff not; no other entry changes; the status line is recomputed |
| `ViewModel.SSIDResolverViewModel.CheckPermissionStatus` | ssid-resolver-ios/src/app/SSIDResolverViewModel.swift:19-32 | both keys end in exactly one table; location granted iff authorised; WiFi granted iff authorised and the lookup finds a network; unauthorised forces WiFi denied whatever the lookup says; WiFi granted implies location granted |
| `ViewModel.ValuesInSomeOrder` | ssid-resolver-ios/src/app/SSIDResolverViewModel.swift:101-102 | the dictionary's values, one per key, in some order |
| `ViewModel.ListsOneDenied` | ssid-resolver-ios/src/app/SSIDResolverViewModel.swift:101-102 | with one denied entry the message is "Missing permissions: " followed by that label |
| `ViewModel.JoinEitherOrder` | ssid-resolver-ios/src/app/SSIDResolverViewModel.swift:93 | two distinct values listed in an unknown order are joined as "a, b" or as "b, a" |
| `ViewModel.ListsBothDenied` | ssid-resolver-ios/src/app/SSIDResolverViewModel.swift:92-94 | with both denied the message names both labels, in one order or the other |
| `ViewModel.SSIDResolverViewModel.RefreshWifiAfterGrant` | ssid-resolver-ios/src/app/SSIDResolverViewModel.swift:88-95 | "wifi" follows the lookup and "loc" stays where it was; a non-empty denied table sets the message to the denied labels; an empty one leaves the message unchanged |
| `ViewModel.SSIDResolverViewModel.HandlePermissionResult` | ssid-resolver-ios/src/app/SSIDResolverViewModel.swift:79-111 | location follows the current status; on success the message is cleared, WiFi follows the lookup and the message is nil iff nothing is denied; on failure WiFi is denied and the message lists the labels denied after the location update, or else is the missing-permission description, or else the bridged text |
| `ViewModel.SSIDResolverViewModel.FetchSSID` | ssid-resolver-ios/src/app/SSIDResolverViewModel.swift:116-131 | success shows the fetched SSID, clears the message and stores it in the resolver; any failure shows "Unknown" with a non-nil message: the description of the exact missing list, or the bridged text for noWifiConnection |
| `HexColor.Trim` | ssid-resolver-ios/src/app/SSIDResolverView.swift:140 | the result is no longer than the input and is empty or begins and ends alphanumeric |
| `HexColor.TrimOnlyEnds` | ssid-resolver-ios/src/app/SSIDResolverView.swift:140 | exactly the non-alphanumeric characters at the two ends are removed; inner ones stay |
| `HexColor.DecodeIgnoresEnds` | ssid-resolver-ios/src/app/SSIDResolverView.swift:140 | the colour depends only on the trimmed string |
| `HexColor.HashPrefixIgnored` | ssid-resolver-ios/src/app/SSIDResolverView.swift:140 | for any suffix, a leading '#' changes nothing, so "#RRGGBB" counts as 6 digits |
| `HexColor.ScanHex` | ssid-resolver-ios/src/app/SSIDResolverView.swift:141-142 | the scanned value is below 16 to the power of the digit count |
| `HexColor.ScanAllHex` | ssid-resolver-ios/src/app/SSIDResolverView.swift:142 | on a string of hex digits the scan is the base-16 value of the whole string |
| `HexColor.Decode` | ssid-resolver-ios/src/app/SSIDResolverView.swift:139-153 | every component lies in 0..255 for every input; a trimmed digit count other than 3, 6 or 8 gives (1, 1, 1, 0) |
| `HexColor.Widen12` | ssid-resolver-ios/src/app/SSIDResolverView.swift:145-146 | 3 digits: alpha 255 and every channel in 0..255 |
| `HexColor.Split24` | ssid-resolver-ios/src/app/SSIDResolverView.swift:147-148 | 6 digits: alpha 255 and every channel in 0..255 |
| `HexColor.Split32` | ssid-resolver-ios/src/app/SSIDResolverView.swift:149-150 | 8 digits: all four components in 0..255 |
| `HexColor.DecodeShortForm` | ssid-resolver-ios/src/app/SSIDResolverView.swift:145-146 | "xyz" gives (255, 17x, 17y, 17z) |
| `HexColor.ShortFormDoublesDigits` | ssid-resolver-ios/src/app/SSIDResolverView.swift:145-146 | "xyz" decodes like "xxyyzz" |
| `HexColor.RgbRoundTrip` | ssid-resolver-ios/src/app/SSIDResolverView.swift:147-148 | decoding the 6-digit spelling of (r, g, b) gives (255, r, g, b) |
| `HexColor.ArgbRoundTrip` | ssid-resolver-ios/src/app/SSIDResolverView.swift:149-150 | decoding the 8-digit spelling of (a, r, g, b) gives (a, r, g, b): alpha from the top byte |
| `HexColor.OrangeColour` | ssid-resolver-ios/src/app/SSIDResolverView.swift:7 | "FFA500" gives (255, 255, 165, 0) |
| `HexColor.HashPrefixedOrange` | ssid-resolver-ios/src/app/SSIDResolverView.swift:140 | "#FFA500" gives (255, 255, 165, 0) |
| `HexColor.BackgroundColour` | ssid-resolver-ios/src/app/SSIDResolverView.swift:8 | "2A4683" gives (255, 42, 70, 131) |
| `HexColor.ShortWhite` | ssid-resolver-ios/src/app/SSIDResolverView.swift:145-146 | "FFF" gives 255 in every component |
| `HexColor.HalfTransparentRed` | ssid-resolver-ios/src/app/SSIDResolverView.swift:149-150 | "80FF0000" gives (128, 255, 0, 0) |
| `HexColor.FiveDigitsFallBack` | ssid-resolver-ios/src/app/SSIDResolverView.swift:151-152 | "12345" gives the fallback (1, 1, 1, 0) |

## Left out

- CLLocationManager, NEHotspotNetwork and the OS prompt are not modelled. Their answers are parameters, and
  the prompt is counted in `authorizationPrompts`.
- Task, DispatchQueue, @MainActor and `[weak self]` are left out. Each callback, main-queue block and task
  body is one sequential step, and the view model is always alive. Overlapping `requestPermission` calls are
  not modelled.
- `requestPermission` itself only passes its closure to the resolver. Callers compose the resolver's methods
  with `HandlePermissionResult` (see `DeclinedPromptScenario`).
- `LocationManagerDidChangeAuthorization`: the entitlement task it schedules runs inside the same step, with
  its lookup as a parameter.
- Floating point is left out: the `Double(r) / 255` conversions in `Color(hex:)` and the `signalStrength`
  of `NetworkInfo`.
- The SwiftUI `body`, `isLoading`, `print` logging and the unused `requiredPermissions` list are UI or
  diagnostics.
- `SSIDResolverError.localizedDescription` is modelled (`Description`), but the view model shows these
  errors through `NSError` bridging, whose text is platform-defined. It is the `bridged` parameter.
- ViewModel.SSIDResolverViewModel.HandlePermissionResult: on success, the main-queue block
  (`SSIDResolverViewModel.swift:82-85`) and the `Task` it spawns (`:88-95`, `RefreshWifiAfterGrant`) run as one
  step, with the task's lookup as a parameter; nothing else can run between them.
- ViewModel.SSIDResolverViewModel.HandlePermissionResult: the message's labels are stated as the set of
  denied values, not in an order, because Swift dictionary order is unspecified.
- ViewModel.SSIDResolverViewModel.RefreshWifiAfterGrant: the same, for the same reason.
- HexColor.Trim: only ASCII letters and digits count as alphanumeric. Other Unicode letters and digits, and
  grapheme-cluster counting in `count`, are not modelled.
- HexColor.ScanHex: the value is the leading run of hex digits. The scanner's optional `0x` prefix and its
  `UInt64` overflow are not modelled. Overflow cannot affect the 3, 6 and 8 digit cases.
