/** `LocationRepository.getCurrentLocation`: the short-circuiting cascade that
    turns what the device reports into one `UserLocationResult`. The device is
    a record of its answers; the cascade is a pure function of that record that
    also returns the platform calls it made, in order, and how long it waited
    on fresh fixes. */
module LocationRepository {
  import opened Model

  datatype Permission = AccessFineLocation | AccessCoarseLocation

  datatype Provider = GpsProvider | NetworkProvider

  datatype Priority = PriorityHighAccuracy | PriorityLowPower

  /** The fields `requestFreshLocation` sets on its `LocationRequest`. */
  datatype LocationRequest = LocationRequest(
    priority: Priority,
    numUpdates: nat,
    intervalMs: nat,
    fastestIntervalMs: nat,
    maxWaitTimeMs: nat
  )

  /** What awaiting the fused client's `lastLocation` task yields. */
  datatype LastLocation = LastThrows | LastNull | LastFix(fix: Coordinate)

  /** How one single-update request plays out: `requestLocationUpdates`
      throws a `SecurityException`; or the callback fires `afterMs`
      milliseconds after registration with a result whose `lastLocation` is
      `fix`; or it never fires. */
  datatype FreshResponse =
    | RequestThrowsSecurity
    | Delivers(afterMs: nat, fix: Option<Coordinate>)
    | NeverDelivers

  /** Everything the device would answer during one call. */
  datatype Platform = Platform(
    fineGranted: bool,
    coarseGranted: bool,
    gpsEnabled: bool,
    networkEnabled: bool,
    lastLocation: LastLocation,
    highAccuracy: FreshResponse,
    lowPower: FreshResponse
  )

  /** One call into the platform. */
  datatype Step =
    | CheckPermission(permission: Permission)
    | CheckProvider(provider: Provider)
    | AwaitLastLocation
    | RequestUpdates(request: LocationRequest, timeoutMs: nat)

  datatype Resolution = Resolution(outcome: UserLocationResult, trace: seq<Step>, waitedMs: nat)

  const HighAccuracyTimeoutMs: nat := 15_000
  const LowPowerTimeoutMs: nat := 8_000
  const NullFixMessage := "Location result was null"
  const UnavailableMessage := "LOCATION_UNAVAILABLE"

  /** `hasLocationPermission`: fine or coarse; the coarse check is only made
      when fine is not granted. */
  function HasLocationPermission(p: Platform): (r: (bool, seq<Step>))
    ensures r.0 <==> p.fineGranted || p.coarseGranted
    ensures |r.1| > 0 && r.1[0] == CheckPermission(AccessFineLocation)
    ensures CheckPermission(AccessCoarseLocation) in r.1 <==> !p.fineGranted
    ensures forall s :: s in r.1 ==> s.CheckPermission?
  {
    if p.fineGranted then (true, [CheckPermission(AccessFineLocation)])
    else (p.coarseGranted, [CheckPermission(AccessFineLocation), CheckPermission(AccessCoarseLocation)])
  }

  /** `isLocationEnabled`: GPS or network; the network provider is only
      queried when GPS is off. */
  function IsLocationEnabled(p: Platform): (r: (bool, seq<Step>))
    ensures r.0 <==> p.gpsEnabled || p.networkEnabled
    ensures |r.1| > 0 && r.1[0] == CheckProvider(GpsProvider)
    ensures CheckProvider(NetworkProvider) in r.1 <==> !p.gpsEnabled
    ensures forall s :: s in r.1 ==> s.CheckProvider?
  {
    if p.gpsEnabled then (true, [CheckProvider(GpsProvider)])
    else (p.networkEnabled, [CheckProvider(GpsProvider), CheckProvider(NetworkProvider)])
  }

  /** The request `requestFreshLocation(highAccuracy)` registers. */
  function BuildRequest(highAccuracy: bool): LocationRequest
  {
    LocationRequest(
      if highAccuracy then PriorityHighAccuracy else PriorityLowPower,
      1,
      2000,
      1000,
      if highAccuracy then 10_000 else 7_000)
  }

  /** `withTimeoutOrNull(timeoutMs) { requestFreshLocation(..) }`: the result,
      or None when the time ran out first, and how long the caller waited. A
      callback firing at exactly the deadline is counted as too late. */
  function AwaitFresh(response: FreshResponse, timeoutMs: nat): (r: (Option<UserLocationResult>, nat))
    ensures r.1 <= timeoutMs
    ensures r.0.None? <==> r.1 == timeoutMs && !response.RequestThrowsSecurity?
    ensures r.0 == Some(PermissionDenied) <==> response.RequestThrowsSecurity?
    ensures response.RequestThrowsSecurity? ==> r == (Some(PermissionDenied), 0)
    ensures r.0.Some? && r.0.value.Success? <==>
      response.Delivers? && response.afterMs < timeoutMs && response.fix.Some?
    ensures r.0.Some? && r.0.value.Success? ==>
      r.0.value == Success(response.fix.value.latitude, response.fix.value.longitude)
    ensures r.0.Some? && r.0.value.Error? ==> r.0.value.message == NullFixMessage
    ensures r.0 != Some(LocationDisabled)
    ensures response.Delivers? && response.afterMs < timeoutMs ==> r.1 == response.afterMs
    ensures response.Delivers? && response.afterMs < timeoutMs && response.fix.None? ==>
      r.0 == Some(Error(NullFixMessage))
    ensures TimesOut(response, timeoutMs) ==> r == (None, timeoutMs)
  {
    match response
    case RequestThrowsSecurity => (Some(PermissionDenied), 0)
    case Delivers(afterMs, fix) =>
      if afterMs < timeoutMs then
        (Some(if fix.Some? then Success(fix.value.latitude, fix.value.longitude) else Error(NullFixMessage)), afterMs)
      else (None, timeoutMs)
    case NeverDelivers => (None, timeoutMs)
  }

  /** The request yields nothing before its deadline: its callback never
      fires, or fires at or after the deadline. */
  predicate TimesOut(response: FreshResponse, timeoutMs: nat)
  {
    response.NeverDelivers? || (response.Delivers? && response.afterMs >= timeoutMs)
  }

  /** `getCurrentLocation`. */
  function GetCurrentLocation(p: Platform): (r: Resolution)
    ensures r.waitedMs <= HighAccuracyTimeoutMs + LowPowerTimeoutMs
    // no permission: denied before anything else is asked of the device
    ensures !(p.fineGranted || p.coarseGranted) ==>
      r.outcome == PermissionDenied && r.waitedMs == 0 &&
      forall s :: s in r.trace ==> s.CheckPermission?
    // permission but no provider: disabled, and no location is requested
    ensures (p.fineGranted || p.coarseGranted) && !(p.gpsEnabled || p.networkEnabled) ==>
      r.outcome == LocationDisabled && r.waitedMs == 0 &&
      forall s :: s in r.trace ==> s.CheckPermission? || s.CheckProvider?
    // a cached fix is returned as it is, and no fresh fix is requested
    ensures (p.fineGranted || p.coarseGranted) && (p.gpsEnabled || p.networkEnabled) && p.lastLocation.LastFix? ==>
      r.outcome == Success(p.lastLocation.fix.latitude, p.lastLocation.fix.longitude) &&
      r.waitedMs == 0 &&
      AwaitLastLocation in r.trace &&
      forall s :: s in r.trace ==> !s.RequestUpdates?
  {
    var (permitted, permissionSteps) := HasLocationPermission(p);
    if !permitted then
      Resolution(PermissionDenied, permissionSteps, 0)
    else
      var (enabled, providerSteps) := IsLocationEnabled(p);
      var checks := permissionSteps + providerSteps;
      if !enabled then
        Resolution(LocationDisabled, checks, 0)
      else
        var cached := checks + [AwaitLastLocation];
        if p.lastLocation.LastFix? then
          Resolution(Success(p.lastLocation.fix.latitude, p.lastLocation.fix.longitude), cached, 0)
        else
          var (gpsResult, gpsWait) := AwaitFresh(p.highAccuracy, HighAccuracyTimeoutMs);
          var gpsTried := cached + [RequestUpdates(BuildRequest(true), HighAccuracyTimeoutMs)];
          if gpsResult.Some? && gpsResult.value.Success? then
            Resolution(gpsResult.value, gpsTried, gpsWait)
          else
            var (networkResult, networkWait) := AwaitFresh(p.lowPower, LowPowerTimeoutMs);
            Resolution(
              networkResult.GetOr(Error(UnavailableMessage)),
              gpsTried + [RequestUpdates(BuildRequest(false), LowPowerTimeoutMs)],
              gpsWait + networkWait)
  }

  predicate Permitted(p: Platform)
  {
    p.fineGranted || p.coarseGranted
  }

  predicate ProviderEnabled(p: Platform)
  {
    p.gpsEnabled || p.networkEnabled
  }

  /** The cascade gets as far as asking for fresh fixes. */
  predicate ReachesFreshFix(p: Platform)
  {
    Permitted(p) && ProviderEnabled(p) && !p.lastLocation.LastFix?
  }

  /** The request answers with a location before its deadline. */
  predicate FreshSucceeds(response: FreshResponse, timeoutMs: nat)
  {
    response.Delivers? && response.afterMs < timeoutMs && response.fix.Some?
  }

  /** A cached lookup that throws and one that yields null lead to the same
      result, trace and waiting time: the failure is swallowed, and the
      high-accuracy request is the next thing issued. */
  lemma LookupFailureSwallowed(p: Platform)
    requires Permitted(p) && ProviderEnabled(p)
    ensures GetCurrentLocation(p.(lastLocation := LastThrows)) == GetCurrentLocation(p.(lastLocation := LastNull))
    ensures var r := GetCurrentLocation(p.(lastLocation := LastThrows));
      exists k :: 0 <= k < |r.trace| - 1 &&
        r.trace[k] == AwaitLastLocation &&
        r.trace[k + 1] == RequestUpdates(BuildRequest(true), HighAccuracyTimeoutMs)
  {
    var q := p.(lastLocation := LastThrows);
    var r := GetCurrentLocation(q);
    var checks := HasLocationPermission(q).1 + IsLocationEnabled(q).1;
    var gpsTried := checks + [AwaitLastLocation] + [RequestUpdates(BuildRequest(true), HighAccuracyTimeoutMs)];
    assert r.trace[..|gpsTried|] == gpsTried;
    assert r.trace[|checks|] == gpsTried[|checks|];
    assert r.trace[|checks| + 1] == gpsTried[|checks| + 1];
  }

  /** A high-accuracy fix in time is the answer, and the low-power tier is
      never asked. */
  lemma HighAccuracyFixReturned(p: Platform)
    requires ReachesFreshFix(p)
    requires FreshSucceeds(p.highAccuracy, HighAccuracyTimeoutMs)
    ensures var r := GetCurrentLocation(p);
      && r.outcome == Success(p.highAccuracy.fix.value.latitude, p.highAccuracy.fix.value.longitude)
      && r.waitedMs == p.highAccuracy.afterMs
      && RequestUpdates(BuildRequest(false), LowPowerTimeoutMs) !in r.trace
  {
  }

  /** Anything short of a high-accuracy fix in time (a timeout, a null fix,
      a security exception) falls through to one low-power request, whose
      result is returned whatever it is; its timeout becomes
      `Error("LOCATION_UNAVAILABLE")`. */
  lemma LowPowerFallback(p: Platform)
    requires ReachesFreshFix(p)
    requires !FreshSucceeds(p.highAccuracy, HighAccuracyTimeoutMs)
    ensures var r := GetCurrentLocation(p);
      && |r.trace| > 0
      && r.trace[|r.trace| - 1] == RequestUpdates(BuildRequest(false), LowPowerTimeoutMs)
      && (FreshSucceeds(p.lowPower, LowPowerTimeoutMs) ==>
            r.outcome == Success(p.lowPower.fix.value.latitude, p.lowPower.fix.value.longitude))
      && (p.lowPower.Delivers? && p.lowPower.afterMs < LowPowerTimeoutMs && p.lowPower.fix.None? ==>
            r.outcome == Error(NullFixMessage))
      && (p.lowPower.RequestThrowsSecurity? ==> r.outcome == PermissionDenied)
      && (TimesOut(p.lowPower, LowPowerTimeoutMs) ==> r.outcome == Error(UnavailableMessage))
  {
  }

  /** When both fresh requests run out of time the caller has waited the
      full 15 s plus 8 s. */
  lemma BothTimeoutsExhausted(p: Platform)
    requires ReachesFreshFix(p)
    requires TimesOut(p.highAccuracy, HighAccuracyTimeoutMs)
    requires TimesOut(p.lowPower, LowPowerTimeoutMs)
    ensures GetCurrentLocation(p).outcome == Error(UnavailableMessage)
    ensures GetCurrentLocation(p).waitedMs == 23_000
  {
  }

  /** Which outcome the cascade produces, stated against the device's
      answers, in both directions. */
  lemma OutcomeClassification(p: Platform)
    ensures GetCurrentLocation(p).outcome.Success? <==>
      Permitted(p) && ProviderEnabled(p) &&
      (p.lastLocation.LastFix? || FreshSucceeds(p.highAccuracy, HighAccuracyTimeoutMs) || FreshSucceeds(p.lowPower, LowPowerTimeoutMs))
    ensures GetCurrentLocation(p).outcome == LocationDisabled <==> Permitted(p) && !ProviderEnabled(p)
    ensures GetCurrentLocation(p).outcome == PermissionDenied <==>
      !Permitted(p) ||
      (ReachesFreshFix(p) && !FreshSucceeds(p.highAccuracy, HighAccuracyTimeoutMs) && p.lowPower.RequestThrowsSecurity?)
    ensures GetCurrentLocation(p).outcome.Error? <==>
      ReachesFreshFix(p) && !FreshSucceeds(p.highAccuracy, HighAccuracyTimeoutMs) &&
      !FreshSucceeds(p.lowPower, LowPowerTimeoutMs) && !p.lowPower.RequestThrowsSecurity?
    ensures GetCurrentLocation(p).outcome.Error? ==>
      GetCurrentLocation(p).outcome.message in {NullFixMessage, UnavailableMessage}
  {
  }

  /** The position of each platform call in the cascade. */
  function StepRank(s: Step): nat
  {
    match s
    case CheckPermission(AccessFineLocation) => 0
    case CheckPermission(AccessCoarseLocation) => 1
    case CheckProvider(GpsProvider) => 2
    case CheckProvider(NetworkProvider) => 3
    case AwaitLastLocation => 4
    case RequestUpdates(request, _) => if request.priority == PriorityHighAccuracy then 5 else 6
  }

  predicate InCascadeOrder(trace: seq<Step>)
  {
    forall i, j :: 0 <= i < j < |trace| ==> StepRank(trace[i]) < StepRank(trace[j])
  }

  predicate RanksBelow(trace: seq<Step>, n: nat)
  {
    forall i :: 0 <= i < |trace| ==> StepRank(trace[i]) < n
  }

  lemma AppendInOrder(trace: seq<Step>, s: Step)
    requires InCascadeOrder(trace)
    requires RanksBelow(trace, StepRank(s))
    ensures InCascadeOrder(trace + [s])
    ensures RanksBelow(trace + [s], StepRank(s) + 1)
  {
  }

  /** Each platform call is made at most once and in cascade order, always
      starting with the fine-permission check. */
  lemma ChecksInOrder(p: Platform)
    ensures var ps := HasLocationPermission(p).1;
      InCascadeOrder(ps) && RanksBelow(ps, 2)
    ensures var checks := HasLocationPermission(p).1 + IsLocationEnabled(p).1;
      InCascadeOrder(checks) && RanksBelow(checks, 4)
  {
    var ps := HasLocationPermission(p).1;
    AppendInOrder([], CheckPermission(AccessFineLocation));
    if !p.fineGranted {
      AppendInOrder([CheckPermission(AccessFineLocation)], CheckPermission(AccessCoarseLocation));
    }
    AppendInOrder(ps, CheckProvider(GpsProvider));
    if !p.gpsEnabled {
      AppendInOrder(ps + [CheckProvider(GpsProvider)], CheckProvider(NetworkProvider));
      assert ps + IsLocationEnabled(p).1 == ps + [CheckProvider(GpsProvider)] + [CheckProvider(NetworkProvider)];
    }
  }

  lemma FreshTailInOrder(cached: seq<Step>)
    requires InCascadeOrder(cached) && RanksBelow(cached, 5)
    ensures var high := RequestUpdates(BuildRequest(true), HighAccuracyTimeoutMs);
      && InCascadeOrder(cached + [high])
      && InCascadeOrder(cached + [high] + [RequestUpdates(BuildRequest(false), LowPowerTimeoutMs)])
  {
    var high := RequestUpdates(BuildRequest(true), HighAccuracyTimeoutMs);
    AppendInOrder(cached, high);
    AppendInOrder(cached + [high], RequestUpdates(BuildRequest(false), LowPowerTimeoutMs));
  }

  lemma TraceInCascadeOrder(p: Platform)
    ensures var r := GetCurrentLocation(p);
      && |r.trace| > 0
      && r.trace[0] == CheckPermission(AccessFineLocation)
      && InCascadeOrder(r.trace)
  {
    var r := GetCurrentLocation(p);
    var ps := HasLocationPermission(p).1;
    var checks := ps + IsLocationEnabled(p).1;
    ChecksInOrder(p);
    if Permitted(p) && ProviderEnabled(p) {
      AppendInOrder(checks, AwaitLastLocation);
      if !p.lastLocation.LastFix? {
        FreshTailInOrder(checks + [AwaitLastLocation]);
      }
    }
    assert r.trace[0] == ps[0];
  }

  /** Every fresh request asks for a single update, with the priority,
      maximum wait and timeout of its tier. */
  lemma FreshRequestParameters(p: Platform)
    ensures forall s :: s in GetCurrentLocation(p).trace && s.RequestUpdates? ==>
      && s.request.numUpdates == 1
      && (s.request.priority == PriorityHighAccuracy ==>
            s.request.maxWaitTimeMs == 10_000 && s.timeoutMs == HighAccuracyTimeoutMs)
      && (s.request.priority == PriorityLowPower ==>
            s.request.maxWaitTimeMs == 7_000 && s.timeoutMs == LowPowerTimeoutMs)
  {
  }
}
