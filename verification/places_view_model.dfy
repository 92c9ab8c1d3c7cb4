/** `PlacesViewModel`: the UI state and how one `loadNearbyPlaces` call moves
    it. Loads are taken one at a time; the repository is the cascade of
    `LocationRepository` run against a device record, and the distance the
    ranking uses is a parameter. */
module PlacesViewModel {
  import opened Model
  import opened Text
  import opened DistanceSort
  import opened LocationRepository
  import opened NearbyPlaces

  datatype PlacesUiState = PlacesUiState(
    isLoading: bool,
    userLat: Option<real>,
    userLng: Option<real>,
    places: seq<Place>,
    error: Option<string>
  )

  /** `PlacesUiState()` with its default arguments: the state the view model starts in. */
  function InitialState(): (s: PlacesUiState)
    ensures !s.isLoading && s.userLat.None? && s.userLng.None?
    ensures s.places == [] && s.error.None?
  {
    PlacesUiState(false, None, None, [], None)
  }

  /** `copy(isLoading = true, error = null)`. */
  function StartLoading(s: PlacesUiState): (r: PlacesUiState)
    ensures r.isLoading && r.error.None?
    ensures r.userLat == s.userLat && r.userLng == s.userLng && r.places == s.places
  {
    s.(isLoading := true, error := None)
  }

  /** The four substrings the error-code `when` tests for, in order. */
  const RecognisedReasons: seq<string> := ["LOCATION_UNAVAILABLE", "null", "unavailable", "timed out"]

  predicate Recognised(message: string)
  {
    exists i :: 0 <= i < |RecognisedReasons| && Contains(message, RecognisedReasons[i])
  }

  /** The error-code mapping hands every message it does not recognise back unchanged. */
  ghost predicate PassesThroughUnrecognised(errorCode: string -> string)
  {
    forall message :: !Recognised(message) ==> errorCode(message) == message
  }

  /** The state the load publishes once the repository has answered. */
  function FinishLoading(s: PlacesUiState, outcome: UserLocationResult, errorCode: string -> string, dist: Distance): (r: PlacesUiState)
    requires PassesThroughUnrecognised(errorCode)
    ensures !r.isLoading
    ensures r.error.None? <==> outcome.Success?
    ensures outcome.Success? ==>
      && r.userLat == Some(outcome.latitude)
      && r.userLng == Some(outcome.longitude)
      && r.places == GetNearbyPlaces(outcome.latitude, outcome.longitude, dist)
    ensures !outcome.Success? ==>
      r.userLat == s.userLat && r.userLng == s.userLng && r.places == s.places
    ensures outcome == PermissionDenied ==> r.error == Some("PERMISSION_DENIED")
    ensures outcome == LocationDisabled ==> r.error == Some("LOCATION_DISABLED")
    ensures outcome.Error? && !Recognised(outcome.message) ==> r.error == Some(outcome.message)
  {
    match outcome
    case Success(lat, lng) =>
      s.(isLoading := false, userLat := Some(lat), userLng := Some(lng),
         places := GetNearbyPlaces(lat, lng, dist), error := None)
    case PermissionDenied => s.(isLoading := false, error := Some("PERMISSION_DENIED"))
    case LocationDisabled => s.(isLoading := false, error := Some("LOCATION_DISABLED"))
    case Error(message) => s.(isLoading := false, error := Some(errorCode(message)))
  }

  /** `loadNearbyPlaces`: the two states the view model publishes, the
      loading state and then the final one. */
  function LoadNearbyPlaces(s: PlacesUiState, p: Platform, errorCode: string -> string, dist: Distance): (states: seq<PlacesUiState>)
    requires PassesThroughUnrecognised(errorCode)
    ensures |states| == 2
    ensures states[0].isLoading && states[0].error.None?
    ensures states[0].userLat == s.userLat && states[0].userLng == s.userLng && states[0].places == s.places
    ensures !states[1].isLoading
    ensures states[1].error.None? <==> GetCurrentLocation(p).outcome.Success?
    ensures states[1].error.None? ==> |states[1].places| == 6 && Sorted(states[1].places) && IdsDistinct(states[1].places)
    ensures states[1].error.Some? ==>
      states[1].userLat == s.userLat && states[1].userLng == s.userLng && states[1].places == s.places
  {
    var loading := StartLoading(s);
    [loading, FinishLoading(loading, GetCurrentLocation(p).outcome, errorCode, dist)]
  }

  /** The final state of one load, the second state `LoadNearbyPlaces` publishes. */
  function Load(s: PlacesUiState, p: Platform, errorCode: string -> string, dist: Distance): PlacesUiState
    requires PassesThroughUnrecognised(errorCode)
  {
    FinishLoading(StartLoading(s), GetCurrentLocation(p).outcome, errorCode, dist)
  }

  /** `Load` is the final state `loadNearbyPlaces` publishes. */
  lemma LoadIsFinalPublished(s: PlacesUiState, p: Platform, errorCode: string -> string, dist: Distance)
    requires PassesThroughUnrecognised(errorCode)
    ensures Load(s, p, errorCode, dist) == LoadNearbyPlaces(s, p, errorCode, dist)[1]
  {
  }

  /** The final state after one load per device record, in order. */
  function Run(s: PlacesUiState, devices: seq<Platform>, errorCode: string -> string, dist: Distance): PlacesUiState
    requires PassesThroughUnrecognised(errorCode)
    decreases |devices|
  {
    if |devices| == 0 then s
    else Run(Load(s, devices[0], errorCode, dist), devices[1..], errorCode, dist)
  }

  /** What holds of every state between loads: the location is all there or
      all absent, no places without a location, and the places are always the
      ranking around the location they are shown with. */
  ghost predicate Consistent(s: PlacesUiState, dist: Distance)
  {
    && !s.isLoading
    && (s.userLat.Some? <==> s.userLng.Some?)
    && (s.userLat.None? ==> s.places == [])
    && (s.userLat.Some? ==> s.places == GetNearbyPlaces(s.userLat.value, s.userLng.value, dist))
  }

  /** Any sequence of completed loads keeps the state consistent. */
  lemma {:induction false} RunKeepsConsistent(s: PlacesUiState, devices: seq<Platform>, errorCode: string -> string, dist: Distance)
    requires PassesThroughUnrecognised(errorCode)
    requires Consistent(s, dist)
    ensures Consistent(Run(s, devices, errorCode, dist), dist)
    decreases |devices|
  {
    if |devices| > 0 {
      LoadKeepsConsistent(s, devices[0], errorCode, dist);
      RunKeepsConsistent(Load(s, devices[0], errorCode, dist), devices[1..], errorCode, dist);
    }
  }

  /** One completed load keeps the state consistent. */
  lemma LoadKeepsConsistent(s: PlacesUiState, p: Platform, errorCode: string -> string, dist: Distance)
    requires PassesThroughUnrecognised(errorCode)
    requires Consistent(s, dist)
    ensures Consistent(Load(s, p, errorCode, dist), dist)
  {
  }

  lemma InitialConsistent(dist: Distance)
    ensures Consistent(InitialState(), dist)
  {
  }

  /** Every `Error` the repository produces mentions "LOCATION_UNAVAILABLE"
      or "null", so its code always comes from one of the recognised
      branches and never from the pass-through. */
  lemma RepositoryErrorsRecognised(p: Platform)
    ensures GetCurrentLocation(p).outcome.Error? ==> Recognised(GetCurrentLocation(p).outcome.message)
  {
    OutcomeClassification(p);
    assert Contains(UnavailableMessage, RecognisedReasons[0]);
    assert OccursAt(NullFixMessage, RecognisedReasons[1], 20);
    ContainsIffOccurs(NullFixMessage, RecognisedReasons[1]);
  }

  /** A failed reload keeps what an earlier successful load showed: after a
      load that found a cached fix, a load on a device whose permission was
      revoked ends with the error set and the same six places still there. */
  lemma FailedReloadKeepsPlaces(s: PlacesUiState, found: Platform, revoked: Platform, errorCode: string -> string, dist: Distance)
    requires PassesThroughUnrecognised(errorCode)
    requires Permitted(found) && ProviderEnabled(found) && found.lastLocation.LastFix?
    requires !Permitted(revoked)
    ensures var first := Load(s, found, errorCode, dist);
      var second := Load(first, revoked, errorCode, dist);
      && second.error == Some("PERMISSION_DENIED")
      && second.places == first.places
      && |second.places| == 6
  {
  }
}
