# NearbyPlaces location core, in Dafny

A model of the Android core of the NearbyPlaces app. It covers three pieces:

- **The location cascade.** `LocationRepository.getCurrentLocation` checks permission (fine, then coarse) and then the location providers (GPS, then network). It then tries the fused client's cached fix, a fresh high-accuracy fix with a 15 s timeout and a fresh low-power fix with an 8 s timeout, and gives up with `Error("LOCATION_UNAVAILABLE")`. The device is a `Platform` record of its answers: permission and provider flags, the cached lookup (`LastThrows | LastNull | LastFix`), and how each fresh request plays out. A request can throw a `SecurityException`, or its callback can fire after some milliseconds with a possibly null fix, or it can never fire. `GetCurrentLocation` is a pure function of that record. It returns the outcome, the platform calls made in order, and the time spent waiting on fresh fixes.
- **Place ranking.** `getNearbyPlaces` builds six synthetic places at fixed offsets around the user. Each gets the id `"place_<index>"` and a category by index parity (`"park"` for even, `"restaurant"` for odd). The list is then sorted with Kotlin's stable `sortedBy { it.distanceMeters }`, modelled as an insertion sort. The haversine distance is a parameter `dist: (Coordinate, Coordinate) -> real`.
- **The UI state.** `PlacesViewModel.loadNearbyPlaces` publishes a loading state and then a final state, each built with `copy` from the previous one.

Modules: `Model` (the data classes `UserLocationResult` and `Place`), `Text` (string templates and `contains`), `DistanceSort`, `NearbyPlaces`, `LocationRepository` and `PlacesViewModel`.

Behaviour of the code worth noting:

- A failed load keeps the previous `userLat`, `userLng` and `places`, because `copy` only changes `isLoading` and `error`. So a state can hold an error next to a non-empty list of places. `PlacesViewModel.FailedReloadKeepsPlaces` shows this.
- A `SecurityException` from the high-accuracy request does not end the cascade. Only a `Success` is returned at that step, so the cascade falls through to the low-power request. `PermissionDenied` comes out of the fresh tiers only when the low-power request throws.
- The code checks fine-or-coarse permission and GPS-or-network provider.

The error-code `when` in `PlacesViewModel` (lines 62-67) has four conditions with no `->` and no result expression. That is a Kotlin syntax error, so the file does not compile as written. The model takes the mapping as a parameter `errorCode`. It only requires `errorCode` to return a message unchanged when the message contains none of "LOCATION_UNAVAILABLE", "null", "unavailable" or "timed out". `PlacesViewModel.RepositoryErrorsRecognised` shows that every `Error` the repository can produce contains one of those substrings. So for those errors the pass-through branch is never the one taken.

Kotlin `Double`s are modelled as `real`s.

## Model

| member | source | states |
|---|---|---|
| LocationRepository.HasLocationPermission | android/app/src/main/java/com/nearbyplacesapp/data/repository/LocationRepository.kt:24-33 | Permission holds iff fine or coarse is granted. The fine check always comes first, and coarse is asked only when fine is not granted. |
| LocationRepository.IsLocationEnabled | android/app/src/main/java/com/nearbyplacesapp/data/repository/LocationRepository.kt:35-39 | Location is on iff GPS or network is enabled. GPS is asked first, and network only when GPS is off. |
| LocationRepository.AwaitFresh | android/app/src/main/java/com/nearbyplacesapp/data/repository/LocationRepository.kt:84-131 | One fresh request under a timeout. A `SecurityException` is `PermissionDenied` with no wait. A fix before the deadline is `Success` with exactly its coordinates. A null fix is `Error("Location result was null")`. An answer before the deadline is waited for exactly its arrival time. A late or absent callback gives no result after waiting the full timeout. It never yields `LocationDisabled`, and the wait never exceeds the timeout. |
| LocationRepository.GetCurrentLocation | android/app/src/main/java/com/nearbyplacesapp/data/repository/LocationRepository.kt:41-81 | Without permission the result is `PermissionDenied`, and only permission checks are made. With permission but no provider it is `LocationDisabled`, with no location call. A cached fix gives `Success` with its exact coordinates and no fresh request. The total wait is at most 15 000 + 8 000 ms. |
| LocationRepository.LookupFailureSwallowed | android/app/src/main/java/com/nearbyplacesapp/data/repository/LocationRepository.kt:51-64 | A cached lookup that throws and one that yields null give identical results, traces and waits. In both, the next call after the lookup is the high-accuracy request. |
| LocationRepository.HighAccuracyFixReturned | android/app/src/main/java/com/nearbyplacesapp/data/repository/LocationRepository.kt:62-69 | A high-accuracy fix before 15 s is returned with its coordinates, and the low-power request is never issued. |
| LocationRepository.LowPowerFallback | android/app/src/main/java/com/nearbyplacesapp/data/repository/LocationRepository.kt:71-80 | Without a high-accuracy fix in time, one low-power request is issued last. Its result is returned whatever its variant: a fix, a null-fix error or `PermissionDenied`. Its timeout becomes `Error("LOCATION_UNAVAILABLE")`. |
| LocationRepository.BothTimeoutsExhausted | android/app/src/main/java/com/nearbyplacesapp/data/repository/LocationRepository.kt:62-80 | When neither fresh request answers before its deadline (no callback, or one at or after the deadline), the result is `Error("LOCATION_UNAVAILABLE")` after waiting exactly 23 000 ms. |
| LocationRepository.OutcomeClassification | android/app/src/main/java/com/nearbyplacesapp/data/repository/LocationRepository.kt:41-81 | Each outcome variant is characterised both ways against the device's answers. `Success` iff permitted, enabled and some tier delivers in time. `LocationDisabled` iff permitted and no provider. `PermissionDenied` iff not permitted, or the cascade reaches a low-power request that throws. Otherwise `Error`, whose message is one of the two the code produces. |
| LocationRepository.TraceInCascadeOrder | android/app/src/main/java/com/nearbyplacesapp/data/repository/LocationRepository.kt:41-81 | The calls made start with the fine-permission check. Each call happens at most once, in the order permission, provider, cached lookup, high-accuracy request, low-power request. |
| LocationRepository.FreshRequestParameters | android/app/src/main/java/com/nearbyplacesapp/data/repository/LocationRepository.kt:87-98 | Every fresh request asks for one update. High accuracy uses a 10 000 ms max wait and a 15 000 ms timeout. Low power uses 7 000 ms and 8 000 ms. |
| Text.ParseNatToString | android/app/src/main/java/com/nearbyplacesapp/data/repository/LocationRepository.kt:145 | The decimal text of an index reads back as that index. |
| Text.NatToStringInjective | android/app/src/main/java/com/nearbyplacesapp/data/repository/LocationRepository.kt:145 | Distinct indices give distinct decimal texts, so the ids `place_<index>` differ. |
| Text.ContainsIffOccurs | android/app/src/main/java/com/nearbyplacesapp/data/viewmodel/PlacesViewModel.kt:63-66 | The `contains` test holds iff the substring occurs at some position. |
| DistanceSort.Insert | android/app/src/main/java/com/nearbyplacesapp/data/repository/LocationRepository.kt:152 | Inserting one place adds exactly that place to the multiset and keeps a sorted list sorted. The new place goes before the other places at its distance and after all nearer ones. |
| DistanceSort.SortByDistance | android/app/src/main/java/com/nearbyplacesapp/data/repository/LocationRepository.kt:152 | `sortedBy` returns a permutation of its input, sorted ascending by distance. Every group of equally distant places keeps its input order. |
| DistanceSort.StableSortIsUnique | android/app/src/main/java/com/nearbyplacesapp/data/repository/LocationRepository.kt:152 | Any ascending arrangement that keeps ties in input order is exactly the result of `sortedBy`. |
| DistanceSort.SortedTiesDetermine | android/app/src/main/java/com/nearbyplacesapp/data/repository/LocationRepository.kt:152 | Two ascending lists with the same order within every distance group are equal. |
| DistanceSort.SortKeepsIdsDistinct | android/app/src/main/java/com/nearbyplacesapp/data/repository/LocationRepository.kt:143-152 | Sorting a list whose ids are distinct gives a list whose ids are distinct. |
| NearbyPlaces.Candidates | android/app/src/main/java/com/nearbyplacesapp/data/repository/LocationRepository.kt:134-151 | Six candidates. The i-th has id `place_i`, the category of i's parity (`park` iff i is even, `restaurant` otherwise), the name and the offset coordinate of the i-th synthetic entry, and its distance from the origin. |
| NearbyPlaces.CandidateIdsDistinct | android/app/src/main/java/com/nearbyplacesapp/data/repository/LocationRepository.kt:143-149 | The six generated ids are pairwise distinct. |
| NearbyPlaces.GetNearbyPlaces | android/app/src/main/java/com/nearbyplacesapp/data/repository/LocationRepository.kt:133-153 | Exactly 6 places, a permutation of the generated list. They are sorted ascending by distance, ties stay in generation order, and the ids are unique. |
| NearbyPlaces.RankedPlacesGenerated | android/app/src/main/java/com/nearbyplacesapp/data/repository/LocationRepository.kt:134-152 | Every ranked place is the candidate of some index i < 6. It has id `place_i`, the name and offset coordinate of that index, category `park` iff i is even and `restaurant` otherwise, and its distance from the origin. |
| NearbyPlaces.EveryCandidateRanked | android/app/src/main/java/com/nearbyplacesapp/data/repository/LocationRepository.kt:133-153 | Every one of the six generated candidates appears in the ranking. |
| PlacesViewModel.InitialState | android/app/src/main/java/com/nearbyplacesapp/data/viewmodel/PlacesViewModel.kt:13-23 | The view model starts not loading, with no location, no places and no error. |
| PlacesViewModel.StartLoading | android/app/src/main/java/com/nearbyplacesapp/data/viewmodel/PlacesViewModel.kt:28 | Starting a load sets `isLoading` and clears `error`. Location and places are unchanged. |
| PlacesViewModel.FinishLoading | android/app/src/main/java/com/nearbyplacesapp/data/viewmodel/PlacesViewModel.kt:30-73 | A completed load is never loading, and its error is absent iff the outcome was `Success`. `Success(lat,lng)` stores the location and `getNearbyPlaces(lat,lng)`. Any other outcome keeps the previous location and places. `PermissionDenied` gives `"PERMISSION_DENIED"` and `LocationDisabled` gives `"LOCATION_DISABLED"`. An unrecognised error message is passed through verbatim. |
| PlacesViewModel.LoadNearbyPlaces | android/app/src/main/java/com/nearbyplacesapp/data/viewmodel/PlacesViewModel.kt:26-76 | A load publishes two states: loading with no error and the old data, then a final state. The final state's error is absent iff the repository succeeded. Then it holds 6 sorted places with distinct ids. Otherwise it keeps the old location and places. |
| PlacesViewModel.LoadIsFinalPublished | android/app/src/main/java/com/nearbyplacesapp/data/viewmodel/PlacesViewModel.kt:26-76 | The final state of one load, as used by the run invariant, is exactly the second state `loadNearbyPlaces` publishes. |
| PlacesViewModel.RunKeepsConsistent | android/app/src/main/java/com/nearbyplacesapp/data/viewmodel/PlacesViewModel.kt:26-76 | Over any sequence of completed loads, the location stays all-present or all-absent. There are no places without a location. The places are always the ranking around the location shown with them. |
| PlacesViewModel.InitialConsistent | android/app/src/main/java/com/nearbyplacesapp/data/viewmodel/PlacesViewModel.kt:13-23 | The initial state satisfies that invariant. |
| PlacesViewModel.RepositoryErrorsRecognised | android/app/src/main/java/com/nearbyplacesapp/data/viewmodel/PlacesViewModel.kt:60-67 | Every `Error` message the repository produces contains one of the four recognised substrings. |
| PlacesViewModel.FailedReloadKeepsPlaces | android/app/src/main/java/com/nearbyplacesapp/data/viewmodel/PlacesViewModel.kt:46-51 | Suppose a load finds a cached fix and a later load finds permission revoked. The second load ends with `"PERMISSION_DENIED"`, and the six places from the first load are still shown. |

## Left out

- The haversine distance (LocationRepository.kt lines 155-163) is floating-point trigonometry. It is the parameter `dist`, and nothing is assumed of it: not symmetry, not `dist(a,a) == 0`, not any numeric value.
- IEEE-754 `Double` arithmetic is modelled by reals: the offsets `lat + 0.003` and so on are exact. The model also ignores how `sortedBy` orders NaN and `-0.0`.
- Coroutine machinery is left out: `suspendCancellableCoroutine`, cancellation of an in-flight request, `removeLocationUpdates` on completion or cancellation, `Looper`, and the `onLocationAvailability` callback. Each fresh request is reduced to how and when it settles. The `interval` and `fastestInterval` fields are recorded but nothing depends on them.
- AwaitFresh: a callback firing at exactly the deadline is taken as too late. In the code this is a scheduling race.
- `Log.d` calls are left out. The Android permission and `LocationManager` queries are left out too; they are the boolean fields of `Platform`.
- FinishLoading: the error code of a message that contains one of the four recognised substrings is left open (the parameter `errorCode`), because those branches of the `when` have no result expression.
- `loadNearbyPlaces` launches a coroutine, and overlapping calls could interleave. The model takes loads one at a time.
- The React Native bridge (`PlacesModule.kt`) is left out: promises, the permission-dialog listener and `WritableMap` serialisation. The TypeScript hook, screen and types are left out too: they are UI and declarations.
