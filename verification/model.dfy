/** The value types of the `data.model` package: the outcome of one location
    lookup and a ranked place. Kotlin `Double`s are modelled as `real`s. */
module Model {

  /** Kotlin's nullable `T?`. */
  datatype Option<+T> = None | Some(value: T) {
    function GetOr(default: T): T {
      match this
      case Some(v) => v
      case None => default
    }
  }

  /** A latitude/longitude pair in degrees, as carried by an Android `Location`. */
  datatype Coordinate = Coordinate(latitude: real, longitude: real)

  /** The closed result hierarchy `UserLocationResult`. */
  datatype UserLocationResult =
    | Success(latitude: real, longitude: real)
    | PermissionDenied
    | LocationDisabled
    | Error(message: string)

  /** One point of interest, with its distance from the user fixed at creation. */
  datatype Place = Place(
    id: string,
    name: string,
    latitude: real,
    longitude: real,
    category: string,
    distanceMeters: real
  )
}
