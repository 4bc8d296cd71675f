/** Coordinates, as app/services/_memory_helpers.py checks them. */
module Locations {
  import opened Prelude

  /** `validate_location_pair`: both or neither, and in range. */
  predicate ValidLocation(lat: Option<real>, lng: Option<real>) {
    && lat.Some? == lng.Some?
    && (lat.Some? ==> -90.0 <= lat.value <= 90.0)
    && (lng.Some? ==> -180.0 <= lng.value <= 180.0)
  }

  datatype Point = Point(lat: real, lng: real)

  /** What the chat endpoint accepts as `client_location`. */
  type ClientLocation = p: Point | ValidLocation(Some(p.lat), Some(p.lng)) witness Point(0.0, 0.0)

  function LatOf(p: Option<ClientLocation>): Option<real> { if p.Some? then Some(p.value.lat) else None }

  function LngOf(p: Option<ClientLocation>): Option<real> { if p.Some? then Some(p.value.lng) else None }
}
