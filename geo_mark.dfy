/** The body of `POST /student/mark-attendance` and how each scanning
    surface builds it from the device's geolocation result. */
module GeoMark {
  import opened Common

  /** What `navigator.geolocation` yields: no such API on the device, the
      error callback (denied, unavailable, or the 8-second timeout), or a
      position fix. */
  datatype Geo = Unavailable | Denied | Located(lat: real, lng: real)

  /** The JSON body; a coordinate is `None` when its key is left out. */
  datatype MarkBody = MarkBody(studentId: string, sessionCode: string, lat: Option<real>, lng: Option<real>)

  /** Both coordinates, or neither. */
  predicate Paired(b: MarkBody) {
    b.lat.Some? == b.lng.Some?
  }

  /** The dashboard's scan modal always sends a request; it carries the
      coordinates exactly when a fix was obtained. */
  function DashboardBody(studentId: string, sessionCode: string, geo: Geo): (b: MarkBody)
    ensures Paired(b)
    ensures b.studentId == studentId && b.sessionCode == sessionCode
    ensures b.lat.Some? <==> geo.Located?
    ensures geo.Located? ==> b.lat == Some(geo.lat) && b.lng == Some(geo.lng)
  {
    match geo
    case Located(lat, lng) => MarkBody(studentId, sessionCode, Some(lat), Some(lng))
    case _ => MarkBody(studentId, sessionCode, None, None)
  }

  /** The standalone scan screen sends nothing at all when the device has
      no geolocation API; otherwise it sends the same body as the
      dashboard's modal. */
  function ScreenRequest(studentId: string, sessionCode: string, geo: Geo): (r: Option<MarkBody>)
    ensures r.None? <==> geo.Unavailable?
    ensures !geo.Unavailable? ==> r == Some(DashboardBody(studentId, sessionCode, geo))
  {
    if geo.Unavailable? then None
    else if geo.Denied? then Some(MarkBody(studentId, sessionCode, None, None))
    else Some(MarkBody(studentId, sessionCode, Some(geo.lat), Some(geo.lng)))
  }
}
