/** The rows and records of the registry (pkg/models, internal/identity/record.go). */
module Models {

  datatype Option<+T> = None | Some(value: T)

  /** A UUID read as its 128-bit number: PostgreSQL orders uuid values the same way. */
  type PlaceId = nat
  type QueueId = nat
  /** Microseconds, the precision of timestamptz. */
  type Time = int

  datatype Status = Active | Closed | OsmRemoved
  datatype Point = Point(lat: real, lng: real)

  /** The columns of a place that matching reads. */
  datatype Spot = Spot(at: Point, name: string, category: string, tags: map<string, string>, status: Status)
  {
    /** A missing tag reads as the empty string. */
    function Tag(key: string): string {
      if key in tags then tags[key] else ""
    }
  }

  datatype ExternalRef = ExternalRef(id: string, confidence: real, matchedAt: Time)

  /** One incoming non-OSM row. */
  datatype Record = Record(source: string, sourceId: string, name: string, at: Point, category: string,
                           street: string, houseNumber: string, payload: Option<string>)

  datatype Band = LowConfidence | Confident
  /** The matcher's answer; only a match has a place and a confidence. */
  datatype Decision = NoMatch | Matched(band: Band, place: PlaceId, confidence: real)

  lemma SubsetSize<T>(a: set<T>, b: set<T>)
    requires a <= b
    ensures |a| <= |b|
  {
    assert b == a + (b - a);
  }
}
