/** Geographic data model of the ambulance engine: coordinates, traffic
    signals, the proximity threshold and the fixed default configuration
    that the engine starts from and restores on reset. */
module Geo {

  /** Latitude and longitude in degrees. */
  datatype Coordinate = Coordinate(lat: real, lng: real)

  /** The three colours a signal can show. */
  datatype Status = Red | Green | Yellow

  /** A monitored traffic signal. The address and topic are only displayed. */
  datatype TrafficLight = TrafficLight(
    id: string,
    name: string,
    position: Coordinate,
    status: Status,
    ipAddress: string,
    mqttTopic: string)

  /** Distance in meters between two coordinates. The haversine arithmetic is
      not modelled: a distance is any total function of its two points, so it
      is stateless by construction. */
  type Distance = (Coordinate, Coordinate) -> real

  /** What the haversine form guarantees: a point is at distance zero from
      itself, and the distance does not depend on the order of its points. */
  ghost predicate DistanceLaws(dist: Distance)
  {
    (forall a :: dist(a, a) == 0.0) &&
    (forall a, b :: dist(a, b) == dist(b, a))
  }

  /** Radius, in meters, within which a signal counts as reached. */
  const ProximityThreshold: real := 100.0

  /** The range test is inclusive: a signal exactly at the threshold is in range. */
  predicate InRange(meters: real)
  {
    meters <= ProximityThreshold
  }

  /** Whether `light` is in range of an ambulance standing at `pos`. */
  predicate SignalInRange(dist: Distance, pos: Coordinate, light: TrafficLight)
  {
    InRange(dist(pos, light.position))
  }

  predicate DistinctIds(lights: seq<TrafficLight>)
  {
    forall i, j :: 0 <= i < j < |lights| ==> lights[i].id != lights[j].id
  }

  function IdsOf(lights: seq<TrafficLight>): set<string>
  {
    set l | l in lights :: l.id
  }

  /** The fixed signal registry: three red signals with distinct ids. */
  function DefaultTrafficLights(): (r: seq<TrafficLight>)
    ensures |r| == 3 && DistinctIds(r)
    ensures r[0].id == "tl-1" && r[1].id == "tl-2" && r[2].id == "tl-3"
    ensures r[2].name == "Hospital Junction" && r[2].position == Coordinate(12.9740, 77.5930)
    ensures r[2].ipAddress == "192.168.1.102"
    ensures forall i :: 0 <= i < |r| ==> r[i].status == Red
  {
    [ TrafficLight("tl-1", "Main St & 1st Ave", Coordinate(12.9716, 77.5946), Red,
                   "192.168.1.100", "traffic/signal/1"),
      TrafficLight("tl-2", "Park Rd & 2nd Ave", Coordinate(12.9726, 77.5966), Red,
                   "192.168.1.101", "traffic/signal/2"),
      TrafficLight("tl-3", "Hospital Junction", Coordinate(12.9740, 77.5930), Red,
                   "192.168.1.102", "traffic/signal/3") ]
  }

  /** Where the ambulance starts, and where reset puts it back. */
  const DefaultAmbulanceStart: Coordinate := Coordinate(12.9700, 77.5920)

  /** The threshold is 100 m and the test is inclusive: exactly 100 m is in
      range, anything farther is not, and anything nearer than an in-range
      distance is in range too. */
  lemma InRangeIsInclusive()
    ensures ProximityThreshold == 100.0 && InRange(100.0)
    ensures forall m: real :: m > 100.0 ==> !InRange(m)
    ensures forall m: real, n: real :: m <= n && InRange(n) ==> InRange(m)
  {
  }

  /** The default start lies at none of the default signals, and the three
      signals stand at three different places. */
  lemma DefaultStartIsOffEverySignal()
    ensures DefaultAmbulanceStart == Coordinate(12.9700, 77.5920)
    ensures forall l :: l in DefaultTrafficLights() ==> l.position != DefaultAmbulanceStart
    ensures forall i, j :: 0 <= i < j < |DefaultTrafficLights()| ==>
      DefaultTrafficLights()[i].position != DefaultTrafficLights()[j].position
  {
  }

  /** An ambulance standing on a signal is in range of it, and range does not
      depend on which of the two points the distance is measured from. */
  lemma InRangeAtSignal(dist: Distance, pos: Coordinate, light: TrafficLight)
    requires DistanceLaws(dist)
    ensures SignalInRange(dist, light.position, light)
    ensures SignalInRange(dist, pos, light) <==> InRange(dist(light.position, pos))
  {
  }
}
