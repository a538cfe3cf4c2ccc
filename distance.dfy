/**
 * The distance estimator: one distance per destination, taken from the
 * road-distance provider where it answered for that destination and from a
 * great-circle estimate with a road factor otherwise; and the filter on a
 * maximum distance.
 *
 * The provider call is I/O and the great-circle formula is trigonometry, so
 * both are inputs here: the call's outcome is a `ProviderReply` value and the
 * great-circle distance (in km) is the function parameter `greatCircle`.
 */
module Distance {
  import opened Common
  import opened Market

  /** Straight-line to road distance correction. */
  const RoadFactor: real := 1.3
  /** `filterByMaxDistance`'s default limit in km. */
  const DefaultMaxDistanceKm: real := 100.0

  datatype DistanceResult = DistanceResult(destination: Mandi, distance: real)

  /** One element of the provider's first row; `meters` is `distance.value`. */
  datatype Element = Element(status: string, meters: real)

  /** How the road-distance lookup ended. */
  datatype ProviderReply =
    | NotConfigured                                      // mock data requested or no API key
    | RequestFailed                                      // the awaited request threw (timeout, network)
    | Replied(status: string, rows: seq<seq<Element>>)   // rows[r] stands for `rows[r].elements`

  /** The fallback estimate: the great-circle distance times 1.3, to two decimals. */
  function HaversineDistance(greatCircle: (LatLng, LatLng) -> real, from: LatLng, to: LatLng): (d: real)
    ensures greatCircle(from, to) >= 0.0 ==> d >= 0.0
    ensures RoadFactor * greatCircle(from, to) - 0.005 < d <= RoadFactor * greatCircle(from, to) + 0.005
    ensures (100.0 * d).Floor as real == 100.0 * d
  {
    var estimate := greatCircle(from, to) * RoadFactor;
    Round2NonNegative(estimate);
    Round2(estimate)
  }

  /**
   * Whether the per-element branch runs to completion: a top-level "OK" and a
   * first row with an element for every destination. Any other reply makes
   * the code throw inside its `try` (a non-OK status, or reading a missing
   * row or element), and the `catch` falls back for every destination.
   */
  predicate ProviderAnswered(reply: ProviderReply, count: nat) {
    && reply.Replied?
    && reply.status == "OK"
    && (count == 0 || (|reply.rows| > 0 && |reply.rows[0]| >= count))
  }

  function ElementDistance(e: Element, fallback: real): (d: real)
    ensures e.status == "OK" ==> d == e.meters / 1000.0
    ensures e.status != "OK" ==> d == fallback
  {
    if e.status == "OK" then e.meters / 1000.0 else fallback
  }

  function CalculateDistances(reply: ProviderReply, greatCircle: (LatLng, LatLng) -> real,
                              source: LatLng, destinations: seq<Mandi>): (r: seq<DistanceResult>)
    ensures |r| == |destinations|
    ensures forall i :: 0 <= i < |r| ==> r[i].destination == destinations[i]
    ensures forall i :: 0 <= i < |r| && !ProviderAnswered(reply, |destinations|) ==>
      r[i].distance == HaversineDistance(greatCircle, source, destinations[i].location)
    ensures forall i :: 0 <= i < |r| && ProviderAnswered(reply, |destinations|) ==>
      r[i].distance == ElementDistance(reply.rows[0][i], HaversineDistance(greatCircle, source, destinations[i].location))
  {
    if ProviderAnswered(reply, |destinations|) then
      seq(|destinations|, i requires 0 <= i < |destinations| =>
        DistanceResult(destinations[i],
          ElementDistance(reply.rows[0][i], HaversineDistance(greatCircle, source, destinations[i].location))))
    else
      seq(|destinations|, i requires 0 <= i < |destinations| =>
        DistanceResult(destinations[i], HaversineDistance(greatCircle, source, destinations[i].location)))
  }

  /** Without a usable reply every entry is the great-circle estimate: the mock mode, a thrown request, a non-OK status. */
  lemma AllFallbackWithoutProvider(reply: ProviderReply, greatCircle: (LatLng, LatLng) -> real,
                                   source: LatLng, destinations: seq<Mandi>, i: nat)
    requires reply.NotConfigured? || reply.RequestFailed? || (reply.Replied? && reply.status != "OK")
    requires i < |destinations|
    ensures CalculateDistances(reply, greatCircle, source, destinations)[i].distance
         == HaversineDistance(greatCircle, source, destinations[i].location)
  {
  }

  /** Distances are never negative when the provider's and the great-circle distances are not. */
  lemma DistancesNonNegative(reply: ProviderReply, greatCircle: (LatLng, LatLng) -> real,
                             source: LatLng, destinations: seq<Mandi>)
    requires forall i :: 0 <= i < |destinations| ==> greatCircle(source, destinations[i].location) >= 0.0
    requires reply.Replied? ==> forall row, e :: row in reply.rows && e in row ==> e.meters >= 0.0
    ensures forall d :: d in CalculateDistances(reply, greatCircle, source, destinations) ==> d.distance >= 0.0
  {
    var r := CalculateDistances(reply, greatCircle, source, destinations);
    forall d | d in r ensures d.distance >= 0.0 {
      var i :| 0 <= i < |r| && r[i] == d;
      var fallback := HaversineDistance(greatCircle, source, destinations[i].location);
      if ProviderAnswered(reply, |destinations|) {
        assert reply.rows[0][i] in reply.rows[0];
      }
    }
  }

  /** `filterByMaxDistance`: the results within `maxKm`, in their original order. */
  function FilterByMaxDistance(results: seq<DistanceResult>, maxKm: real := DefaultMaxDistanceKm): (r: seq<DistanceResult>)
    ensures forall x :: x in r ==> x in results && x.distance <= maxKm
    ensures forall x :: x in results && x.distance <= maxKm ==> x in r
    ensures forall x :: x in results ==> multiset(r)[x] == if x.distance <= maxKm then multiset(results)[x] else 0
    ensures IsSubsequence(r, results)
  {
    if results == [] then []
    else
      var rest := FilterByMaxDistance(results[1..], maxKm);
      assert results == [results[0]] + results[1..];
      if results[0].distance <= maxKm then
        assert ([results[0]] + rest)[1..] == rest;
        [results[0]] + rest
      else
        rest
  }
}
