/**
 * The ground-station proxy: pure reshaping of the upstream air-quality API's
 * parsed responses into the service's GraphQL records. The HTTPS request and
 * JSON parsing happen before these functions; their parsed result is the input.
 */
module GroundStation {
  import opened Wrappers
  import opened Js

  /** The pollutant keys the service reports. */
  const AllowedKeys: set<string> := {"p", "t", "o3", "pm25", "pm10", "so2", "no2", "co"}

  /** Whether a pollutant key of the upstream `iaqi` map is reported. */
  function ShouldUseMeasurement(key: string): (use: bool)
    ensures use <==> key in AllowedKeys
  {
    key == "p" || key == "t" || key == "o3" || key == "pm25" ||
    key == "pm10" || key == "so2" || key == "no2" || key == "co"
  }

  /** The human-readable label of a pollutant key. */
  function MeasurementTypeByKey(key: string): (typeName: string)
    ensures typeName != "Unknown" <==> ShouldUseMeasurement(key)
  {
    match key
    case "p" => "Atmospheric pressure"
    case "t" => "Temperature"
    case "o3" => "Ozone"
    case "pm25" => "PM2.5"
    case "pm10" => "PM10"
    case "so2" => "Sulfur dioxide"
    case "no2" => "Nitrogen dioxide"
    case "co" => "Carbon monoxide"
    case _ => "Unknown"
  }

  /** Distinct reported keys receive distinct labels. */
  lemma LabelsDistinct(k1: string, k2: string)
    requires ShouldUseMeasurement(k1) && ShouldUseMeasurement(k2) && k1 != k2
    ensures MeasurementTypeByKey(k1) != MeasurementTypeByKey(k2)
  {
  }

  /** A parsed upstream response `{status, data}`. */
  datatype Envelope<T> = Envelope(status: string, data: T)

  /** An upstream station of the bounding-box endpoint. */
  datatype StationRecord = StationRecord(lat: Value, lon: Value, uid: Value, aqi: Value, station: StationInfo)
  datatype StationInfo = StationInfo(name: Value, time: Value)

  /** A `GroundMeasurementStation`; a field the resolver leaves out is `None`. */
  datatype Station = Station(
    latitude: Option<Value>, longitude: Option<Value>, uid: Option<Value>,
    aqi: Option<Value>, name: Option<Value>, time: Option<Value>)

  /** One entry `{v}` of the upstream `iaqi` object. */
  datatype IaqiEntry = IaqiEntry(v: Value)

  /**
   * The upstream `iaqi` object as its entries in `Object.keys` order. The keys
   * of a parsed object are distinct, so reading `iaqi[key]` for each key in
   * turn visits each entry once, in this order.
   */
  type Iaqi = entries: seq<(string, IaqiEntry)> | DistinctKeys(entries) witness []

  predicate DistinctKeys(entries: seq<(string, IaqiEntry)>) {
    forall i, j :: 0 <= i < j < |entries| ==> entries[i].0 != entries[j].0
  }

  datatype City = City(geo: seq<Value>, name: Value)

  /** The upstream feed at a point. */
  datatype Feed = Feed(iaqi: Iaqi, city: City, aqi: Value, dominentpol: string)

  /** A `Measurement`; its yellow and red zones are never filled in. */
  datatype Measurement = Measurement(kind: string, value: Value, yellowZone: Option<Value>, redZone: Option<Value>)

  /** A `GroundMeasurement`. */
  datatype GroundMeasurement = GroundMeasurement(groundStation: Station, biggestPollutant: string, measurements: seq<Measurement>)

  /** The `GroundMeasurementStation` carrying every field of an upstream station. */
  function Renamed(el: StationRecord): Station {
    Station(Some(el.lat), Some(el.lon), Some(el.uid), Some(el.aqi), Some(el.station.name), Some(el.station.time))
  }

  /** Renames each upstream station in turn, appending it to the result. */
  function MapStations(els: seq<StationRecord>): (stations: seq<Station>)
    ensures |stations| == |els|
    ensures forall i :: 0 <= i < |els| ==>
      && stations[i].latitude == Some(els[i].lat)
      && stations[i].longitude == Some(els[i].lon)
      && stations[i].uid == Some(els[i].uid)
      && stations[i].aqi == Some(els[i].aqi)
      && stations[i].name == Some(els[i].station.name)
      && stations[i].time == Some(els[i].station.time)
  {
    if |els| == 0 then []
    else MapStations(els[..|els| - 1]) + [Renamed(els[|els| - 1])]
  }

  /** The `getStations` resolver, given the parsed upstream response. */
  function GetStations(response: Envelope<seq<StationRecord>>): (stations: Option<seq<Station>>)
    ensures stations.Some? <==> response.status == "ok"
    ensures stations.Some? ==> |stations.value| == |response.data|
    ensures stations.Some? ==> forall i :: 0 <= i < |response.data| ==>
      stations.value[i] == Station(
        Some(response.data[i].lat), Some(response.data[i].lon), Some(response.data[i].uid),
        Some(response.data[i].aqi), Some(response.data[i].station.name), Some(response.data[i].station.time))
  {
    if response.status == "ok" then Some(MapStations(response.data)) else None
  }

  /** The positions, in increasing order, of the `iaqi` entries whose key is reported. */
  function AllowedPositions(iaqi: Iaqi): (ix: seq<nat>)
    ensures forall j :: 0 <= j < |ix| ==> ix[j] < |iaqi|
    ensures forall j, k :: 0 <= j < k < |ix| ==> ix[j] < ix[k]
    ensures forall i :: 0 <= i < |iaqi| ==> (i in ix <==> ShouldUseMeasurement(iaqi[i].0))
  {
    if |iaqi| == 0 then []
    else
      var ix := AllowedPositions(iaqi[..|iaqi| - 1]);
      if ShouldUseMeasurement(iaqi[|iaqi| - 1].0) then ix + [|iaqi| - 1] else ix
  }

  /**
   * Visits the `iaqi` entries in order and, for each reported key, appends a
   * measurement labelled by that key and carrying the entry's `v`.
   */
  function MapMeasurements(iaqi: Iaqi): (ms: seq<Measurement>)
    ensures forall m :: m in ms ==> m.kind != "Unknown"
  {
    if |iaqi| == 0 then []
    else
      var (key, entry) := iaqi[|iaqi| - 1];
      var ms := MapMeasurements(iaqi[..|iaqi| - 1]);
      if ShouldUseMeasurement(key) then ms + [Measurement(MeasurementTypeByKey(key), entry.v, None, None)]
      else ms
  }

  /**
   * The measurements are exactly the `iaqi` entries whose key is reported, in
   * key order, each labelled by its key and carrying its `v`.
   */
  lemma {:induction false} MeasurementsSelectAllowed(iaqi: Iaqi)
    ensures var ms := MapMeasurements(iaqi);
      var ix := AllowedPositions(iaqi);
      |ms| == |ix| && forall j :: 0 <= j < |ix| ==>
        ms[j] == Measurement(MeasurementTypeByKey(iaqi[ix[j]].0), iaqi[ix[j]].1.v, None, None)
  {
    if |iaqi| > 0 {
      var prefix := iaqi[..|iaqi| - 1];
      MeasurementsSelectAllowed(prefix);
      var ms := MapMeasurements(iaqi);
      var ms0 := MapMeasurements(prefix);
      var ix := AllowedPositions(iaqi);
      var ix0 := AllowedPositions(prefix);
      var (key, entry) := iaqi[|iaqi| - 1];
      if ShouldUseMeasurement(key) {
        assert ms == ms0 + [Measurement(MeasurementTypeByKey(key), entry.v, None, None)];
        assert ix == ix0 + [|iaqi| - 1];
      } else {
        assert ms == ms0;
        assert ix == ix0;
      }
      forall j | 0 <= j < |ix0|
        ensures ms[j] == Measurement(MeasurementTypeByKey(iaqi[ix[j]].0), iaqi[ix[j]].1.v, None, None)
      {
        assert prefix[ix0[j]] == iaqi[ix0[j]];
      }
    }
  }

  /** The `getMeasurement` resolver, given the parsed upstream response. */
  function GetMeasurement(response: Envelope<Feed>): (g: Option<GroundMeasurement>)
    ensures g.Some? <==> response.status == "ok"
    ensures g.Some? ==>
      var feed := response.data;
      g.value.groundStation == Station(At(feed.city.geo, 0), At(feed.city.geo, 1), None, Some(feed.aqi), Some(feed.city.name), None)
    ensures g.Some? ==> g.value.biggestPollutant == MeasurementTypeByKey(response.data.dominentpol)
    ensures g.Some? ==>
      var iaqi := response.data.iaqi;
      var ix := AllowedPositions(iaqi);
      |g.value.measurements| == |ix| && forall j :: 0 <= j < |ix| ==>
        g.value.measurements[j] == Measurement(MeasurementTypeByKey(iaqi[ix[j]].0), iaqi[ix[j]].1.v, None, None)
    ensures g.Some? ==> forall m :: m in g.value.measurements ==> m.kind != "Unknown"
  {
    if response.status == "ok" then
      var feed := response.data;
      MeasurementsSelectAllowed(feed.iaqi);
      Some(GroundMeasurement(
        Station(At(feed.city.geo, 0), At(feed.city.geo, 1), None, Some(feed.aqi), Some(feed.city.name), None),
        MeasurementTypeByKey(feed.dominentpol),
        MapMeasurements(feed.iaqi)))
    else None
  }

  /**
   * Unlike the measurements, the dominant pollutant is not filtered: a
   * successful response whose dominant pollutant is not reported is labelled
   * `Unknown`.
   */
  lemma BiggestPollutantMayBeUnknown(response: Envelope<Feed>)
    requires response.status == "ok" && !ShouldUseMeasurement(response.data.dominentpol)
    ensures GetMeasurement(response).Some?
    ensures GetMeasurement(response).value.biggestPollutant == "Unknown"
  {
  }

  /** The upstream entries `o3`, `co` and `xyz` yield an ozone and a carbon monoxide measurement. */
  lemma MeasurementsExample(a: Value, b: Value, c: Value)
    ensures MapMeasurements([("o3", IaqiEntry(a)), ("co", IaqiEntry(b)), ("xyz", IaqiEntry(c))])
      == [Measurement("Ozone", a, None, None), Measurement("Carbon monoxide", b, None, None)]
  {
    var iaqi := [("o3", IaqiEntry(a)), ("co", IaqiEntry(b)), ("xyz", IaqiEntry(c))];
    assert iaqi[..2] == [("o3", IaqiEntry(a)), ("co", IaqiEntry(b))];
    assert iaqi[..2][..1] == [("o3", IaqiEntry(a))];
    assert iaqi[..2][..1][..0] == [];
    assert MapMeasurements(iaqi[..2][..1]) == [Measurement("Ozone", a, None, None)];
    assert MapMeasurements(iaqi[..2]) == [Measurement("Ozone", a, None, None), Measurement("Carbon monoxide", b, None, None)];
  }
}
