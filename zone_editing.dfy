// What the two zone editors share: pixel points, the mouse events they react
// to, and how a zone file read back from JSON becomes a list of polygons.
//
// A zone file is a JSON list of zones, each a list of [x, y] points. Reading
// and parsing the file are not modelled: the editors receive the parsed list,
// or None when the file is missing or is not valid JSON. Each coordinate is a
// JSON number; `int()` truncates it toward zero. A point with fewer than two
// coordinates makes `p[1]` fail, which ends the load.
module ZoneEditing {
  import opened Wrappers

  datatype PixelPoint = PixelPoint(x: int, y: int)

  /** The OpenCV mouse events the editors distinguish. */
  datatype MouseEvent = MouseMove | LeftButtonDown | RightButtonDown | OtherEvent

  /** A colour as the (B, G, R) triple OpenCV draws with. */
  datatype Colour = Colour(b: int, g: int, r: int)

  /** Python's int() on a float: truncation toward zero. */
  function Truncate(r: real): int {
    if r >= 0.0 then r.Floor else -((-r).Floor)
  }

  /** Truncation drops the fraction and keeps the sign; whole numbers are kept. */
  lemma TruncateSpec(r: real)
    ensures 0.0 <= r ==> Truncate(r) as real <= r < Truncate(r) as real + 1.0
    ensures r < 0.0 ==> Truncate(r) as real - 1.0 < r <= Truncate(r) as real
    ensures r == r.Floor as real ==> Truncate(r) == r.Floor
  {
  }

  /** [(int(p[0]), int(p[1])) for p in zone_points], None where a point has fewer than two coordinates. */
  function ConvertZone(points: seq<seq<real>>): Option<seq<PixelPoint>> {
    if points == [] then Some([])
    else
      match ConvertZone(points[..|points| - 1])
      case None => None
      case Some(zone) =>
        var p := points[|points| - 1];
        if |p| < 2 then None else Some(zone + [PixelPoint(Truncate(p[0]), Truncate(p[1]))])
  }

  /**
   * A zone converts exactly when every point has two coordinates; it then has
   * as many points as the file's zone, each truncated. There is no check on
   * the number of points.
   */
  lemma {:induction false} ConvertZoneSpec(points: seq<seq<real>>)
    ensures ConvertZone(points).Some? <==> forall j :: 0 <= j < |points| ==> |points[j]| >= 2
    ensures ConvertZone(points).Some? ==>
      && |ConvertZone(points).value| == |points|
      && forall j :: 0 <= j < |points| ==> ConvertZone(points).value[j] == PixelPoint(Truncate(points[j][0]), Truncate(points[j][1]))
  {
    if points != [] {
      var prefix := points[..|points| - 1];
      ConvertZoneSpec(prefix);
      assert forall j :: 0 <= j < |prefix| ==> prefix[j] == points[j];
    }
  }

  /** The zones a load leaves behind, and whether it got through the whole file. */
  datatype Loaded = Loaded(zones: seq<seq<PixelPoint>>, complete: bool)

  /** Zones are converted front to back; the first one that fails stops the load. */
  function Load(data: seq<seq<seq<real>>>): Loaded {
    if data == [] then Loaded([], true)
    else
      match ConvertZone(data[0])
      case None => Loaded([], false)
      case Some(zone) =>
        var rest := Load(data[1..]);
        Loaded([zone] + rest.zones, rest.complete)
  }

  /**
   * A load completes exactly when every zone converts, and then holds every
   * zone converted in order. A load that fails keeps the zones before the first
   * one that does not convert.
   */
  lemma {:induction false} LoadSpec(data: seq<seq<seq<real>>>)
    ensures |Load(data).zones| <= |data|
    ensures forall i :: 0 <= i < |Load(data).zones| ==>
      ConvertZone(data[i]).Some? && Load(data).zones[i] == ConvertZone(data[i]).value
    ensures Load(data).complete <==> |Load(data).zones| == |data|
    ensures !Load(data).complete ==> ConvertZone(data[|Load(data).zones|]).None?
  {
    if data != [] && ConvertZone(data[0]).Some? {
      LoadSpec(data[1..]);
      var zones := Load(data).zones;
      forall i | 1 <= i < |zones|
        ensures ConvertZone(data[i]).Some? && zones[i] == ConvertZone(data[i]).value
      {
        assert data[1..][i - 1] == data[i];
      }
      if !Load(data).complete {
        assert data[1..][|Load(data[1..]).zones|] == data[|zones|];
      }
    }
  }

  /** One step of the loading loop: a zone that converts is appended, and the rest of the file decides the remainder. */
  lemma LoadStep(data: seq<seq<seq<real>>>, i: int)
    requires 0 <= i < |data| && ConvertZone(data[i]).Some?
    ensures Load(data[i..]) == Loaded([ConvertZone(data[i]).value] + Load(data[i + 1..]).zones, Load(data[i + 1..]).complete)
  {
    assert data[i..][0] == data[i];
    assert data[i..][1..] == data[i + 1..];
  }

  /** Every polygon has at least 3 points. */
  predicate AllPolygons(zones: seq<seq<PixelPoint>>) {
    forall i :: 0 <= i < |zones| ==> |zones[i]| >= 3
  }
}
