// InteractiveZoneCreator (src/utils/interactive_zone_creator.py): the zone tool
// that draws on a video's first frame. Left clicks add points, a right click or
// complete_zone turns a polygon of 3 points or more into a zone, ESC cancels
// the polygon being drawn and 'c' clears everything. Zones are saved to and
// loaded from a zone file. The frame, the drawing and the window are not
// modelled; the file system is reduced to which paths a save can write and
// what a load reads.
module ZoneCreation {
  import opened Wrappers
  import opened ZoneEditing

  /** zone_colors of the creator. */
  const Palette: seq<Colour> := [
    Colour(0, 0, 255), Colour(0, 255, 0), Colour(255, 0, 0), Colour(0, 255, 255),
    Colour(255, 0, 255), Colour(255, 255, 0), Colour(128, 128, 128), Colour(255, 165, 0)]

  /** Python's str.replace: every non-overlapping occurrence of `target`, left to right. */
  function Replace(s: string, target: string, replacement: string): string
    requires |target| > 0
    decreases |s|
  {
    if |s| < |target| then s
    else if s[..|target|] == target then replacement + Replace(s[|target|..], target, replacement)
    else [s[0]] + Replace(s[1..], target, replacement)
  }

  /** `target` occurs somewhere in `s`, as Python's `in` on strings. */
  predicate Occurs(s: string, target: string)
    decreases |s|
  {
    |s| >= |target| && (s[..|target|] == target || Occurs(s[1..], target))
  }

  /**
   * Replacing by something longer leaves a string without the target as it is,
   * and makes one with the target strictly longer.
   */
  lemma {:induction false} ReplaceGrows(s: string, target: string, replacement: string)
    requires 0 < |target| < |replacement|
    ensures !Occurs(s, target) ==> Replace(s, target, replacement) == s
    ensures Occurs(s, target) ==> |Replace(s, target, replacement)| > |s|
    decreases |s|
  {
    if |s| < |target| {
    } else if s[..|target|] == target {
      ReplaceGrows(s[|target|..], target, replacement);
      if !Occurs(s[|target|..], target) {
      }
    } else {
      ReplaceGrows(s[1..], target, replacement);
      if !Occurs(s[1..], target) {
        assert [s[0]] + s[1..] == s;
      }
    }
  }

  /** The summary file's path: every ".json" of the zone file's path becomes "_summary.txt". */
  function SummaryPath(outputPath: string): string {
    Replace(outputPath, ".json", "_summary.txt")
  }

  /**
   * The summary goes to the zone file's own path exactly when that path has no
   * ".json" in it, e.g. "zones" or "zones.txt".
   */
  lemma SummaryPathSame(outputPath: string)
    ensures SummaryPath(outputPath) == outputPath <==> !Occurs(outputPath, ".json")
  {
    ReplaceGrows(outputPath, ".json", "_summary.txt");
  }

  /** A zone file saved as "zones.txt" shares its path with the summary. */
  lemma SummaryPathExample()
    ensures SummaryPath("zones.txt") == "zones.txt"
  {
    SummaryPathSame("zones.txt");
    assert !Occurs("zones.txt", ".json") by {
      assert "zones.txt"[..5] != ".json";
      assert "ones.txt"[..5] != ".json";
      assert "nes.txt"[..5] != ".json";
      assert "es.txt"[..5] != ".json";
      assert "s.txt"[..5] != ".json";
    }
  }

  /** What the zone file holds after a save. */
  datatype ZoneFile = Untouched | Zones(zones: seq<seq<PixelPoint>>) | SummaryText

  /** get_zone_color */
  function ZoneColour(zoneIndex: int): Colour {
    Palette[zoneIndex % |Palette|]
  }

  /** Zone colours repeat every 8 zones. */
  lemma ZoneColourCycle(zoneIndex: int)
    ensures ZoneColour(zoneIndex) == ZoneColour(zoneIndex % 8)
    ensures ZoneColour(zoneIndex + 8) == ZoneColour(zoneIndex)
  {
  }

  class InteractiveZoneCreator {
    var currentZone: seq<PixelPoint>
    var completedZones: seq<seq<PixelPoint>>
    var mousePos: PixelPoint

    constructor ()
      ensures currentZone == [] && completedZones == [] && mousePos == PixelPoint(0, 0)
    {
      currentZone := [];
      completedZones := [];
      mousePos := PixelPoint(0, 0);
    }

    /** complete_zone: a polygon of 3 points or more becomes a completed zone; a shorter one stays. */
    method CompleteZone()
      modifies this`completedZones, this`currentZone
      ensures |old(currentZone)| >= 3 ==> completedZones == old(completedZones) + [old(currentZone)] && currentZone == []
      ensures |old(currentZone)| < 3 ==> completedZones == old(completedZones) && currentZone == old(currentZone)
      ensures AllPolygons(old(completedZones)) ==> AllPolygons(completedZones)
    {
      if |currentZone| >= 3 {
        completedZones := completedZones + [currentZone];
        currentZone := [];
      }
    }

    /**
     * mouse_callback: every event records the position; a left click appends
     * a point, a right click completes a polygon of 3 points or more.
     */
    method MouseCallback(event: MouseEvent, x: int, y: int)
      modifies this`mousePos, this`currentZone, this`completedZones
      ensures mousePos == PixelPoint(x, y)
      ensures event == LeftButtonDown ==> currentZone == old(currentZone) + [PixelPoint(x, y)] && completedZones == old(completedZones)
      ensures event == RightButtonDown && |old(currentZone)| >= 3 ==>
        completedZones == old(completedZones) + [old(currentZone)] && currentZone == []
      ensures event == RightButtonDown && |old(currentZone)| < 3 ==>
        completedZones == old(completedZones) && currentZone == old(currentZone)
      ensures event != LeftButtonDown && event != RightButtonDown ==>
        completedZones == old(completedZones) && currentZone == old(currentZone)
      ensures AllPolygons(old(completedZones)) ==> AllPolygons(completedZones)
    {
      mousePos := PixelPoint(x, y);
      if event == LeftButtonDown {
        currentZone := currentZone + [PixelPoint(x, y)];
      } else if event == RightButtonDown {
        if |currentZone| >= 3 {
          CompleteZone();
        }
      }
    }

    /** cancel_current_zone */
    method CancelCurrentZone()
      modifies this`currentZone
      ensures currentZone == [] && completedZones == old(completedZones)
    {
      if currentZone != [] {
        currentZone := [];
      }
    }

    /** clear_all_zones */
    method ClearAllZones()
      modifies this`completedZones, this`currentZone
      ensures completedZones == [] && currentZone == []
    {
      if completedZones != [] || currentZone != [] {
        completedZones := [];
        currentZone := [];
      }
    }

    /**
     * save_zones: without completed zones nothing is written and the result
     * is False. Otherwise the zones are written to `outputPath` and the summary
     * to SummaryPath(outputPath), each when `canWrite` allows it; a failure
     * gives False, after the zone file was written when only the summary
     * fails. When the two paths coincide the summary text replaces the zones
     * and the result is still True. `file` is what the zone file then holds.
     */
    method SaveZones(outputPath: string, canWrite: string -> bool) returns (ok: bool, file: ZoneFile)
      ensures completedZones == [] ==> !ok && file == Untouched
      ensures completedZones != [] ==> ok == (canWrite(outputPath) && canWrite(SummaryPath(outputPath)))
      ensures completedZones != [] && !canWrite(outputPath) ==> file == Untouched
      ensures completedZones != [] && canWrite(outputPath) ==>
        file == (if ok && !Occurs(outputPath, ".json") then SummaryText else Zones(completedZones))
    {
      if completedZones == [] {
        return false, Untouched;
      }
      if !canWrite(outputPath) {
        return false, Untouched;
      }
      file := Zones(completedZones);
      var summaryPath := SummaryPath(outputPath);
      if !canWrite(summaryPath) {
        return false, file;
      }
      SummaryPathSame(outputPath);
      if summaryPath == outputPath {
        file := SummaryText;
      }
      ok := true;
    }

    /**
     * load_existing_zones: with no file, or one that is not valid JSON, the
     * result is False and nothing changes. Otherwise the completed zones are
     * replaced by the file's zones, converted in order; a zone that does not
     * convert stops the load with the zones before it already in place.
     */
    method LoadExistingZones(file: Option<seq<seq<seq<real>>>>) returns (ok: bool)
      modifies this`completedZones
      ensures file.None? ==> !ok && completedZones == old(completedZones)
      ensures file.Some? ==> completedZones == Load(file.value).zones && ok == Load(file.value).complete
    {
      if file.None? {
        return false;
      }
      var data := file.value;
      completedZones := [];
      for i := 0 to |data|
        invariant Load(data) == Loaded(completedZones + Load(data[i..]).zones, Load(data[i..]).complete)
      {
        var zone := ConvertZone(data[i]);
        if zone.None? {
          assert data[i..][0] == data[i];
          return false;
        }
        LoadStep(data, i);
        completedZones := completedZones + [zone.value];
      }
      ok := true;
    }
  }
}
