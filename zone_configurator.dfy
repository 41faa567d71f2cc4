// ZoneConfigurator (src/ui/zone_configurator.py): the zone drawing tool's list
// state. Clicks add points to the polygon being drawn; ENTER completes it (3
// points or more), ESC cancels it, 'u' undoes the last completed zone, 'c'
// clears everything and 'h' toggles the help overlay. Zones can be loaded back
// from a zone file. The image, the drawing and the window are not modelled.
module ZoneConfiguration {
  import opened Wrappers
  import opened ZoneEditing

  /** ZONE_COLORS (BGR). */
  const Palette: seq<Colour> := [
    Colour(75, 25, 230), Colour(75, 180, 60), Colour(25, 225, 255), Colour(209, 120, 60),
    Colour(230, 50, 240), Colour(60, 255, 255), Colour(128, 128, 128), Colour(0, 165, 255)]

  /** _get_zone_color: Python's % on a positive modulus is never negative, as in Dafny. */
  function ZoneColour(zoneIndex: int): Colour {
    Palette[zoneIndex % |Palette|]
  }

  /** Zone colours repeat every 8 zones. */
  lemma ZoneColourCycle(zoneIndex: int)
    ensures ZoneColour(zoneIndex) == ZoneColour(zoneIndex % 8)
    ensures ZoneColour(zoneIndex + 8) == ZoneColour(zoneIndex)
  {
  }

  class ZoneConfigurator {
    var completedZones: seq<seq<PixelPoint>>
    var currentZone: seq<PixelPoint>
    var currentMousePos: PixelPoint
    var showHelp: bool

    constructor ()
      ensures completedZones == [] && currentZone == []
      ensures currentMousePos == PixelPoint(0, 0) && !showHelp
    {
      completedZones := [];
      currentZone := [];
      currentMousePos := PixelPoint(0, 0);
      showHelp := false;
    }

    /** _mouse_callback: a move records the position, a left click appends a point, other events change nothing. */
    method MouseCallback(event: MouseEvent, x: int, y: int)
      modifies this`currentMousePos, this`currentZone
      ensures event == MouseMove ==> currentMousePos == PixelPoint(x, y) && currentZone == old(currentZone)
      ensures event == LeftButtonDown ==> currentZone == old(currentZone) + [PixelPoint(x, y)] && currentMousePos == old(currentMousePos)
      ensures event != MouseMove && event != LeftButtonDown ==> unchanged(this)
    {
      if event == MouseMove {
        currentMousePos := PixelPoint(x, y);
      } else if event == LeftButtonDown {
        currentZone := currentZone + [PixelPoint(x, y)];
      }
    }

    /** _complete_current_zone: a polygon of 3 points or more becomes a completed zone; a shorter one stays. */
    method CompleteCurrentZone()
      modifies this`completedZones, this`currentZone
      ensures |old(currentZone)| >= 3 ==> completedZones == old(completedZones) + [old(currentZone)] && currentZone == []
      ensures |old(currentZone)| < 3 ==> completedZones == old(completedZones) && currentZone == old(currentZone)
      ensures AllPolygons(old(completedZones)) ==> AllPolygons(completedZones)
    {
      if |currentZone| >= 3 {
        completedZones := completedZones + [currentZone];
        currentZone := [];
      }
    }

    /** _cancel_current_zone */
    method CancelCurrentZone()
      modifies this`currentZone
      ensures currentZone == [] && completedZones == old(completedZones)
    {
      if currentZone != [] {
        currentZone := [];
      }
    }

    /** _undo_last_zone: the last completed zone goes; nothing happens without one. */
    method UndoLastZone()
      modifies this`completedZones
      ensures old(completedZones) != [] ==> completedZones == old(completedZones)[..|old(completedZones)| - 1]
      ensures old(completedZones) == [] ==> completedZones == []
      ensures AllPolygons(old(completedZones)) ==> AllPolygons(completedZones)
    {
      if completedZones != [] {
        completedZones := completedZones[..|completedZones| - 1];
      }
    }

    /** _clear_all_zones */
    method ClearAllZones()
      modifies this`completedZones, this`currentZone
      ensures completedZones == [] && currentZone == []
    {
      if completedZones != [] || currentZone != [] {
        completedZones := [];
        currentZone := [];
      }
    }

    /** The 'h' key of the run loop. */
    method ToggleHelp()
      modifies this`showHelp
      ensures showHelp == !old(showHelp)
    {
      showHelp := !showHelp;
    }

    /**
     * load_zones: with no readable file nothing changes and the result is
     * False. Otherwise the completed zones are replaced by the file's zones,
     * converted in order; a zone that does not convert stops the load with
     * the zones before it already in place, and the result is False.
     */
    method LoadZones(file: Option<seq<seq<seq<real>>>>) returns (ok: bool)
      modifies this`completedZones
      ensures file.None? ==> !ok && completedZones == old(completedZones)
      ensures file.Some? ==> completedZones == Load(file.value).zones && ok == Load(file.value).complete
    {
      if file.None? {
        return false;
      }
      var data := file.value;
      completedZones := [];
      for i := 0 to |data|
        invariant Load(data) == Loaded(completedZones + Load(data[i..]).zones, Load(data[i..]).complete)
      {
        var zone := ConvertZone(data[i]);
        if zone.None? {
          assert data[i..][0] == data[i];
          return false;
        }
        LoadStep(data, i);
        completedZones := completedZones + [zone.value];
      }
      ok := true;
    }
  }
}
