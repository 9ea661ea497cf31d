/**
 * The literal table of examples written out in `render` (App.js:144-185),
 * in its order, and the facts about it that the catalog relies on.
 *
 * The table is written as six consecutive slices of seven rows so that the
 * facts below can be checked slice by slice; `Examples` is their
 * concatenation, row for row the table of the source.
 */
module Registry {
  import opened Catalog
  /** Rows 1 to 7 of the table (App.js:144-150). */
  const Slice1: seq<Example> := [
    Example(StaticMap, "StaticMap", true, None),
    Example(ThemeMap, "ThemeMap", true, None),
    Example(DisplayLatLng, "Tracking Position", true, Some("(incomplete)")),
    Example(ViewsAsMarkers, "Arbitrary Views as Markers", true, None),
    Example(EventListener, "Events", true, Some("(incomplete)")),
    Example(MarkerTypes, "Image Based Markers", true, None),
    Example(DraggableMarkers, "Draggable Markers", true, None)
  ]
  /** Rows 8 to 14 of the table (App.js:151-157). */
  const Slice2: seq<Example> := [
    Example(PolygonCreator, "Polygon Creator", true, None),
    Example(PolylineCreator, "Polyline Creator", true, None),
    Example(GradientPolylines, "Gradient Polylines", true, None),
    Example(AnimatedViews, "Animating with MapViews", false, None),
    Example(AnimatedMarkers, "Animated Marker Position", false, None),
    Example(Callouts, "Custom Callouts", true, None),
    Example(Overlays, "Circles, Polygons, and Polylines", true, None)
  ]
  /** Rows 15 to 21 of the table (App.js:158-164). */
  const Slice3: seq<Example> := [
    Example(DefaultMarkers, "Default Markers", true, None),
    Example(CustomMarkers, "Custom Markers", true, None),
    Example(TakeSnapshot, "Take Snapshot", true, Some("(incomplete)")),
    Example(CachedMap, "Cached Map", false, None),
    Example(LoadingMap, "Map with loading", false, None),
    Example(MapBoundaries, "Get visible map boundaries", true, None),
    Example(FitToSuppliedMarkers, "Focus Map On Markers", true, None)
  ]
  /** Rows 22 to 28 of the table (App.js:165-171). */
  const Slice4: seq<Example> := [
    Example(FitToCoordinates, "Fit Map To Coordinates", true, None),
    Example(LiteMapView, "Android Lite MapView", false, None),
    Example(CustomTiles, "Custom Tiles", true, None),
    Example(WMSTiles, "WMS Tiles", true, None),
    Example(ZIndexMarkers, "Position Markers with Z-index", true, None),
    Example(MapStyle, "Customize the style of the map", true, None),
    Example(LegalLabel, "Reposition the legal label", true, None)
  ]
  /** Rows 29 to 35 of the table (App.js:172-178). */
  const Slice5: seq<Example> := [
    Example(SetNativePropsOverlays, "Update native props", true, None),
    Example(CustomOverlay, "Custom Overlay Component", true, None),
    Example(TestIdMarkers, "Test ID for Automation", true, None),
    Example(MapKml, "Load Map with KML", true, None),
    Example(BugMarkerWontUpdate, "BUG: Marker Won't Update (Android)", true, None),
    Example(ImageOverlayWithAssets, "Image Overlay Component with Assets", true, None),
    Example(ImageOverlayWithURL, "Image Overlay Component with URL", true, None)
  ]
  /** Rows 36 to 42 of the table (App.js:179-185). */
  const Slice6: seq<Example> := [
    Example(ImageOverlayWithBearing, "Image Overlay with Bearing", true, None),
    Example(AnimatedNavigation, "Animated Map Navigation", true, None),
    Example(OnPoiClick, "On Poi Click", true, None),
    Example(IndoorMap, "Indoor Map", true, None),
    Example(CameraControl, "CameraControl", true, None),
    Example(MassiveCustomMarkers, "MassiveCustomMarkers", true, None),
    Example(GeojsonMap, "Geojson", true, None)
  ]
  /** The whole table, in source order. */
  const Examples: seq<Example> := Slice1 + Slice2 + Slice3 + Slice4 + Slice5 + Slice6
  /** The position of each screen's row in the table. */
  function RowOf(screen: Screen): nat
  {
    match screen
    case StaticMap => 0
    case ThemeMap => 1
    case DisplayLatLng => 2
    case ViewsAsMarkers => 3
    case EventListener => 4
    case MarkerTypes => 5
    case DraggableMarkers => 6
    case PolygonCreator => 7
    case PolylineCreator => 8
    case GradientPolylines => 9
    case AnimatedViews => 10
    case AnimatedMarkers => 11
    case Callouts => 12
    case Overlays => 13
    case DefaultMarkers => 14
    case CustomMarkers => 15
    case TakeSnapshot => 16
    case CachedMap => 17
    case LoadingMap => 18
    case MapBoundaries => 19
    case FitToSuppliedMarkers => 20
    case FitToCoordinates => 21
    case LiteMapView => 22
    case CustomTiles => 23
    case WMSTiles => 24
    case ZIndexMarkers => 25
    case MapStyle => 26
    case LegalLabel => 27
    case SetNativePropsOverlays => 28
    case CustomOverlay => 29
    case TestIdMarkers => 30
    case MapKml => 31
    case BugMarkerWontUpdate => 32
    case ImageOverlayWithAssets => 33
    case ImageOverlayWithURL => 34
    case ImageOverlayWithBearing => 35
    case AnimatedNavigation => 36
    case OnPoiClick => 37
    case IndoorMap => 38
    case CameraControl => 39
    case MassiveCustomMarkers => 40
    case GeojsonMap => 41
  }

  /**
   * The row-wise conditions under which Google-mode labels stay apart: every
   * title is non-empty and does not already end with " (incomplete)", and the
   * only extra label used is "(incomplete)".
   */
  predicate PlainRows(rows: seq<Example>)
  {
    forall k :: 0 <= k < |rows| ==>
      rows[k].title != "" && !EndsWith(rows[k].title, " (incomplete)") &&
      (rows[k].extraLabel == None || rows[k].extraLabel == Some("(incomplete)"))
  }

  lemma PlainRowsAppend(a: seq<Example>, b: seq<Example>)
    requires PlainRows(a) && PlainRows(b)
    ensures PlainRows(a + b)
  {
    forall k | 0 <= k < |a + b| ensures (a + b)[k] == if k < |a| then a[k] else b[k - |a|] {
    }
  }

  // Facts about each slice, and between slices, checked on the literal rows.
  // These lemmas only split the table into pieces small enough for the solver;
  // the whole-table lemmas below combine them through the append lemmas.
  lemma Slice1Plain() ensures PlainRows(Slice1) {}
  lemma Slice1Titles() ensures DistinctTitles(Slice1) {}
  lemma Slice1Rows() ensures forall k :: 0 <= k < 7 ==> RowOf(Slice1[k].screen) == 0 + k {}
  lemma Slice1Rejected() ensures Rejected(IOS, true, Slice1) == 0 {}
  lemma Slice2Plain() ensures PlainRows(Slice2) {}
  lemma Slice2Titles() ensures DistinctTitles(Slice2) {}
  lemma Slice2Rows() ensures forall k :: 0 <= k < 7 ==> RowOf(Slice2[k].screen) == 7 + k {}
  lemma Slice2Rejected() ensures Rejected(IOS, true, Slice2) == 2 {}
  lemma Slice3Plain() ensures PlainRows(Slice3) {}
  lemma Slice3Titles() ensures DistinctTitles(Slice3) {}
  lemma Slice3Rows() ensures forall k :: 0 <= k < 7 ==> RowOf(Slice3[k].screen) == 14 + k {}
  lemma Slice3Rejected() ensures Rejected(IOS, true, Slice3) == 2 {}
  lemma Slice4Plain() ensures PlainRows(Slice4) {}
  lemma Slice4Titles() ensures DistinctTitles(Slice4) {}
  lemma Slice4Rows() ensures forall k :: 0 <= k < 7 ==> RowOf(Slice4[k].screen) == 21 + k {}
  lemma Slice4Rejected() ensures Rejected(IOS, true, Slice4) == 1 {}
  lemma Slice5Plain() ensures PlainRows(Slice5) {}
  lemma Slice5Titles() ensures DistinctTitles(Slice5) {}
  lemma Slice5Rows() ensures forall k :: 0 <= k < 7 ==> RowOf(Slice5[k].screen) == 28 + k {}
  lemma Slice5Rejected() ensures Rejected(IOS, true, Slice5) == 0 {}
  lemma Slice6Plain() ensures PlainRows(Slice6) {}
  lemma Slice6Titles() ensures DistinctTitles(Slice6) {}
  lemma Slice6Rows() ensures forall k :: 0 <= k < 7 ==> RowOf(Slice6[k].screen) == 35 + k {}
  lemma Slice6Rejected() ensures Rejected(IOS, true, Slice6) == 0 {}
  lemma Slices12Titles() ensures TitlesDisjoint(Slice1, Slice2) {}
  lemma Slices13Titles() ensures TitlesDisjoint(Slice1, Slice3) {}
  lemma Slices14Titles() ensures TitlesDisjoint(Slice1, Slice4) {}
  lemma Slices15Titles() ensures TitlesDisjoint(Slice1, Slice5) {}
  lemma Slices16Titles() ensures TitlesDisjoint(Slice1, Slice6) {}
  lemma Slices23Titles() ensures TitlesDisjoint(Slice2, Slice3) {}
  lemma Slices24Titles() ensures TitlesDisjoint(Slice2, Slice4) {}
  lemma Slices25Titles() ensures TitlesDisjoint(Slice2, Slice5) {}
  lemma Slices26Titles() ensures TitlesDisjoint(Slice2, Slice6) {}
  lemma Slices34Titles() ensures TitlesDisjoint(Slice3, Slice4) {}
  lemma Slices35Titles() ensures TitlesDisjoint(Slice3, Slice5) {}
  lemma Slices36Titles() ensures TitlesDisjoint(Slice3, Slice6) {}
  lemma Slices45Titles() ensures TitlesDisjoint(Slice4, Slice5) {}
  lemma Slices46Titles() ensures TitlesDisjoint(Slice4, Slice6) {}
  lemma Slices56Titles() ensures TitlesDisjoint(Slice5, Slice6) {}

  // Facts about the whole table.

  /**
   * The table has 42 rows, five of which lack the compatibility flag, so
   * iOS with Google Maps on shows 37 of them.
   */
  lemma {:induction false} TableSize()
    ensures |Examples| == 42
    ensures Rejected(IOS, true, Examples) == 5
    ensures |VisibleExamples(IOS, true, Examples)| == 37
  {
    Slice1Rejected();
    Slice2Rejected();
    Slice3Rejected();
    Slice4Rejected();
    Slice5Rejected();
    Slice6Rejected();
    RejectedAppend(IOS, true, Slice1, Slice2);
    RejectedAppend(IOS, true, Slice1 + Slice2, Slice3);
    RejectedAppend(IOS, true, Slice1 + Slice2 + Slice3, Slice4);
    RejectedAppend(IOS, true, Slice1 + Slice2 + Slice3 + Slice4, Slice5);
    RejectedAppend(IOS, true, Slice1 + Slice2 + Slice3 + Slice4 + Slice5, Slice6);
    FilterLength(IOS, true, Examples);
  }

  /** The titles of the table are pairwise distinct. */
  lemma TitlesDistinct()
    ensures DistinctTitles(Examples)
  {
    Slice1Titles();
    Slice2Titles();
    Slice3Titles();
    Slice4Titles();
    Slice5Titles();
    Slice6Titles();
    Slices12Titles();
    Slices13Titles();
    Slices14Titles();
    Slices15Titles();
    Slices16Titles();
    Slices23Titles();
    Slices24Titles();
    Slices25Titles();
    Slices26Titles();
    Slices34Titles();
    Slices35Titles();
    Slices36Titles();
    Slices45Titles();
    Slices46Titles();
    Slices56Titles();
    DistinctTitlesAppend(Slice1, Slice2);
    TitlesDisjointAppend(Slice1, Slice2, Slice3);
    DistinctTitlesAppend(Slice1 + Slice2, Slice3);
    TitlesDisjointAppend(Slice1, Slice2, Slice4);
    TitlesDisjointAppend(Slice1 + Slice2, Slice3, Slice4);
    DistinctTitlesAppend(Slice1 + Slice2 + Slice3, Slice4);
    TitlesDisjointAppend(Slice1, Slice2, Slice5);
    TitlesDisjointAppend(Slice1 + Slice2, Slice3, Slice5);
    TitlesDisjointAppend(Slice1 + Slice2 + Slice3, Slice4, Slice5);
    DistinctTitlesAppend(Slice1 + Slice2 + Slice3 + Slice4, Slice5);
    TitlesDisjointAppend(Slice1, Slice2, Slice6);
    TitlesDisjointAppend(Slice1 + Slice2, Slice3, Slice6);
    TitlesDisjointAppend(Slice1 + Slice2 + Slice3, Slice4, Slice6);
    TitlesDisjointAppend(Slice1 + Slice2 + Slice3 + Slice4, Slice5, Slice6);
    DistinctTitlesAppend(Slice1 + Slice2 + Slice3 + Slice4 + Slice5, Slice6);
  }

  /** Each screen is opened by one row only: the row that RowOf names. */
  lemma ScreensDistinct()
    ensures forall k :: 0 <= k < |Examples| ==> RowOf(Examples[k].screen) == k
    ensures DistinctScreens(Examples)
  {
    Slice1Rows();
    Slice2Rows();
    Slice3Rows();
    Slice4Rows();
    Slice5Rows();
    Slice6Rows();
    forall k | 0 <= k < |Examples| ensures RowOf(Examples[k].screen) == k {
      if k < 7 {
        assert Examples[k] == Slice1[k - 0];
      } else if k < 14 {
        assert Examples[k] == Slice2[k - 7];
      } else if k < 21 {
        assert Examples[k] == Slice3[k - 14];
      } else if k < 28 {
        assert Examples[k] == Slice4[k - 21];
      } else if k < 35 {
        assert Examples[k] == Slice5[k - 28];
      } else {
        assert Examples[k] == Slice6[k - 35];
      }
    }
  }

  /** The labels shown on iOS with Google Maps on are pairwise distinct too. */
  lemma GoogleLabelsApart()
    ensures DistinctLabels(true, Examples)
  {
    TitlesDistinct();
    Slice1Plain();
    Slice2Plain();
    Slice3Plain();
    Slice4Plain();
    Slice5Plain();
    Slice6Plain();
    PlainRowsAppend(Slice1, Slice2);
    PlainRowsAppend(Slice1 + Slice2, Slice3);
    PlainRowsAppend(Slice1 + Slice2 + Slice3, Slice4);
    PlainRowsAppend(Slice1 + Slice2 + Slice3 + Slice4, Slice5);
    PlainRowsAppend(Slice1 + Slice2 + Slice3 + Slice4 + Slice5, Slice6);
    assert " " + "(incomplete)" == " (incomplete)";
    GoogleLabelsDistinct(Examples, "(incomplete)");
  }

  /**
   * On every platform and for either switch position, the buttons of the
   * catalog carry pairwise distinct keys (App.js:85).
   */
  lemma ListKeysDistinct(platform: Platform, useGoogleMaps: bool)
    ensures DistinctTitles(VisibleExamples(platform, useGoogleMaps, Examples))
  {
    TitlesDistinct();
    GoogleLabelsApart();
    VisibleTitlesDistinct(platform, useGoogleMaps, Examples);
  }
}
