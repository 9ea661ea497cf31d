/**
 * The example catalog of the maps demo application: the entities of the
 * catalog and the pure pipeline that turns the static table of examples
 * into the list of buttons shown in the catalog view.
 *
 * The pipeline is `table.filter(admit).map(makeExampleMapper(IOS && useGoogleMaps))`
 * (App.js:188-192), modelled here as FilterExamples followed by MapExamples.
 */
module Catalog {

  datatype Option<+T> = None | Some(value: T)

  /** The value of `Platform.OS`, reduced to what App.js:59-60 distinguishes. */
  datatype Platform = IOS | Android | OtherOS

  /** The two provider constants of the map library, as opaque handles. */
  datatype Provider = ProviderGoogle | ProviderDefault

  /** The 42 imported example screens (App.js:13-54), as opaque handles. */
  datatype Screen =
    | DisplayLatLng | ViewsAsMarkers | EventListener | MarkerTypes
    | DraggableMarkers | PolygonCreator | PolylineCreator | GradientPolylines
    | AnimatedViews | AnimatedMarkers | Callouts | Overlays
    | DefaultMarkers | CustomMarkers | CachedMap | LoadingMap
    | MapBoundaries | TakeSnapshot | FitToSuppliedMarkers | FitToCoordinates
    | LiteMapView | CustomTiles | WMSTiles | ZIndexMarkers
    | StaticMap | ThemeMap | MapStyle | LegalLabel
    | SetNativePropsOverlays | CustomOverlay | MapKml | BugMarkerWontUpdate
    | ImageOverlayWithAssets | ImageOverlayWithURL | ImageOverlayWithBearing | AnimatedNavigation
    | OnPoiClick | TestIdMarkers | IndoorMap | CameraControl
    | MassiveCustomMarkers | GeojsonMap

  /**
   * One row of the table: `[component, description, googleCompatible?, extraLabel?]`.
   * A missing third slot is `undefined`, i.e. false; a missing fourth slot is None.
   */
  datatype Example = Example(screen: Screen, title: string, googleCompatible: bool, extraLabel: Option<string>)

  /** `Boolean(x)` for a string slot that may be `undefined`: present and non-empty. */
  predicate Truthy(part: Option<string>)
  {
    part.Some? && part.value != ""
  }

  /** `parts.filter(Boolean)`: the truthy parts, in their order. */
  function KeepTruthy(parts: seq<Option<string>>): (r: seq<string>)
    ensures |r| <= |parts|
    ensures forall k :: 0 <= k < |r| ==> r[k] != ""
    ensures forall k :: 0 <= k < |parts| && Truthy(parts[k]) ==> parts[k].value in r
    ensures forall x :: x in r ==> Some(x) in parts
    ensures |parts| == 1 ==> r == (if Truthy(parts[0]) then [parts[0].value] else [])
  {
    if parts == [] then []
    else if Truthy(parts[0]) then [parts[0].value] + KeepTruthy(parts[1..])
    else KeepTruthy(parts[1..])
  }

  /** Sum of the lengths of the parts. */
  function TotalLength(parts: seq<string>): nat
  {
    if parts == [] then 0 else |parts[0]| + TotalLength(parts[1..])
  }

  /** `parts.join(sep)`: the parts with one separator between neighbours. */
  function Join(parts: seq<string>, sep: string): (r: string)
    ensures parts == [] ==> r == ""
    ensures parts != [] ==> |r| == TotalLength(parts) + (|parts| - 1) * |sep|
    ensures parts != [] ==> r[..|parts[0]|] == parts[0]
    ensures |parts| == 1 ==> r == parts[0]
  {
    if |parts| == 0 then ""
    else if |parts| == 1 then parts[0]
    else parts[0] + sep + Join(parts[1..], sep)
  }

  /**
   * `filter(Boolean)` distributes over concatenation: the truthy parts of
   * `a + b` are those of `a` followed by those of `b`, so order and
   * multiplicity are kept.
   */
  lemma {:induction false} KeepTruthyAppend(a: seq<Option<string>>, b: seq<Option<string>>)
    ensures KeepTruthy(a + b) == KeepTruthy(a) + KeepTruthy(b)
    decreases |a|
  {
    if a == [] {
      assert a + b == b;
    } else {
      assert (a + b)[0] == a[0];
      assert (a + b)[1..] == a[1..] + b;
      KeepTruthyAppend(a[1..], b);
    }
  }

  /** Joining two non-empty lists of parts puts exactly one separator between them. */
  lemma {:induction false} JoinAppend(a: seq<string>, b: seq<string>, sep: string)
    requires a != [] && b != []
    ensures Join(a + b, sep) == Join(a, sep) + sep + Join(b, sep)
    decreases |a|
  {
    var ab := a + b;
    assert ab[0] == a[0] && |ab| > 1;
    assert ab[1..] == a[1..] + b;
    if |a| == 1 {
      assert a[1..] + b == b;
    } else {
      var rest := Join(a[1..], sep);
      calc {
        Join(ab, sep);
        a[0] + sep + Join(a[1..] + b, sep);
        { JoinAppend(a[1..], b, sep); }
        a[0] + sep + (rest + sep + Join(b, sep));
        (a[0] + sep + rest) + sep + Join(b, sep);
      }
    }
  }

  /**
   * The label of a row when Google Maps is in use on iOS:
   * `[title, extraLabel].filter(Boolean).join(' ')` (App.js:66).
   */
  function DisplayLabel(title: string, extraLabel: Option<string>): (r: string)
    ensures title != "" && Truthy(extraLabel) ==> r == title + " " + extraLabel.value
    ensures !Truthy(extraLabel) ==> r == title
    ensures title == "" && Truthy(extraLabel) ==> r == extraLabel.value
  {
    var parts := [Some(title), extraLabel];
    var tail := if Truthy(extraLabel) then [extraLabel.value] else [];
    assert parts[1..] == [extraLabel] && parts[1..][1..] == [];
    assert KeepTruthy(parts[1..]) == tail;
    var kept := (if title != "" then [title] else []) + tail;
    assert KeepTruthy(parts) == kept;
    assert |kept| == 2 ==> kept[1..] == [kept[1]] && Join(kept, " ") == kept[0] + " " + kept[1];
    Join(KeepTruthy(parts), " ")
  }

  /**
   * The function returned by `makeExampleMapper(useGoogleMaps)` applied to
   * one row (App.js:62-70). In Google mode the result is a two-slot row, so
   * its compatibility flag and extra label are `undefined`.
   */
  function MapExample(useGoogleMaps: bool, e: Example): (r: Example)
    ensures r.screen == e.screen
    ensures useGoogleMaps ==> r.title == DisplayLabel(e.title, e.extraLabel)
    ensures useGoogleMaps ==> !r.googleCompatible && r.extraLabel == None
    ensures !useGoogleMaps ==> r == e
  {
    if useGoogleMaps then Example(e.screen, DisplayLabel(e.title, e.extraLabel), false, None)
    else e
  }

  /** The filter callback: `ANDROID || (IOS && (example[2] || !useGoogleMaps))` (App.js:188-191). */
  predicate Admits(platform: Platform, useGoogleMaps: bool, e: Example)
  {
    platform == Android || (platform == IOS && (e.googleCompatible || !useGoogleMaps))
  }

  /** `rows.filter(admit)` with the callback of App.js:189-190. */
  function FilterExamples(platform: Platform, useGoogleMaps: bool, rows: seq<Example>): (r: seq<Example>)
    ensures |r| <= |rows|
    ensures forall j :: 0 <= j < |r| ==> Admits(platform, useGoogleMaps, r[j])
  {
    if rows == [] then []
    else if Admits(platform, useGoogleMaps, rows[0])
    then [rows[0]] + FilterExamples(platform, useGoogleMaps, rows[1..])
    else FilterExamples(platform, useGoogleMaps, rows[1..])
  }

  /** `rows.map(makeExampleMapper(useGoogleMaps))`. */
  function MapExamples(useGoogleMaps: bool, rows: seq<Example>): (r: seq<Example>)
    ensures |r| == |rows|
    ensures forall k :: 0 <= k < |r| ==> r[k] == MapExample(useGoogleMaps, rows[k])
  {
    if rows == [] then []
    else [MapExample(useGoogleMaps, rows[0])] + MapExamples(useGoogleMaps, rows[1..])
  }

  /**
   * The positions of `rows` that survive the filter, in increasing order:
   * the filter never reorders what it keeps.
   */
  function KeptIndices(platform: Platform, useGoogleMaps: bool, rows: seq<Example>): (idx: seq<nat>)
    ensures forall j :: 0 <= j < |idx| ==> idx[j] < |rows| && Admits(platform, useGoogleMaps, rows[idx[j]])
    ensures forall i, j :: 0 <= i < j < |idx| ==> idx[i] < idx[j]
  {
    if rows == [] then []
    else
      var rest := KeptIndices(platform, useGoogleMaps, rows[1..]);
      if Admits(platform, useGoogleMaps, rows[0]) then [0] + Shift(rest) else Shift(rest)
  }

  /** Every admitted position of `rows` is among the kept ones. */
  lemma {:induction false} KeptIndicesComplete(platform: Platform, useGoogleMaps: bool, rows: seq<Example>, k: nat)
    requires k < |rows| && Admits(platform, useGoogleMaps, rows[k])
    ensures k in KeptIndices(platform, useGoogleMaps, rows)
  {
    var rest := KeptIndices(platform, useGoogleMaps, rows[1..]);
    if k > 0 {
      KeptIndicesComplete(platform, useGoogleMaps, rows[1..], k - 1);
      var j :| 0 <= j < |rest| && rest[j] == k - 1;
      assert Shift(rest)[j] == k;
    }
  }

  /** The filter's output is the table read at the kept positions. */
  lemma {:induction false} FilterAtKeptIndices(platform: Platform, useGoogleMaps: bool, rows: seq<Example>)
    ensures |FilterExamples(platform, useGoogleMaps, rows)| == |KeptIndices(platform, useGoogleMaps, rows)|
    ensures forall j :: 0 <= j < |KeptIndices(platform, useGoogleMaps, rows)| ==>
      FilterExamples(platform, useGoogleMaps, rows)[j] == rows[KeptIndices(platform, useGoogleMaps, rows)[j]]
  {
    if rows != [] {
      FilterAtKeptIndices(platform, useGoogleMaps, rows[1..]);
      var rest := KeptIndices(platform, useGoogleMaps, rows[1..]);
      var tail := FilterExamples(platform, useGoogleMaps, rows[1..]);
      var idx := KeptIndices(platform, useGoogleMaps, rows);
      var f := FilterExamples(platform, useGoogleMaps, rows);
      if Admits(platform, useGoogleMaps, rows[0]) {
        assert f == [rows[0]] + tail && idx == [0] + Shift(rest);
        forall j | 1 <= j < |idx| ensures f[j] == rows[idx[j]] {
          assert f[j] == tail[j - 1] && idx[j] == rest[j - 1] + 1;
        }
      } else {
        assert f == tail && idx == Shift(rest);
        forall j | 0 <= j < |idx| ensures f[j] == rows[idx[j]] {
          assert idx[j] == rest[j] + 1;
        }
      }
    }
  }

  /** Every index moved one place right. */
  function Shift(idx: seq<nat>): seq<nat>
  {
    seq(|idx|, j requires 0 <= j < |idx| => idx[j] + 1)
  }

  /**
   * The list handed to `renderExamples` (App.js:141-192): the admitted rows,
   * in table order, each passed through the mapper, which is in Google mode
   * only on iOS with Google Maps switched on.
   */
  function VisibleExamples(platform: Platform, useGoogleMaps: bool, rows: seq<Example>): (r: seq<Example>)
    ensures |r| == |KeptIndices(platform, useGoogleMaps, rows)| <= |rows|
    ensures forall j :: 0 <= j < |r| ==>
      r[j] == MapExample(platform == IOS && useGoogleMaps, rows[KeptIndices(platform, useGoogleMaps, rows)[j]])
  {
    FilterAtKeptIndices(platform, useGoogleMaps, rows);
    MapExamples(platform == IOS && useGoogleMaps, FilterExamples(platform, useGoogleMaps, rows))
  }

  /** No two rows share a title (the title is the React list key, App.js:85). */
  predicate DistinctTitles(rows: seq<Example>)
  {
    forall i, j :: 0 <= i < j < |rows| ==> rows[i].title != rows[j].title
  }

  /** No two rows would share a title once passed through the mapper. */
  predicate DistinctLabels(useGoogleMaps: bool, rows: seq<Example>)
  {
    forall i, j :: 0 <= i < j < |rows| ==>
      MapExample(useGoogleMaps, rows[i]).title != MapExample(useGoogleMaps, rows[j]).title
  }

  /** No title of `a` is a title of `b`. */
  predicate TitlesDisjoint(a: seq<Example>, b: seq<Example>)
  {
    forall i, j :: 0 <= i < |a| && 0 <= j < |b| ==> a[i].title != b[j].title
  }

  /** `t` ends with `suffix`. */
  predicate EndsWith(t: string, suffix: string)
  {
    |suffix| <= |t| && t[|t| - |suffix|..] == suffix
  }

  /** No two rows open the same screen. */
  predicate DistinctScreens(rows: seq<Example>)
  {
    forall i, j :: 0 <= i < j < |rows| ==> rows[i].screen != rows[j].screen
  }

  /** The number of rows the filter callback turns away. */
  function Rejected(platform: Platform, useGoogleMaps: bool, rows: seq<Example>): nat
  {
    if rows == [] then 0
    else (if Admits(platform, useGoogleMaps, rows[0]) then 0 else 1) + Rejected(platform, useGoogleMaps, rows[1..])
  }

  // ---------------------------------------------------------------------------
  // Properties of the pipeline
  // ---------------------------------------------------------------------------

  /** A filter whose callback admits every row returns the rows unchanged. */
  lemma {:induction false} FilterAdmittingAll(platform: Platform, useGoogleMaps: bool, rows: seq<Example>)
    requires forall k :: 0 <= k < |rows| ==> Admits(platform, useGoogleMaps, rows[k])
    ensures FilterExamples(platform, useGoogleMaps, rows) == rows
  {
    if rows != [] {
      FilterAdmittingAll(platform, useGoogleMaps, rows[1..]);
    }
  }

  /** On Android every row is shown, in order, with its title unchanged. */
  lemma AndroidShowsEverything(useGoogleMaps: bool, rows: seq<Example>)
    ensures VisibleExamples(Android, useGoogleMaps, rows) == rows
  {
    FilterAdmittingAll(Android, useGoogleMaps, rows);
  }

  /** On iOS with Google Maps off every row is shown, in order, with its title unchanged. */
  lemma IosDefaultShowsEverything(rows: seq<Example>)
    ensures VisibleExamples(IOS, false, rows) == rows
  {
    FilterAdmittingAll(IOS, false, rows);
  }

  /** A filter whose callback admits no row returns nothing. */
  lemma {:induction false} FilterAdmittingNone(platform: Platform, useGoogleMaps: bool, rows: seq<Example>)
    requires forall k :: 0 <= k < |rows| ==> !Admits(platform, useGoogleMaps, rows[k])
    ensures FilterExamples(platform, useGoogleMaps, rows) == []
  {
    if rows != [] {
      FilterAdmittingNone(platform, useGoogleMaps, rows[1..]);
    }
  }

  /** On a platform that is neither iOS nor Android nothing is shown. */
  lemma OtherPlatformShowsNothing(useGoogleMaps: bool, rows: seq<Example>)
    ensures VisibleExamples(OtherOS, useGoogleMaps, rows) == []
  {
    FilterAdmittingNone(OtherOS, useGoogleMaps, rows);
  }

  /**
   * On iOS with Google Maps on, row k of the table is shown iff its
   * compatibility flag is set, and each shown row carries its title joined
   * to its extra label.
   */
  lemma {:induction false} IosGoogleShowsCompatible(rows: seq<Example>)
    ensures var idx := KeptIndices(IOS, true, rows);
      forall k :: 0 <= k < |rows| ==> (k in idx <==> rows[k].googleCompatible)
    ensures var idx := KeptIndices(IOS, true, rows); var v := VisibleExamples(IOS, true, rows);
      forall j :: 0 <= j < |v| ==>
        v[j].screen == rows[idx[j]].screen &&
        v[j].title == DisplayLabel(rows[idx[j]].title, rows[idx[j]].extraLabel)
  {
    var idx := KeptIndices(IOS, true, rows);
    forall k | 0 <= k < |rows| ensures k in idx <==> rows[k].googleCompatible {
      if rows[k].googleCompatible {
        KeptIndicesComplete(IOS, true, rows, k);
      }
    }
  }

  /**
   * A two-row table, one row compatible with an extra label and one not: with
   * Google Maps on, iOS shows only the first, labelled with both words; with
   * it off, iOS shows both with their bare titles.
   */
  lemma TwoRowScenario()
    ensures var rows := [Example(StaticMap, "Alpha", true, Some("(beta)")), Example(ThemeMap, "Bravo", false, None)];
      VisibleExamples(IOS, true, rows) == [Example(StaticMap, "Alpha (beta)", false, None)] &&
      VisibleExamples(IOS, false, rows) == rows
  {
    var rows := [Example(StaticMap, "Alpha", true, Some("(beta)")), Example(ThemeMap, "Bravo", false, None)];
    IosDefaultShowsEverything(rows);
    assert rows[1..][1..] == [];
    assert FilterExamples(IOS, true, rows) == [rows[0]];
    assert DisplayLabel("Alpha", Some("(beta)")) == "Alpha" + " " + "(beta)" == "Alpha (beta)";
    assert MapExamples(true, [rows[0]]) == [MapExample(true, rows[0])];
  }

  /** Outside "iOS with Google Maps on" the label mapper is the identity. */
  lemma TitlesUnchangedOutsideIosGoogle(platform: Platform, useGoogleMaps: bool, rows: seq<Example>)
    requires !(platform == IOS && useGoogleMaps)
    ensures VisibleExamples(platform, useGoogleMaps, rows) == FilterExamples(platform, useGoogleMaps, rows)
  {
  }

  /**
   * The filter removes rows and never duplicates one: when the titles of the
   * table are distinct, and stay distinct through the label mapper where it
   * is active, the buttons shown have distinct keys.
   */
  lemma VisibleTitlesDistinct(platform: Platform, useGoogleMaps: bool, rows: seq<Example>)
    requires DistinctTitles(rows)
    requires platform == IOS && useGoogleMaps ==> DistinctLabels(true, rows)
    ensures DistinctTitles(VisibleExamples(platform, useGoogleMaps, rows))
  {
    var idx := KeptIndices(platform, useGoogleMaps, rows);
    var v := VisibleExamples(platform, useGoogleMaps, rows);
    forall i, j | 0 <= i < j < |v| ensures v[i].title != v[j].title {
      assert idx[i] < idx[j];
    }
  }

  /**
   * When every extra label is absent or one fixed non-empty word, no title is
   * empty and no title already ends with that word, the Google-mode labels of
   * rows with distinct titles are distinct.
   */
  lemma GoogleLabelsDistinct(rows: seq<Example>, word: string)
    requires DistinctTitles(rows)
    requires word != ""
    requires forall k :: 0 <= k < |rows| ==>
      rows[k].title != "" && !EndsWith(rows[k].title, " " + word) &&
      (rows[k].extraLabel == None || rows[k].extraLabel == Some(word))
    ensures DistinctLabels(true, rows)
  {
    forall i, j | 0 <= i < j < |rows|
      ensures MapExample(true, rows[i]).title != MapExample(true, rows[j]).title
    {
      GoogleLabelsDiffer(rows[i], rows[j], word);
    }
  }

  /** The pairwise step of GoogleLabelsDistinct. */
  lemma GoogleLabelsDiffer(a: Example, b: Example, word: string)
    requires a.title != b.title && word != ""
    requires a.title != "" && !EndsWith(a.title, " " + word) && (a.extraLabel == None || a.extraLabel == Some(word))
    requires b.title != "" && !EndsWith(b.title, " " + word) && (b.extraLabel == None || b.extraLabel == Some(word))
    ensures MapExample(true, a).title != MapExample(true, b).title
  {
    var la, lb := MapExample(true, a).title, MapExample(true, b).title;
    var tail := " " + word;
    if a.extraLabel.Some? {
      assert la == a.title + tail;
      assert la[..|a.title|] == a.title && la[|la| - |tail|..] == tail;
    } else {
      assert la == a.title;
    }
    if b.extraLabel.Some? {
      assert lb == b.title + tail;
      assert lb[..|b.title|] == b.title && lb[|lb| - |tail|..] == tail;
    } else {
      assert lb == b.title;
    }
  }

  /** The filter shortens the table by exactly the rows its callback rejects. */
  lemma {:induction false} FilterLength(platform: Platform, useGoogleMaps: bool, rows: seq<Example>)
    ensures |FilterExamples(platform, useGoogleMaps, rows)| == |rows| - Rejected(platform, useGoogleMaps, rows)
  {
    if rows != [] {
      FilterLength(platform, useGoogleMaps, rows[1..]);
    }
  }

  /** Rejections in a concatenation add up. */
  lemma {:induction false} RejectedAppend(platform: Platform, useGoogleMaps: bool, a: seq<Example>, b: seq<Example>)
    ensures Rejected(platform, useGoogleMaps, a + b) == Rejected(platform, useGoogleMaps, a) + Rejected(platform, useGoogleMaps, b)
  {
    if a != [] {
      assert (a + b)[1..] == a[1..] + b;
      RejectedAppend(platform, useGoogleMaps, a[1..], b);
    } else {
      assert a + b == b;
    }
  }

  /** Two blocks of rows with distinct titles, and no title in common, concatenate to distinct titles. */
  lemma DistinctTitlesAppend(a: seq<Example>, b: seq<Example>)
    requires DistinctTitles(a) && DistinctTitles(b) && TitlesDisjoint(a, b)
    ensures DistinctTitles(a + b)
  {
    var ab := a + b;
    forall i, j | 0 <= i < j < |ab| ensures ab[i].title != ab[j].title {
      if j < |a| {
        assert ab[i] == a[i] && ab[j] == a[j];
      } else if i < |a| {
        assert ab[i] == a[i] && ab[j] == b[j - |a|];
      } else {
        assert ab[i] == b[i - |a|] && ab[j] == b[j - |a|];
      }
    }
  }

  /** A block whose two parts share no title with `c` shares no title with `c`. */
  lemma TitlesDisjointAppend(a: seq<Example>, b: seq<Example>, c: seq<Example>)
    requires TitlesDisjoint(a, c) && TitlesDisjoint(b, c)
    ensures TitlesDisjoint(a + b, c)
  {
    var ab := a + b;
    forall i, j | 0 <= i < |ab| && 0 <= j < |c| ensures ab[i].title != c[j].title {
      if i < |a| {
        assert ab[i] == a[i];
      } else {
        assert ab[i] == b[i - |a|];
      }
    }
  }
}
