# Example catalog of the react-native-maps demo app, in Dafny

The demo app has one component, `App` (App.js). It holds a fixed table of 42
example screens. Each row is `[screen, title, googleCompatible?, extraLabel?]`.
On every render, the table is filtered for the current platform and the
"Use GoogleMaps?" switch, and the remaining rows are relabelled. The result is
a list of buttons. Tapping a button opens that example. The back button returns
to the catalog. On iOS, the switch chooses between the Google and default
providers. The open example receives the provider chosen by the switch.

The model has three modules:

- `Catalog` (catalog.dfy): the entities and the pure pipeline
  `table.filter(admit).map(makeExampleMapper(IOS && useGoogleMaps))`.
  `FilterExamples` models the filter, `MapExample`/`MapExamples` the mapper,
  and `DisplayLabel` the `[title, extra].filter(Boolean).join(' ')` label.
  `KeptIndices` gives the positions that survive the filter. It is how the
  lemmas say that the list keeps table order and repeats nothing.
- `Registry` (registry.dfy): the literal table, row for row. It is written as
  six consecutive slices of 7 rows so that facts about the concrete table
  can be checked slice by slice. `Examples` is their concatenation.
- `AppController` (app.dfy): the state `{Component, useGoogleMaps}`. It has a
  pure transition function `Step` over user events, the rendered `View`, and
  the class `App`. The class has the two fields and the three handlers as
  methods. Each method is specified against `Step`. The invariant
  `Consistent` is preserved by every handler and every event sequence.

The platform (`Platform.OS`) is a parameter with three values: `IOS`,
`Android` and `OtherOS`. The 42 imported screens and the two provider
constants are opaque enumerations.

## Model

| member | source | states |
|---|---|---|
| `Catalog.KeepTruthy` | App.js:66 | `filter(Boolean)` returns only non-empty strings taken from the parts, keeps every truthy part, and maps a single part to itself or to nothing |
| `Catalog.KeepTruthyAppend` | App.js:66 | `filter(Boolean)` of `a + b` is that of `a` followed by that of `b`, so it keeps order and multiplicity |
| `Catalog.Join` | App.js:66 | `join(sep)` of n parts has their total length plus n-1 separators and begins with the first part; no parts give "", one part gives itself |
| `Catalog.JoinAppend` | App.js:66 | `join(sep)` of two non-empty lists concatenated is the first join, one separator, then the second join |
| `Catalog.DisplayLabel` | App.js:62-67 | the Google-mode label is `title + " " + extra` when both are non-empty, the bare title when the extra label is absent or empty, and the extra label alone when the title is empty |
| `Catalog.MapExample` | App.js:62-70 | the mapper never changes which screen a row opens; in Google mode the title becomes the joined label and the last two slots are undefined, otherwise the row is returned unchanged |
| `Catalog.FilterExamples` | App.js:188-191 | the filter returns no more rows than it is given, and every row it returns is admitted by the callback |
| `Catalog.MapExamples` | App.js:192 | `.map` keeps the length and applies the mapper to each row at the same position |
| `Catalog.KeptIndices` | App.js:188-191 | the kept positions are in range, strictly increasing (no reordering, no duplicates) and each one holds an admitted row |
| `Catalog.KeptIndicesComplete` | App.js:188-191 | every admitted position of the table is kept (the filter drops only rejected rows) |
| `Catalog.FilterAtKeptIndices` | App.js:188-191 | the filter's output is exactly the table read at the kept positions |
| `Catalog.VisibleExamples` | App.js:142-192 | the list rendered is the table at the kept positions, in order, each row passed through the mapper, which is in Google mode only for iOS with the switch on |
| `Catalog.FilterAdmittingAll` | App.js:188-191 | a filter that admits every row returns the table unchanged |
| `Catalog.FilterAdmittingNone` | App.js:188-191 | a filter that admits no row returns nothing |
| `Catalog.AndroidShowsEverything` | App.js:188-192 | on Android the visible list is the whole table with titles unchanged, whatever the switch says |
| `Catalog.IosDefaultShowsEverything` | App.js:188-192 | on iOS with the switch off the visible list is the whole table with titles unchanged |
| `Catalog.OtherPlatformShowsNothing` | App.js:59-60 | on a platform that is neither iOS nor Android the visible list is empty |
| `Catalog.IosGoogleShowsCompatible` | App.js:188-192 | on iOS with the switch on, row k is shown iff its compatibility flag is set, and each shown row has its screen and the joined label |
| `Catalog.TwoRowScenario` | App.js:62-70 | on a two-row table the first row is shown as "Alpha (beta)" with Google Maps on and both rows are shown unchanged with it off |
| `Catalog.TitlesUnchangedOutsideIosGoogle` | App.js:192 | unless the platform is iOS and the switch is on, the mapper is the identity and the visible list is the filtered table itself |
| `Catalog.VisibleTitlesDistinct` | App.js:85 | if the table's titles, and in Google mode its labels, are pairwise distinct, then so are the keys of the rendered buttons |
| `Catalog.GoogleLabelsDistinct` | App.js:66 | distinct non-empty titles stay distinct as Google-mode labels when the only extra label is one fixed word that no title already ends with |
| `Catalog.FilterLength` | App.js:188-191 | the filter shortens the table by exactly the number of rows its callback rejects |
| `Registry.TableSize` | App.js:144-185 | the table has 42 rows, 5 lack the compatibility flag, and iOS with Google Maps on shows 37 |
| `Registry.TitlesDistinct` | App.js:144-185 | the 42 titles are pairwise distinct |
| `Registry.ScreensDistinct` | App.js:144-185 | row k opens the screen whose position `RowOf` gives as k, so no screen appears in two rows |
| `Registry.GoogleLabelsApart` | App.js:144-185 | the labels shown in Google mode are pairwise distinct |
| `Registry.ListKeysDistinct` | App.js:85 | on every platform and in both switch positions, the rendered buttons have pairwise distinct keys |
| `AppController.Step` | App.js:121-133 | an event whose control is not on screen changes nothing; back clears the open example and keeps the switch; the switch never changes the open example and, when shown, sets `useGoogleMaps` to its value; a tap on button k opens that button's screen and keeps the switch |
| `AppController.ProviderFor` | App.js:123 | the provider is Google iff `useGoogleMaps` is true |
| `AppController.Render` | App.js:116-138 | the example view is shown iff an example is open, with that screen and the provider chosen by the switch; otherwise the catalog shows the switch only on iOS, in the position `useGoogleMaps` gives it, and the visible list as its buttons |
| `AppController.BackIdempotent` | App.js:97 | going back twice equals going back once |
| `AppController.SelectThenBack` | App.js:87 | opening an example from the catalog and going back restores the previous state exactly |
| `AppController.InitialStateConsistent` | App.js:76-79 | the initial state shows the catalog, has the switch on exactly on Android, and satisfies the invariant |
| `AppController.StepKeepsConsistent` | App.js:87 | every event preserves the invariant: off iOS the switch keeps its initial value, and an open example is one the catalog shows |
| `AppController.RunKeepsConsistent` | App.js:76-79 | every event sequence from a consistent state ends in a consistent state |
| `AppController.ProviderIgnoresPlatform` | App.js:123 | the open example gets the Google provider iff the switch is on, whatever the platform |
| `AppController.AndroidExamplesUseGoogle` | App.js:123 | on Android every example the user can reach runs on the Google provider |
| `AppController.OtherPlatformStaysInCatalog` | App.js:59-60 | on a platform that is neither iOS nor Android no example can ever be opened |
| `AppController.App.constructor` | App.js:73-80 | `Component` starts null and `useGoogleMaps` starts true exactly on Android |
| `AppController.App.PressExample` | App.js:82-91 | tapping button k sets `Component` to that button's screen, leaves the switch alone and keeps the invariant |
| `AppController.App.PressBack` | App.js:93-101 | back sets `Component` to null, leaves the switch alone and keeps the invariant |
| `AppController.App.FlipSwitch` | App.js:103-114 | the switch sets `useGoogleMaps`, leaves `Component` alone and keeps the invariant |

The filter callback `Admits` (App.js:189-190) is covered by the
`FilterExamples`, `KeptIndices` and `KeptIndicesComplete` rows. Three
definitions are covered by the `Step` row: `Offered`, which says which
controls are on screen (App.js:121-133), and `Select`, `Back` and
`SetUseGoogleMaps`, the three `setState` calls at App.js:87, 97 and 108.
`InitialState` (App.js:76-79) is covered by the `InitialStateConsistent`
and `App.constructor` rows. `Buttons` (App.js:140-193) is covered by the
`VisibleExamples` and `Render` rows.

## Notes on the code

- The provider handed to an open example tests `useGoogleMaps` alone
  (App.js:123). The platform is not consulted. Android starts with the switch
  on, so its examples get the Google provider.
- The filter admits nothing on a platform that is neither iOS nor Android
  (App.js:190).
- A button's handler captures the row's screen directly (App.js:87). There is
  no lookup by title, so there is no "unknown title" case to model.
- An empty string is falsy in `filter(Boolean)`, so an empty title or an empty
  extra label is dropped from the label. `DisplayLabel` models that.

## Left out

- React rendering, JSX, layout and styles (App.js:82-138, App.js:197-228).
  What the view shows is modelled (`Render`, `View`): the open screen and its
  provider, or the switch (shown or not, and its position) and the buttons.
  The controls it offers are modelled too (`Offered`, method preconditions).
  Texts, the back button's label and the layout are not modelled.
- The 42 example screens (App.js:13-54) and the map library's provider
  constants (App.js:11, App.js:56-57). Both are external and appear only as
  opaque enumerations.
- Detection of the platform (App.js:59-60). The platform is a parameter.
- React's asynchronous, batched `setState`. Each update is one atomic
  assignment.
- `MapExample`: in Google mode the source mapper returns a two-element array.
  The model gives it a `false` flag and no extra label (the `undefined` third
  and fourth slots). The identity mapper returns the whole row. Only the
  screen and the title are read by the button (App.js:82).
