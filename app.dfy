/**
 * The `App` component of the maps demo (App.js:72-195): two fields of state,
 * the three event handlers that overwrite them, and what the component shows
 * for a given state.
 *
 * React's `setState` is modelled as an atomic assignment of the named fields.
 * The actions a view offers become preconditions: a catalog button and the
 * Google switch exist only while no example is open, the switch only on iOS,
 * and the back button only while an example is open (App.js:121-133).
 */
module AppController {
  import opened Catalog
  import Registry

  /** `this.state`: the open example (`null` is None) and the switch position. */
  datatype AppState = AppState(component: Option<Screen>, useGoogleMaps: bool)

  /** The state the constructor sets up (App.js:76-79). */
  function InitialState(platform: Platform): AppState
  {
    AppState(None, platform == Android)
  }

  /** The list shown by the catalog in state `s` (App.js:141-192). */
  function Buttons(platform: Platform, s: AppState): seq<Example>
  {
    VisibleExamples(platform, s.useGoogleMaps, Registry.Examples)
  }

  /** `setState({Component})` from a catalog button (App.js:87). */
  function Select(s: AppState, screen: Screen): AppState
  {
    s.(component := Some(screen))
  }

  /** `setState({Component: null})` from the back button (App.js:97). */
  function Back(s: AppState): AppState
  {
    s.(component := None)
  }

  /** `setState({useGoogleMaps: value})` from the switch (App.js:108). */
  function SetUseGoogleMaps(s: AppState, value: bool): AppState
  {
    s.(useGoogleMaps := value)
  }

  /** What the user can do: tap the k-th catalog button, tap back, flip the switch. */
  datatype Event = Tap(k: nat) | BackPressed | Switch(value: bool)

  /** Whether the view of state `s` offers the control that produces `ev` (App.js:121-133). */
  predicate Offered(platform: Platform, s: AppState, ev: Event)
  {
    match ev
    case Tap(k) => s.component == None && k < |Buttons(platform, s)|
    case BackPressed => s.component.Some?
    case Switch(_) => platform == IOS && s.component == None
  }

  /** One event; an event whose control is not on screen cannot occur and changes nothing. */
  function Step(platform: Platform, s: AppState, ev: Event): (t: AppState)
    ensures !Offered(platform, s, ev) ==> t == s
    ensures ev.BackPressed? ==> t.component == None && t.useGoogleMaps == s.useGoogleMaps
    ensures ev.Switch? ==> t.component == s.component
    ensures ev.Switch? && Offered(platform, s, ev) ==> t.useGoogleMaps == ev.value
    ensures ev.Tap? && Offered(platform, s, ev) ==>
      t.useGoogleMaps == s.useGoogleMaps && t.component == Some(Buttons(platform, s)[ev.k].screen)
  {
    if !Offered(platform, s, ev) then s
    else match ev
      case Tap(k) => Select(s, Buttons(platform, s)[k].screen)
      case BackPressed => Back(s)
      case Switch(value) => SetUseGoogleMaps(s, value)
  }

  /** A sequence of events, one after the other. */
  function Run(platform: Platform, s: AppState, events: seq<Event>): AppState
    decreases |events|
  {
    if events == [] then s else Run(platform, Step(platform, s, events[0]), events[1..])
  }

  /** What `renderExamples` shows: an open example with its provider, or the catalog. */
  datatype View =
    | ExampleView(screen: Screen, provider: Provider)
    | CatalogView(showsSwitch: bool, switchOn: bool, buttons: seq<Example>)

  /** The provider prop handed to the open example (App.js:123). */
  function ProviderFor(s: AppState): (p: Provider)
    ensures p == ProviderGoogle <==> s.useGoogleMaps
  {
    if s.useGoogleMaps then ProviderGoogle else ProviderDefault
  }

  /** `render()` for state `s` (App.js:116-138). */
  function Render(platform: Platform, s: AppState): (v: View)
    ensures v.ExampleView? <==> s.component.Some?
    ensures s.component.Some? ==> v == ExampleView(s.component.value, ProviderFor(s))
    ensures s.component == None ==> v == CatalogView(platform == IOS, s.useGoogleMaps, Buttons(platform, s))
  {
    match s.component
    case Some(screen) => ExampleView(screen, ProviderFor(s))
    case None => CatalogView(platform == IOS, s.useGoogleMaps, Buttons(platform, s))
  }

  /**
   * What holds in every state the app can reach: off iOS the switch keeps its
   * initial position, and an open example is one the catalog shows for the
   * current switch position.
   */
  predicate Consistent(platform: Platform, s: AppState)
  {
    && (platform != IOS ==> s.useGoogleMaps == (platform == Android))
    && (s.component.Some? ==>
          exists k :: 0 <= k < |Buttons(platform, s)| && Buttons(platform, s)[k].screen == s.component.value)
  }

  // ---------------------------------------------------------------------------
  // Properties of the transitions
  // ---------------------------------------------------------------------------

  /** Going back twice is going back once. */
  lemma BackIdempotent(platform: Platform, s: AppState)
    ensures Step(platform, Step(platform, s, BackPressed), BackPressed) == Step(platform, s, BackPressed)
    ensures Back(Back(s)) == Back(s)
  {
  }

  /** Opening an example from the catalog and going back restores the state exactly. */
  lemma SelectThenBack(platform: Platform, s: AppState, k: nat)
    requires Offered(platform, s, Tap(k))
    ensures Step(platform, s, Tap(k)).component.Some?
    ensures Step(platform, Step(platform, s, Tap(k)), BackPressed) == s
  {
  }

  /** The initial state shows the catalog, with the switch on exactly on Android. */
  lemma InitialStateConsistent(platform: Platform)
    ensures Consistent(platform, InitialState(platform))
    ensures Render(platform, InitialState(platform)).CatalogView?
    ensures InitialState(platform).useGoogleMaps <==> platform == Android
  {
  }

  /** Every offered event keeps the state consistent. */
  lemma StepKeepsConsistent(platform: Platform, s: AppState, ev: Event)
    requires Consistent(platform, s)
    ensures Consistent(platform, Step(platform, s, ev))
  {
    if ev.Tap? && Offered(platform, s, ev) {
      var t := Step(platform, s, ev);
      assert Buttons(platform, t) == Buttons(platform, s);
      assert Buttons(platform, t)[ev.k].screen == t.component.value;
    }
  }

  /** Every sequence of events keeps the state consistent. */
  lemma {:induction false} RunKeepsConsistent(platform: Platform, s: AppState, events: seq<Event>)
    requires Consistent(platform, s)
    ensures Consistent(platform, Run(platform, s, events))
    decreases |events|
  {
    if events != [] {
      StepKeepsConsistent(platform, s, events[0]);
      RunKeepsConsistent(platform, Step(platform, s, events[0]), events[1..]);
    }
  }

  /**
   * The provider depends on the switch alone: whatever the platform, an open
   * example gets the Google provider iff the switch is on.
   */
  lemma ProviderIgnoresPlatform(platform: Platform, s: AppState)
    requires s.component.Some?
    ensures Render(platform, s) == ExampleView(s.component.value, ProviderFor(s))
    ensures Render(platform, s).provider == ProviderGoogle <==> s.useGoogleMaps
  {
  }

  /** On Android every example the user can open runs on the Google provider. */
  lemma AndroidExamplesUseGoogle(events: seq<Event>)
    ensures var s := Run(Android, InitialState(Android), events);
      s.component.Some? ==> Render(Android, s).provider == ProviderGoogle
  {
    RunKeepsConsistent(Android, InitialState(Android), events);
  }

  /** On a platform that is neither iOS nor Android no example can ever be opened. */
  lemma OtherPlatformStaysInCatalog(events: seq<Event>)
    ensures Run(OtherOS, InitialState(OtherOS), events).component == None
  {
    var s := Run(OtherOS, InitialState(OtherOS), events);
    RunKeepsConsistent(OtherOS, InitialState(OtherOS), events);
    OtherPlatformShowsNothing(s.useGoogleMaps, Registry.Examples);
  }

  /**
   * The component itself: the two fields of its state, overwritten by the
   * event handlers. `platform` is the value of `Platform.OS`, fixed at start.
   */
  class App {
    const platform: Platform
    var component: Option<Screen>
    var useGoogleMaps: bool

    /** The fields as a state value. */
    function State(): AppState
      reads this
    {
      AppState(component, useGoogleMaps)
    }

    /** The invariant every handler keeps. */
    predicate Valid()
      reads this
    {
      Consistent(platform, State())
    }

    /** The catalog buttons the current state shows. */
    function Visible(): seq<Example>
      reads this
    {
      Buttons(platform, State())
    }

    /** `constructor(props)` (App.js:73-80). */
    constructor (platform: Platform)
      ensures this.platform == platform
      ensures component == None
      ensures useGoogleMaps <==> platform == Android
      ensures State() == InitialState(platform) && Valid()
    {
      this.platform := platform;
      component := None;
      useGoogleMaps := platform == Android;
    }

    /** `onPress` of the k-th catalog button (App.js:82-91). */
    method PressExample(k: nat)
      requires Valid() && component == None && k < |Visible()|
      modifies this
      ensures component == Some(old(Visible())[k].screen)
      ensures useGoogleMaps == old(useGoogleMaps)
      ensures State() == Step(platform, old(State()), Tap(k)) && Valid()
    {
      ghost var before := State();
      component := Some(Visible()[k].screen);
      StepKeepsConsistent(platform, before, Tap(k));
    }

    /** `onPress` of the back button (App.js:93-101). */
    method PressBack()
      requires Valid() && component.Some?
      modifies this
      ensures component == None
      ensures useGoogleMaps == old(useGoogleMaps)
      ensures State() == Step(platform, old(State()), BackPressed) && Valid()
    {
      component := None;
    }

    /** `onValueChange` of the switch (App.js:103-114). */
    method FlipSwitch(value: bool)
      requires Valid() && platform == IOS && component == None
      modifies this
      ensures useGoogleMaps == value
      ensures component == old(component)
      ensures State() == Step(platform, old(State()), Switch(value)) && Valid()
    {
      useGoogleMaps := value;
    }
  }
}
