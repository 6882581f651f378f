/** A window's editing session: the user events the controller reacts to, and
    the invariants that hold in every state reachable from `viewDidLoad`. */
module Session {
  import opened Layout
  import opened Compositor
  import opened ImageViewController
  import Wrappers

  /** How the open panel of `selectImageAction` ends. */
  datatype PickerResult =
    | NoWindow                                   // the view has no window: the action returns at once
    | Cancelled                                  // the panel was dismissed
    | Picked(loaded: Wrappers.Option<Bitmap>)    // OK, with what the chosen file decoded to

  /** A user action on the window. */
  datatype Event =
    | SelectImage(result: PickerResult)
    | Choose(layout: Selectable)

  /** The controller's reaction to one event. A click on a disabled layout
      button never reaches its action. */
  function Step(s: State, e: Event, catalog: Catalog): (r: State)
    ensures e.SelectImage? && !e.result.Picked? ==> r == s
    ensures e.Choose? && !s.layoutEnabled.Get(e.layout) ==> r == s
  {
    match e
    case SelectImage(result) =>
      if result.Picked? then ImageLoaded(s, result.loaded, catalog) else s
    case Choose(l) =>
      if s.layoutEnabled.Get(l) then ChooseLayout(s, l, catalog) else s
  }

  /** The state after a sequence of events, first event first. */
  function Run(s: State, events: seq<Event>, catalog: Catalog): State
    decreases |events|
  {
    if |events| == 0 then s else Run(Step(s, events[0], catalog), events[1..], catalog)
  }

  /** Each indicator is visible exactly when its layout is the current one. */
  predicate IndicatorsMatch(s: State) {
    forall l: Selectable :: !s.hidden.Get(l) <==> l == s.current
  }

  /** The four layout buttons, Save and Cancel are enabled and disabled together. */
  predicate ControlsTogether(s: State) {
    s.cancelEnabled == s.saveEnabled && forall l: Selectable :: s.layoutEnabled.Get(l) == s.saveEnabled
  }

  /** Before an image is loaded nothing has been selected or composed. */
  predicate NothingBeforeLoad(s: State) {
    !s.saveEnabled ==> s.current == None && s.composed == []
  }

  /** Once an image is loaded, each thumbnail is its layout's wallpaper over it. */
  predicate ThumbnailsCurrent(s: State, catalog: Catalog) {
    s.saveEnabled ==> forall l: Selectable :: s.thumbnails.Get(l) == Render(s.selected, l, catalog)
  }

  /** With a layout selected, the preview is that layout's wallpaper. */
  predicate PreviewCurrent(s: State, catalog: Catalog) {
    s.current != None ==> s.display == Render(s.selected, s.current, catalog)
  }

  /** `createImage` has never been called with `None`, so its error alert never showed. */
  predicate NoErrorAlert(s: State) {
    forall i :: 0 <= i < |s.composed| ==> s.composed[i] != None
  }

  /** The session invariant. */
  predicate Valid(s: State, catalog: Catalog) {
    && IndicatorsMatch(s)
    && ControlsTogether(s)
    && NothingBeforeLoad(s)
    && ThumbnailsCurrent(s, catalog)
    && PreviewCurrent(s, catalog)
    && NoErrorAlert(s)
  }

  /** A freshly loaded window satisfies the invariant. */
  lemma ViewDidLoadValid(nib: Nib, catalog: Catalog)
    ensures Valid(ViewDidLoad(nib), catalog)
  {
  }

  /** Loading an image establishes the invariant, whatever the state before. */
  lemma ImageLoadedValid(s: State, loaded: Wrappers.Option<Bitmap>, catalog: Catalog)
    requires NoErrorAlert(s)
    ensures Valid(ImageLoaded(s, loaded, catalog), catalog)
  {
    var r := ImageLoaded(s, loaded, catalog);
    forall i | 0 <= i < |r.composed|
      ensures r.composed[i] != None
    {
      if i >= |s.composed| {
        assert r.composed[i] == [Panel, Frame, Banner, Pill][i - |s.composed|];
      }
    }
  }

  /** An enabled layout button keeps the invariant. */
  lemma ChooseLayoutValid(s: State, l: Selectable, catalog: Catalog)
    requires Valid(s, catalog)
    requires s.layoutEnabled.Get(l)
    ensures Valid(ChooseLayout(s, l, catalog), catalog)
  {
    var r := ChooseLayout(s, l, catalog);
    if s.current != l {
      assert r.composed == s.composed + [l];
      assert forall k: Selectable :: !r.hidden.Get(k) <==> k in VisibleIndicators(r.hidden);
    }
  }

  /** Every event preserves the invariant. */
  lemma StepPreservesValid(s: State, e: Event, catalog: Catalog)
    requires Valid(s, catalog)
    ensures Valid(Step(s, e, catalog), catalog)
  {
    match e
    case SelectImage(result) =>
      if result.Picked? {
        ImageLoadedValid(s, result.loaded, catalog);
      }
    case Choose(l) =>
      if s.layoutEnabled.Get(l) {
        ChooseLayoutValid(s, l, catalog);
      }
  }

  /** Every sequence of events preserves the invariant. */
  lemma {:induction false} RunPreservesValid(s: State, events: seq<Event>, catalog: Catalog)
    requires Valid(s, catalog)
    ensures Valid(Run(s, events, catalog), catalog)
    decreases |events|
  {
    if |events| > 0 {
      StepPreservesValid(s, events[0], catalog);
      RunPreservesValid(Step(s, events[0], catalog), events[1..], catalog);
    }
  }

  /** Every state a session can reach satisfies the invariant. */
  lemma {:induction false} ReachableValid(nib: Nib, events: seq<Event>, catalog: Catalog)
    ensures Valid(Run(ViewDidLoad(nib), events, catalog), catalog)
  {
    ViewDidLoadValid(nib, catalog);
    RunPreservesValid(ViewDidLoad(nib), events, catalog);
  }

  /** When the indicators match the selection, at most one is visible: the
      current layout's, and none when nothing is selected. */
  lemma AtMostOneIndicator(s: State)
    requires IndicatorsMatch(s)
    ensures |VisibleIndicators(s.hidden)| <= 1
    ensures s.current == None <==> VisibleIndicators(s.hidden) == {}
    ensures s.current != None ==> VisibleIndicators(s.hidden) == {s.current}
  {
  }

  /** In every reachable state at most one indicator is visible, and none
      exactly when no layout is selected. */
  lemma {:induction false} ReachableIndicators(nib: Nib, events: seq<Event>, catalog: Catalog)
    ensures var s := Run(ViewDidLoad(nib), events, catalog);
            |VisibleIndicators(s.hidden)| <= 1
            && (s.current == None <==> VisibleIndicators(s.hidden) == {})
  {
    ReachableValid(nib, events, catalog);
    AtMostOneIndicator(Run(ViewDidLoad(nib), events, catalog));
  }

  /** Choosing a layout twice in a row is the same as choosing it once: the
      second click neither recomposes nor changes anything. */
  lemma ChooseIdempotent(s: State, l: Selectable, catalog: Catalog)
    ensures Step(Step(s, Choose(l), catalog), Choose(l), catalog) == Step(s, Choose(l), catalog)
  {
  }

  /** In a valid state, choosing a layout shows as the preview exactly the
      picture its thumbnail already shows. */
  lemma PreviewMatchesThumbnail(s: State, l: Selectable, catalog: Catalog)
    requires Valid(s, catalog)
    requires s.layoutEnabled.Get(l)
    ensures Step(s, Choose(l), catalog).display == s.thumbnails.Get(l)
  {
  }

  /** Cancelling the open panel, or having no window, leaves the state unchanged. */
  lemma PickerWithoutImageIsNoop(s: State, result: PickerResult, catalog: Catalog)
    requires !result.Picked?
    ensures Step(s, SelectImage(result), catalog) == s
  {
  }

  /** Loading an image forgets the earlier selection: whatever happened before,
      the state after a load depends only on the new image and the earlier
      compose log. */
  lemma LoadForgetsSelection(s1: State, s2: State, loaded: Wrappers.Option<Bitmap>, catalog: Catalog)
    requires s1.composed == s2.composed
    ensures Step(s1, SelectImage(Picked(loaded)), catalog) == Step(s2, SelectImage(Picked(loaded)), catalog)
  {
  }
}
