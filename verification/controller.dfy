/** The window controller's selection state and its transitions
    (ImageViewController.swift, lines 18-241), with AppKit widgets reduced to
    the flags and images the code sets on them. */
module ImageViewController {
  import opened Layout
  import opened Compositor
  import Wrappers

  /** What an image view or button shows. */
  datatype Picture =
    | Blank                    // no image (a nil `image` property)
    | Photo(bitmap: Bitmap)    // a loaded file, shown as is
    | Composed(canvas: Canvas) // a wallpaper built by `createImage`

  /** The controller's observable state. `hidden` holds the four indicators'
      `isHidden` flags and `layoutEnabled` the four layout buttons' `isEnabled`
      flags. `composed` lists, in order, the layouts `createImage` has been
      called with; it is bookkeeping for stating the controller's promises about
      recomposition, and no widget shows it. */
  datatype State = State(
    current: LayoutOption,
    hidden: PerLayout<bool>,
    layoutEnabled: PerLayout<bool>,
    saveEnabled: bool,
    cancelEnabled: bool,
    selected: Wrappers.Option<Bitmap>,
    display: Picture,
    thumbnails: PerLayout<Picture>,
    composed: seq<LayoutOption>
  )

  /** What the storyboard puts in the image views before any code runs. */
  datatype Nib = Nib(display: Picture, thumbnails: PerLayout<Picture>)

  /** `hideSelectionButtons(hideOrShow:)`: despite its name, `true` ENABLES the
      four layout buttons and `false` disables them. */
  function HideSelectionButtons(hideOrShow: bool): (enabled: PerLayout<bool>)
    ensures forall l: Selectable :: enabled.Get(l) <==> hideOrShow
  {
    Uniform(hideOrShow)
  }

  /** `showIndicatorFor(layout:)`: the indicators' hidden flags after the call. */
  function ShowIndicatorFor(layout: LayoutOption): (hidden: PerLayout<bool>)
    // exactly the chosen layout's indicator is visible; for `None` none is
    ensures forall l: Selectable :: !hidden.Get(l) <==> l == layout
  {
    match layout
    case Panel => PerLayout(false, true, true, true)
    case Frame => PerLayout(true, false, true, true)
    case Banner => PerLayout(true, true, false, true)
    case Pill => PerLayout(true, true, true, false)
    case None => PerLayout(true, true, true, true)
  }

  /** The layouts whose indicator is visible. */
  function VisibleIndicators(hidden: PerLayout<bool>): (r: set<Selectable>)
    ensures forall l: Selectable :: l in r <==> !hidden.Get(l)
  {
    (if hidden.panel then {} else {Panel})
    + (if hidden.frame then {} else {Frame})
    + (if hidden.banner then {} else {Banner})
    + (if hidden.pill then {} else {Pill})
  }

  /** Setting an image view's `image` to an optional image. */
  function PictureOf(image: Wrappers.Option<Bitmap>): (p: Picture)
    ensures p.Blank? <==> image.None?
    ensures image.Some? ==> p == Photo(image.value)
  {
    match image
    case None => Blank
    case Some(b) => Photo(b)
  }

  /** The picture `createImage(layout:)` produces for the current base image. */
  function Render(base: Wrappers.Option<Bitmap>, layout: LayoutOption, catalog: Catalog): Picture {
    Composed(CreateImage(base, layout, catalog).canvas)
  }

  /** `viewDidLoad`: the state of a freshly loaded window. */
  function ViewDidLoad(nib: Nib): (s: State)
    ensures s.current == None
    ensures forall l: Selectable :: !s.layoutEnabled.Get(l) && s.hidden.Get(l)
    ensures !s.saveEnabled && !s.cancelEnabled
    ensures s.selected == Wrappers.None && s.composed == []
    // the storyboard's pictures are left in place
    ensures s.display == nib.display && s.thumbnails == nib.thumbnails
  {
    State(
      current := None,
      hidden := Uniform(true),
      layoutEnabled := HideSelectionButtons(false),
      saveEnabled := false,
      cancelEnabled := false,
      selected := Wrappers.None,
      display := nib.display,
      thumbnails := nib.thumbnails,
      composed := []
    )
  }

  /** The OK branch of `selectImageAction`: the file at the picked URL has been
      read, and `loaded` is what `NSImage(contentsOf:)` returned (nil when the
      file could not be decoded). */
  function ImageLoaded(s: State, loaded: Wrappers.Option<Bitmap>, catalog: Catalog): (r: State)
    ensures r.selected == loaded
    ensures r.display == PictureOf(loaded)
    ensures r.current == None
    ensures VisibleIndicators(r.hidden) == {}
    ensures forall l: Selectable :: r.layoutEnabled.Get(l)
    ensures r.saveEnabled && r.cancelEnabled
    // each thumbnail is the wallpaper of its own layout over the new image
    ensures forall l: Selectable :: r.thumbnails.Get(l) == Render(loaded, l, catalog)
    // the four thumbnails are composed in button order
    ensures r.composed == s.composed + [Panel, Frame, Banner, Pill]
  {
    var thumbnails := PerLayout(
      Render(loaded, Panel, catalog),
      Render(loaded, Frame, catalog),
      Render(loaded, Banner, catalog),
      Render(loaded, Pill, catalog));
    s.(
      selected := loaded,
      display := PictureOf(loaded),
      layoutEnabled := HideSelectionButtons(true),
      thumbnails := thumbnails,
      composed := s.composed + [Panel, Frame, Banner, Pill],
      current := None,
      saveEnabled := true,
      cancelEnabled := true,
      hidden := Uniform(true))
  }

  /** `choosePanelLayoutAction` and its three siblings, for layout `l`. */
  function ChooseLayout(s: State, l: Selectable, catalog: Catalog): (r: State)
    // choosing the current layout changes nothing at all
    ensures s.current == l ==> r == s
    // choosing another one selects it, shows only its indicator and its wallpaper,
    // and composes exactly once
    ensures s.current != l ==>
              && r.current == l
              && VisibleIndicators(r.hidden) == {l}
              && r.display == Render(s.selected, l, catalog)
              && r.composed == s.composed + [l]
    // the buttons, the loaded image and the thumbnails are never touched
    ensures r.layoutEnabled == s.layoutEnabled && r.saveEnabled == s.saveEnabled
    ensures r.cancelEnabled == s.cancelEnabled
    ensures r.selected == s.selected && r.thumbnails == s.thumbnails
  {
    if s.current != l then
      var hidden := ShowIndicatorFor(l);
      var display := Render(s.selected, l, catalog);
      s.(hidden := hidden, display := display, composed := s.composed + [l], current := l)
    else
      s
  }
}
