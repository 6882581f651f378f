/** The compositor `createImage` (ImageViewController.swift, lines 128-169),
    abstracted from pixels to the canvas size and the ordered list of draws. */
module Compositor {
  import opened Layout
  import Wrappers

  /** The fixed size of every composed wallpaper. */
  const CanvasWidth: nat := 1366
  const CanvasHeight: nat := 768

  /** A decoded image, abstracted to where it came from and its pixel size. */
  datatype Bitmap = Bitmap(origin: string, width: nat, height: nat)

  /** The application bundle's named images, as `NSImage(named:)` resolves them. */
  type Catalog = map<string, Bitmap>

  /** A rectangle in canvas coordinates. */
  datatype Rect = Rect(x: int, y: int, width: int, height: int)

  /** One `draw(in:)` call: the image is stretched to fill `dest`. */
  datatype Layer = Layer(bitmap: Bitmap, dest: Rect)

  /** A fresh image and the draws made into it, bottom first. */
  datatype Canvas = Canvas(width: nat, height: nat, layers: seq<Layer>)

  /** What one call produces: the canvas, and whether the error alert was shown. */
  datatype Composite = Composite(canvas: Canvas, alerted: bool)

  /** The whole canvas, with origin at zero. */
  function FullCanvas(): (r: Rect)
    ensures r.width == CanvasWidth && r.height == CanvasHeight
  {
    Rect(0, 0, CanvasWidth, CanvasHeight)
  }

  /** The bundle holds all four templates, each recorded under its own asset name. */
  predicate Bundled(catalog: Catalog) {
    forall l: Selectable :: TemplateName(l) in catalog && catalog[TemplateName(l)].origin == TemplateName(l)
  }

  /** `NSImage(named:)`: nil when the bundle has no such image. */
  function NamedImage(catalog: Catalog, name: string): (r: Wrappers.Option<Bitmap>)
    ensures r.Some? <==> name in catalog
    ensures r.Some? ==> r.value == catalog[name]
  {
    if name in catalog then Wrappers.Some(catalog[name]) else Wrappers.None
  }

  /** The template chosen by the switch, and whether its default branch raised the alert. */
  function ResolveTemplate(layout: LayoutOption, catalog: Catalog): (r: (Wrappers.Option<Bitmap>, bool))
    ensures r.1 <==> layout == None
    ensures layout == None ==> r.0 == Wrappers.None
    ensures layout != None ==> r.0 == NamedImage(catalog, TemplateName(layout))
  {
    match layout
    case Panel => (NamedImage(catalog, "Panel"), false)
    case Frame => (NamedImage(catalog, "Frame"), false)
    case Banner => (NamedImage(catalog, "Banner"), false)
    case Pill => (NamedImage(catalog, "Pill"), false)
    case None => (Wrappers.None, true)
  }

  /** An optional-chained `image?.draw(in: rect)`: nothing is drawn for nil. */
  function DrawIfPresent(image: Wrappers.Option<Bitmap>, rect: Rect): (r: seq<Layer>)
    ensures |r| == |image.ToSeq()|
    ensures forall i :: 0 <= i < |r| ==> r[i] == Layer(image.value, rect)
  {
    match image
    case None => []
    case Some(b) => [Layer(b, rect)]
  }

  /** `createImage(layout:)` over the base image `base` (the controller's `selectedImage`). */
  function CreateImage(base: Wrappers.Option<Bitmap>, layout: LayoutOption, catalog: Catalog): (r: Composite)
    // the canvas is always 1366 x 768, whatever the base image's size
    ensures r.canvas.width == CanvasWidth && r.canvas.height == CanvasHeight
    // every draw stretches its image over the whole canvas
    ensures forall i :: 0 <= i < |r.canvas.layers| ==> r.canvas.layers[i].dest == FullCanvas()
    // the alert is raised exactly for the `None` layout
    ensures r.alerted <==> layout == None
    // the base, when there is one, is drawn first
    ensures base.Some? ==> |r.canvas.layers| > 0 && r.canvas.layers[0].bitmap == base.value
    // for `None` only the base is drawn
    ensures layout == None ==> |r.canvas.layers| == |base.ToSeq()|
    // for a layout whose template is bundled, that template is drawn last, on top
    ensures layout != None && TemplateName(layout) in catalog ==>
              |r.canvas.layers| == |base.ToSeq()| + 1
              && r.canvas.layers[|r.canvas.layers| - 1].bitmap == catalog[TemplateName(layout)]
    // a missing template leaves only the base
    ensures layout != None && TemplateName(layout) !in catalog ==> |r.canvas.layers| == |base.ToSeq()|
  {
    var (top, alerted) := ResolveTemplate(layout, catalog);
    var rect := FullCanvas();
    Composite(Canvas(CanvasWidth, CanvasHeight, DrawIfPresent(base, rect) + DrawIfPresent(top, rect)), alerted)
  }

  /** The image drawn last, which covers every pixel it is opaque at; nil for an empty canvas. */
  function TopMost(c: Canvas): (r: Wrappers.Option<Bitmap>)
    ensures r.Some? <==> |c.layers| > 0
  {
    if |c.layers| == 0 then Wrappers.None else Wrappers.Some(c.layers[|c.layers| - 1].bitmap)
  }

  /** With the templates bundled, a selectable layout puts its own template on top,
      and `None` leaves the base on top. */
  lemma TopMostIsTemplate(base: Wrappers.Option<Bitmap>, layout: LayoutOption, catalog: Catalog)
    requires Bundled(catalog)
    ensures layout != None ==> TopMost(CreateImage(base, layout, catalog).canvas) == Wrappers.Some(catalog[TemplateName(layout)])
    ensures layout == None ==> TopMost(CreateImage(base, layout, catalog).canvas) == base
  {
  }

  /** Two composites over the same base differ only in the template on top:
      they have the same size, the same base layer and the same number of layers. */
  lemma CompositesShareBase(base: Wrappers.Option<Bitmap>, a: Selectable, b: Selectable, catalog: Catalog)
    requires Bundled(catalog)
    ensures var ca := CreateImage(base, a, catalog).canvas;
            var cb := CreateImage(base, b, catalog).canvas;
            ca.width == cb.width && ca.height == cb.height
            && |ca.layers| == |cb.layers| == |base.ToSeq()| + 1
            && ca.layers[..|base.ToSeq()|] == cb.layers[..|base.ToSeq()|]
            && (ca == cb <==> a == b)
  {
  }
}
