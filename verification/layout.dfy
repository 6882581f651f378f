/** The layout choices offered by the window (ImageViewController.swift, lines 10-16). */
module Layout {

  /** The five values of the source's `LayoutOption`; `None` means "nothing selected". */
  datatype LayoutOption = Panel | Frame | Banner | Pill | None

  /** A layout that has a button, a template asset and an indicator of its own. */
  type Selectable = l: LayoutOption | l != None witness Panel

  /** One value per selectable layout: the four indicators, the four layout
      buttons, or the four thumbnails. */
  datatype PerLayout<T> = PerLayout(panel: T, frame: T, banner: T, pill: T) {

    /** The value belonging to layout `l`. */
    function Get(l: Selectable): T {
      match l
      case Panel => panel
      case Frame => frame
      case Banner => banner
      case Pill => pill
    }
  }

  /** The same value for all four layouts. */
  function Uniform<T>(v: T): (r: PerLayout<T>)
    ensures forall l: Selectable :: r.Get(l) == v
  {
    PerLayout(v, v, v, v)
  }

  /** Two per-layout records are equal exactly when they agree on every layout. */
  lemma PerLayoutExtensional<T>(a: PerLayout<T>, b: PerLayout<T>)
    ensures a == b <==> forall l: Selectable :: a.Get(l) == b.Get(l)
  {
    if forall l: Selectable :: a.Get(l) == b.Get(l) {
      assert a.Get(Panel) == b.Get(Panel);
      assert a.Get(Frame) == b.Get(Frame);
      assert a.Get(Banner) == b.Get(Banner);
      assert a.Get(Pill) == b.Get(Pill);
    }
  }

  /** The asset name of a layout's template: the layout's own name. */
  function TemplateName(l: Selectable): (name: string)
    ensures |name| > 0
  {
    match l
    case Panel => "Panel"
    case Frame => "Frame"
    case Banner => "Banner"
    case Pill => "Pill"
  }

  /** Different layouts resolve different templates. */
  lemma TemplateNameInjective(a: Selectable, b: Selectable)
    ensures TemplateName(a) == TemplateName(b) <==> a == b
  {
  }
}
