# Compass Wallpaper: layout selector and compositor

A Dafny model of the window controller of Compass Wallpaper, a macOS utility
that loads a photo, lays one of four decorative templates (Panel, Frame,
Banner, Pill) over it and exports a 1366 x 768 wallpaper. The model covers
the controller's layout-selection state machine and the compositor
`createImage`, both from `CompassImage/ImageViewController.swift`.

- `layout.dfy` (module `Layout`): the five-valued `LayoutOption`, the subset
  type `Selectable` of the four layouts that have a button, a template and an
  indicator, the record `PerLayout<T>` holding one value per such layout, and
  the template asset names.
- `compositor.dfy` (module `Compositor`): `createImage` with pixels abstracted
  away. An image is a `Bitmap` (origin and size), the bundle's named images
  are a `Catalog` map, and a result is a `Canvas` of fixed size with its
  ordered list of draws, plus whether the error alert was raised.
- `controller.dfy` (module `ImageViewController`): the controller's state as
  an immutable record, and `viewDidLoad`, `hideSelectionButtons`,
  `showIndicatorFor`, the OK branch of `selectImageAction` and the four
  `choose…LayoutAction` handlers as pure functions on it.
- `session.dfy` (module `Session`): user events, one step and a run of
  steps, and the session invariant with its proof over every reachable state.
- `wrappers.dfy` (module `Wrappers`): `Option`, for the controller's
  implicitly unwrapped image references.

Outside effects are parameters. The image decoded from the picked file is the
`loaded` argument, nil when the file does not decode. The bundled templates
are the `Catalog` argument. The storyboard's initial pictures are a `Nib`.
A click on a disabled button does not reach its action in AppKit, so `Step`
ignores a layout choice whose button is disabled. The state's `composed`
field lists the layouts `createImage` was called with, in order. It is there
to state the promise that re-choosing a layout does not recompose; no widget
shows it.

`createImage` with `None` does not abort. It raises its alert, then still
returns a 1366 x 768 canvas holding only the base image, because the template
reference stays nil. The model follows the code here, not a design in which
that call fails with no output. No event ever reaches that case:
`Session.ReachableValid` proves that `createImage` is never called with `None`.

## Model

| member | source | states |
|---|---|---|
| Layout.TemplateNameInjective | CompassImage/ImageViewController.swift:133-145 | each layout resolves its own template, and two layouts share a template name only if they are the same layout |
| Compositor.ResolveTemplate | CompassImage/ImageViewController.swift:133-155 | the switch raises the error alert exactly for `None`; `None` yields no template and a selectable layout yields the bundle image named after it |
| Compositor.DrawIfPresent | CompassImage/ImageViewController.swift:163-164 | an optional-chained draw adds one layer filling the rectangle for a present image and none for nil |
| Compositor.CreateImage | CompassImage/ImageViewController.swift:128-169 | the canvas is always 1366 x 768 whatever the base's size; every layer fills the whole canvas; the base is drawn first; a bundled template is drawn last; `None` or a missing template leaves only the base; the alert is raised iff the layout is `None` |
| Compositor.TopMostIsTemplate | CompassImage/ImageViewController.swift:133-164 | with the templates bundled, the layer on top is the chosen layout's template, and for `None` it is the base image itself |
| Compositor.CompositesShareBase | CompassImage/ImageViewController.swift:157-164 | two composites over one base have the same size, layer count and base layer, and are equal exactly when the layouts are |
| ImageViewController.HideSelectionButtons | CompassImage/ImageViewController.swift:86-91 | all four layout buttons end up enabled exactly when the argument is true |
| ImageViewController.ShowIndicatorFor | CompassImage/ImageViewController.swift:93-126 | an indicator is visible iff it belongs to the given layout, so exactly one is visible for a selectable layout and none for `None` |
| ImageViewController.PictureOf | CompassImage/ImageViewController.swift:184 | the preview shows the loaded photo, or nothing when the file did not decode |
| ImageViewController.ViewDidLoad | CompassImage/ImageViewController.swift:40-66 | a new window has no selection, all layout buttons, Save and Cancel disabled, all indicators hidden, no image loaded, and the storyboard's pictures untouched |
| ImageViewController.ImageLoaded | CompassImage/ImageViewController.swift:180-206 | loading resets the selection to `None`, hides every indicator, enables the layout buttons, Save and Cancel, previews the photo, and sets each thumbnail to its own layout's wallpaper, composing the four in button order |
| ImageViewController.ChooseLayout | CompassImage/ImageViewController.swift:211-241 | re-choosing the current layout changes nothing; choosing another selects it, shows only its indicator, previews its wallpaper and composes once; buttons, photo and thumbnails stay as they were |
| Session.Step | CompassImage/ImageViewController.swift:171-241 | a cancelled picker or a missing window changes nothing, and neither does a click on a disabled layout button |
| Session.PickerWithoutImageIsNoop | CompassImage/ImageViewController.swift:171-181 | dismissing the open panel, or acting without a window, leaves the whole state as it was |
| Session.ViewDidLoadValid | CompassImage/ImageViewController.swift:40-66 | the session invariant holds of a freshly loaded window |
| Session.ImageLoadedValid | CompassImage/ImageViewController.swift:183-205 | loading an image establishes the session invariant from any state in which `createImage` was never called with `None` |
| Session.ChooseLayoutValid | CompassImage/ImageViewController.swift:211-241 | a click on an enabled layout button keeps the session invariant |
| Session.StepPreservesValid | CompassImage/ImageViewController.swift:171-241 | every event keeps the invariant: indicators match the selection, controls are enabled together, nothing is selected or composed before a load, thumbnails and preview are the wallpapers of the loaded photo, and `createImage` is never called with `None` |
| Session.RunPreservesValid | CompassImage/ImageViewController.swift:171-241 | any sequence of events keeps the invariant |
| Session.ReachableValid | CompassImage/ImageViewController.swift:40-241 | every state reachable from `viewDidLoad` satisfies the invariant, so the compositor's error alert is never raised |
| Session.AtMostOneIndicator | CompassImage/ImageViewController.swift:93-125 | when the indicators match the selection, at most one is visible: the current layout's, and none exactly when the selection is `None` |
| Session.ReachableIndicators | CompassImage/ImageViewController.swift:45-60 | in every reachable state at most one indicator is visible, and none exactly when nothing is selected |
| Session.ChooseIdempotent | CompassImage/ImageViewController.swift:211-241 | choosing a layout twice in a row equals choosing it once, with no second recomposition |
| Session.PreviewMatchesThumbnail | CompassImage/ImageViewController.swift:183-241 | in a valid state, choosing a layout previews exactly the picture its thumbnail shows |
| Session.LoadForgetsSelection | CompassImage/ImageViewController.swift:183-205 | the state after loading depends only on the new image and the earlier compose log, not on the earlier selection, indicators, buttons or pictures |

## Left out

- Pixels, `lockFocus`, scale-to-fill and the template's transparency: AppKit graphics with floating-point geometry. A draw is kept only as the image and the rectangle it fills.
- The `NSOpenPanel` dialog, its file-type filter and `panel.urls[0]`: modal UI. Its outcome is a parameter of the `SelectImage` event.
- `NSAlert` and `NSSound` calls. The alert in `createImage` is kept as a flag on the result.
- `saveButtonAction`: TIFF-to-PNG encoding and the file write are I/O through library calls.
- `cancelButtonAction` terminates the application; `viewDidAppear` only removes the window's resize handle.
- `setUpUI`, corner radii, the shadow box, the header text colour and the window title: cosmetic.
- `print` calls: console traces with no effect on behaviour.
