# dropdown.js — placement and state of a dropdown menu

dropdown.js defines a `Dropdown` widget: a preview element that, when clicked,
opens a menu of options as a floating box next to it. This project models two
parts of it in Dafny and proves properties of both.

- **Placement (`Metrics`)** — module `Layout`, file `layout.dfy`. When the
  menu opens, a `Metrics` object decides from the preview's document offset,
  the body's size, the row height and the number of options:
  - which way the menu opens (`down`),
  - how tall it may be (`viewHeight`) and whether it scrolls (`scrolls`),
  - how wide it is (`width`) and where it sits (`left`, `top`).

  `Initial` is the pure rule for this. The class `Metrics` has the same
  placement fields and branches as the source. Its constructor is specified by
  `Initial`. `Metrics.Resized` updates the height and position in place on a
  window resize, and is specified by `Recompute`. The source object keeps a
  reference to its dropdown (dropdown.js:190) and reads the row height and the
  preview's offset through it (dropdown.js:192-196, 245-246, 256). The model
  has no such reference: the row height is a constant field `itemHeight`, and
  the offset and page size are the `Geometry` argument.
- **Open/closed and selection state (`Dropdown`)** — module `Widget`, file
  `widget.dfy`. `DState` is the abstract value of a dropdown:
  - the option names and the selected index,
  - the row height,
  - the current placement, or none while closed,
  - the number of bindings of the resize callback on the window,
  - whether the menu and its shielding are attached to the document.

  Each public operation has a step function on `DState`. The class `Dropdown`
  implements the operations on fields. Each method's postcondition equates
  its new `Model()` with the step function applied to the old one.
  `Step`/`Run` replay any sequence of calls and window resizes. The trace
  lemmas are proved over `Run`.

The page measurements are integer inputs, bundled in `Geometry`:
- the preview's `offset().left` and `offset().top`,
- the body's height and width,
- the preview's width,
- the result of `scrollbarWidth()`.

The row height is the dropdown's `_height`, so the preview's bottom edge is
`top + _height`.

The model follows the code as written:
- The flip test needs fewer than four rows to fit between the preview's top
  and the bottom margin (the preview's own row counts toward the four).
- The scrollbar width is always added to the width.
- The resize applies a two-row floor to the height. Because of it, the height
  can exceed what a one-option list asks for.
- `setSelected` has no bounds check. Its guard compares the option list with
  the number 0, so it never fires.
- An index outside the list makes `value()` return `undefined`. The model
  writes this as `None`.

dropdown.js has no open/close animation: `show` and `hide` attach and detach
the menu at once (dropdown.js:63-73, 148-168).

The constructor tests the upward case with `requestedHeight > bottom`, but the
resize uses `bottom - PAGE_MARGIN`. `Layout.UpwardThresholdsDiffer` shows the
effect. A resize with unchanged measurements can shrink an upward menu that
did not scroll, and it does not set `scrolls`.

## Model

| member | source | states |
|---|---|---|
| `Layout.FlipRule` | dropdown.js:203-210 | The menu opens upward exactly when the preview's bottom is below `docHeight - top` and fewer than four rows fit between the preview's top and the bottom margin. |
| `Layout.HeightBranches` | dropdown.js:200-222 | The requested height is option count times row height. Upward and larger than the preview's bottom: height is bottom minus the margin, and it scrolls. Upward otherwise: the full request, no scrolling. Downward and overflowing the bottom margin: the room down to the margin, and it scrolls. Otherwise: the full request, no scrolling. |
| `Layout.ScrollsIffClipped` | dropdown.js:203-222 | The granted height never exceeds the request. The menu scrolls exactly when it is granted less than the request. No positivity is claimed. |
| `Layout.WidthAndLeft` | dropdown.js:224-232 | Width is preview width plus scrollbar width, always. The left edge moves left by the scrollbar width exactly when the box would pass the body's right edge. |
| `Layout.InitialAnchored` | dropdown.js:231-237 | A downward menu's top is the preview's top. An upward menu's bottom edge is the preview's bottom edge. |
| `Layout.FlipUpExample` | dropdown.js:189-238 | Worked case: preview at 500 (height 30), document 540, ten options. The menu opens upward, is 300 high, does not scroll, and starts at 230. |
| `Layout.RecomputeKeeps` | dropdown.js:240-265 | A resize keeps `down`, the requested height, the width and `scrolls`. The height becomes max(min(side room, request), two rows), so it is at least two rows. The left edge is the preview's, with no scrollbar shift. The box stays anchored to the preview. |
| `Layout.FloorExceedsRequest` | dropdown.js:248-256 | With one option, the two-row floor makes a resized menu taller than its content. |
| `Layout.RecomputeIdempotent` | dropdown.js:240-265 | A second resize with the same measurements changes nothing. |
| `Layout.UpwardThresholdsDiffer` | dropdown.js:211-256 | There is a geometry where the constructor gives a non-scrolling upward menu its full request, and a resize with the same measurements gives it less, still without `scrolls`. |
| `Layout.RecomputeAllKeeps` | dropdown.js:240-265 | Any series of resizes keeps direction, request, width and scroll flag. After at least one resize, the result depends only on the last measurements, is at least two rows high and is anchored to the preview. |
| `Layout.Metrics.constructor` | dropdown.js:189-238 | The fields of a new `Metrics` are the placement `Initial` gives for the measurements, row height and option count. |
| `Layout.Metrics.Resized` | dropdown.js:240-265 | The fields after `resized()` are the `Recompute` of the fields before, for the new measurements. |
| `Widget.IndexOf` | dropdown.js:141 | Returns -1 exactly when the name is absent. Otherwise returns an index holding that name with no earlier index holding it. |
| `Widget.CreatedIsClosed` | dropdown.js:9-25 | A new dropdown is closed, has no options, selects 0 and keeps the invariant. Its row height is the given height, or 30 when none or 0 is given. |
| `Widget.ShowSpec` | dropdown.js:148-168 | `show` is a no-op when open or when there are no options. Otherwise it lays out with `Initial`, attaches the menu and binds the resize callback once. Options and selection are kept. |
| `Widget.HideSpec` | dropdown.js:63-73 | `hide` is a no-op when closed. Otherwise it leaves the dropdown closed, detached and without resize bindings. Options and selection are kept. |
| `Widget.SetOptionsSpec` | dropdown.js:86-123 | While open, `setOptions` throws and changes nothing. With an empty list it sets no options and index 0. Otherwise it stores the list and selects `selected`, or 0 when none is given. Nothing else changes: it never opens the menu or touches the bindings. |
| `Widget.ValueSpec` | dropdown.js:171-176 | `value()` is `''` with no options. Otherwise it is the name at the selected index when that index is in range, and `undefined` when it is not. |
| `Widget.SetSelectedValueSpec` | dropdown.js:140-145 | An absent name changes nothing. A present name selects its first occurrence, changes nothing else, and `value()` then returns it. |
| `Widget.ClickSpec` | dropdown.js:110-117 | A click while closed does nothing and does not call `onChange`. A click while open leaves the dropdown closed and unbound, with the clicked index selected and the options kept. `onChange` is called exactly when one is set. For an index in range, `value()` is then the clicked option. |
| `Widget.ResizeSpec` | dropdown.js:178-186 | The resize callback re-lays the open menu out and changes nothing else. The direction is kept, the height is at least two rows, and the box stays anchored. |
| `Widget.Step` | dropdown.js:62-186 | Every public call and every window resize keeps the invariant: one resize binding and an attached menu exactly while open, and an open menu laid out for its current non-empty option list. |
| `Widget.Run` | dropdown.js:62-186 | The invariant holds after any sequence of calls and resizes. |
| `Widget.OpenCloseEdges` | dropdown.js:63-168 | Only `show`, with options present, opens a closed dropdown. Only `hide` or an option click closes an open one, and both always do. |
| `Widget.OpenSessionKeepsLayout` | dropdown.js:86-265 | While a menu stays open, any sequence of other calls and resizes keeps it open. The options, direction, requested height, width and scroll flag stay as they were at opening. |
| `Widget.NoHandlerLeak` | dropdown.js:148-168 | From a new dropdown, after any sequence of calls and resizes, the resize callback is bound at most once. It is bound exactly while the menu is open, and the menu is attached exactly while open. |
| `Widget.Dropdown.constructor` | dropdown.js:9-28 | A new object's state is the closed, empty state with the given or default row height, and no `onChange`. |
| `Widget.Dropdown.IsOpen` | dropdown.js:76-78 | True exactly when a placement exists. It then agrees with the menu being attached, and the resize binding count is 1 when open and 0 when closed. |
| `Widget.Dropdown.Selected` | dropdown.js:81-83 | Returns the selected index of the state. |
| `Widget.Dropdown.Value` | dropdown.js:171-176 | Returns `ValueOf` of the state (see `Widget.ValueSpec`). |
| `Widget.Dropdown.Hide` | dropdown.js:63-73 | New state is `HideStep` of the old one (see `Widget.HideSpec`). The invariant is kept. |
| `Widget.Dropdown.Show` | dropdown.js:148-168 | New state is `ShowStep` of the old one (see `Widget.ShowSpec`). A new `Metrics` is freshly allocated. |
| `Widget.Dropdown.SetSelected` | dropdown.js:126-137 | Sets the selected index to any integer, with no bounds check, and changes nothing else. |
| `Widget.Dropdown.SetOptions` | dropdown.js:86-123 | New state and outcome are `SetOptionsStep` of the old state (see `Widget.SetOptionsSpec`). |
| `Widget.Dropdown.SetSelectedValue` | dropdown.js:140-145 | New state is `SetSelectedValueStep` of the old one (see `Widget.SetSelectedValueSpec`). |
| `Widget.Dropdown.OptionClicked` | dropdown.js:110-117 | New state and whether `onChange` was called are `ClickStep` of the old state (see `Widget.ClickSpec`). |
| `Widget.Dropdown.Resize` | dropdown.js:178-186 | The placement becomes `Recompute` of the old one for the new measurements. Nothing else changes. |

## Left out

- Element creation, styling and mounting are not modelled: `.css`, `.text`, `addClass`/`removeClass`, and the building of `<li>` elements in `setOptions`. This is rendering. Mounting survives only as the `attached` flag. The label text that `setSelected` writes is not modelled either.
- `scrollbarWidth()` is not modelled as a probe. It measures the live DOM, so its result is the `scrollbarWidth` input of `Geometry`.
- `colorToHTML` and the default font-size rounding are not modelled. Both are floating-point and only affect appearance.
- The window event registration and the `window.dropdownjs` export are not modelled. Registration is the `resizeHandlers` count: `.resize(cb)` adds one binding, and `.off('resize', cb)` removes all of them.
- `element()` and the constructor's `width`, `bgcolor` and `fontSize` arguments are not modelled. They only feed styling. The preview's width comes in as a measurement instead.
- Geometry is integer-valued. Fractional pixel offsets from the page are not modelled.
- `Widget.Dropdown.Resize`: requires the menu to be open. The callback is bound only from `show` to `hide`, so it never runs while closed.
- `Widget.Dropdown.OptionClicked`: `onChange` is a flag saying whether a handler is set. Calling it is reported, not run. Code in the handler that calls back into the dropdown is not modelled.
- Arguments that are not integers are not modelled: string or fractional indices, and `null` or `NaN` for `selected`. An omitted `selected` or `height` is `None`.
