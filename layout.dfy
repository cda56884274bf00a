// Placement of a dropdown menu relative to its preview element: the
// `Metrics` object of dropdown.js. The live page measurements it takes
// (the preview's document offset and width, the body's size and the
// scrollbar width) are the integer fields of `Geometry`.

module Layout {

  /** Gap kept between the menu and the edge of the document. */
  const PAGE_MARGIN: int := 10

  /** The page measurements read when a placement is computed. */
  datatype Geometry = Geometry(
    left: int,            // offset().left of the preview
    top: int,             // offset().top of the preview
    docHeight: int,       // height of document.body
    bodyWidth: int,       // width of document.body
    previewWidth: int,    // width() of the preview
    scrollbarWidth: int   // result of the scrollbar width probe
  )

  /** The fields of a `Metrics` object. */
  datatype Placement = Placement(
    down: bool,
    requestedHeight: int,
    viewHeight: int,
    scrolls: bool,
    width: int,
    left: int,
    top: int
  )

  /** Bottom edge of the preview, whose height is the item height. */
  function Bottom(g: Geometry, itemHeight: int): int {
    g.top + itemHeight
  }

  /** The menu opens upward: the preview's bottom is below `docHeight - top`,
      and fewer than four rows fit between the preview's top and the bottom
      margin. */
  predicate FlipsUp(g: Geometry, itemHeight: int) {
    Bottom(g, itemHeight) > g.docHeight - g.top
    && g.docHeight - PAGE_MARGIN - g.top < itemHeight * 4
  }

  /** The menu would run past the bottom margin if it opened downward at full height. */
  predicate OverflowsBelow(g: Geometry, requested: int) {
    g.top + requested > g.docHeight - PAGE_MARGIN
  }

  /** The room the side the menu opens toward leaves for it. */
  function SideSpace(g: Geometry, itemHeight: int, down: bool): int {
    if down then g.docHeight - g.top - PAGE_MARGIN else Bottom(g, itemHeight) - PAGE_MARGIN
  }

  /** The menu's top edge: the preview's top when it opens downward, otherwise
      so that the menu's bottom edge is the preview's bottom edge. */
  function AnchoredTop(g: Geometry, itemHeight: int, down: bool, viewHeight: int): int {
    if down then g.top else Bottom(g, itemHeight) - viewHeight
  }

  /** The placement the `Metrics` constructor computes. */
  function Initial(g: Geometry, itemHeight: int, optionCount: nat): Placement {
    var requested := optionCount * itemHeight;
    var up := FlipsUp(g, itemHeight);
    var scrolls := if up then requested > Bottom(g, itemHeight) else OverflowsBelow(g, requested);
    var viewHeight := if scrolls then SideSpace(g, itemHeight, !up) else requested;
    var width := g.previewWidth + g.scrollbarWidth;
    var left := if width + g.left > g.bodyWidth then g.left - g.scrollbarWidth else g.left;
    Placement(!up, requested, viewHeight, scrolls, width, left,
              AnchoredTop(g, itemHeight, !up, viewHeight))
  }

  function Min(a: int, b: int): int { if a < b then a else b }
  function Max(a: int, b: int): int { if a < b then b else a }

  /** The placement `Metrics.prototype.resized` leaves: direction, requested
      height, width and scroll flag are kept; height and position follow the
      new measurements. */
  function Recompute(p: Placement, itemHeight: int, g: Geometry): Placement {
    var viewHeight := Max(Min(SideSpace(g, itemHeight, p.down), p.requestedHeight), itemHeight * 2);
    p.(viewHeight := viewHeight, left := g.left,
       top := AnchoredTop(g, itemHeight, p.down, viewHeight))
  }

  /** The placement after a series of window resizes, one per geometry. */
  function RecomputeAll(p: Placement, itemHeight: int, gs: seq<Geometry>): Placement
    decreases |gs|
  {
    if gs == [] then p else RecomputeAll(Recompute(p, itemHeight, gs[0]), itemHeight, gs[1..])
  }

  /** The menu's box hangs from the preview: down means same top edge, up means
      same bottom edge. */
  predicate Anchored(p: Placement, g: Geometry, itemHeight: int) {
    if p.down then p.top == g.top else p.top + p.viewHeight == Bottom(g, itemHeight)
  }

  // ---------------------------------------------------------------------
  // Properties of the initial placement

  lemma FlipRule(g: Geometry, itemHeight: int, optionCount: nat)
    ensures !Initial(g, itemHeight, optionCount).down
        <==> (g.top + itemHeight > g.docHeight - g.top
              && g.docHeight - PAGE_MARGIN - g.top < 4 * itemHeight)
  {
  }

  lemma HeightBranches(g: Geometry, itemHeight: int, optionCount: nat)
    ensures var p := Initial(g, itemHeight, optionCount);
      var requested := optionCount * itemHeight;
      var bottom := g.top + itemHeight;
      p.requestedHeight == requested
      && (!p.down && requested > bottom ==> p.viewHeight == bottom - PAGE_MARGIN && p.scrolls)
      && (!p.down && requested <= bottom ==> p.viewHeight == requested && !p.scrolls)
      && (p.down && g.top + requested > g.docHeight - PAGE_MARGIN ==>
            p.viewHeight == g.docHeight - g.top - PAGE_MARGIN && p.scrolls)
      && (p.down && g.top + requested <= g.docHeight - PAGE_MARGIN ==>
            p.viewHeight == requested && !p.scrolls)
  {
  }

  /** Scrolling happens exactly when the menu is given less than it asks for;
      it is never given more. */
  lemma ScrollsIffClipped(g: Geometry, itemHeight: int, optionCount: nat)
    ensures var p := Initial(g, itemHeight, optionCount);
      p.viewHeight <= p.requestedHeight
      && (p.scrolls <==> p.viewHeight < p.requestedHeight)
  {
  }

  /** The scrollbar allowance is always added to the width; when the widened
      box would pass the body's right edge it is taken off the left edge instead. */
  lemma WidthAndLeft(g: Geometry, itemHeight: int, optionCount: nat)
    ensures var p := Initial(g, itemHeight, optionCount);
      p.width == g.previewWidth + g.scrollbarWidth
      && (p.width + g.left > g.bodyWidth ==> p.left == g.left - g.scrollbarWidth)
      && (p.width + g.left <= g.bodyWidth ==> p.left == g.left)
  {
  }

  lemma InitialAnchored(g: Geometry, itemHeight: int, optionCount: nat)
    ensures Anchored(Initial(g, itemHeight, optionCount), g, itemHeight)
  {
  }

  /** Preview at top 500 (height 30) in a 540-high document with ten options:
      the menu flips up, fits, and starts at 230. */
  lemma FlipUpExample()
    ensures var p := Initial(Geometry(0, 500, 540, 1000, 100, 15), 30, 10);
      !p.down && p.viewHeight == 300 && !p.scrolls && p.top == 230 && p.width == 115
  {
  }

  // ---------------------------------------------------------------------
  // Properties of the recomputation on resize

  lemma RecomputeKeeps(p: Placement, itemHeight: int, g: Geometry)
    ensures var q := Recompute(p, itemHeight, g);
      q.down == p.down && q.requestedHeight == p.requestedHeight
      && q.width == p.width && q.scrolls == p.scrolls
      && q.viewHeight == Max(Min(SideSpace(g, itemHeight, p.down), p.requestedHeight), 2 * itemHeight)
      && q.viewHeight >= 2 * itemHeight
      && q.left == g.left
      && Anchored(q, g, itemHeight)
  {
  }

  /** The two-row floor can make the menu taller than its content. */
  lemma FloorExceedsRequest()
    ensures var g := Geometry(0, 100, 800, 1000, 100, 15);
      var q := Recompute(Initial(g, 30, 1), 30, g);
      q.requestedHeight == 30 && q.viewHeight == 60
  {
  }

  /** Recomputing with unchanged measurements changes nothing more. */
  lemma RecomputeIdempotent(p: Placement, itemHeight: int, g: Geometry)
    ensures Recompute(Recompute(p, itemHeight, g), itemHeight, g) == Recompute(p, itemHeight, g)
  {
  }

  /** The upward branch of the constructor compares the request with the
      preview's bottom, the resize with the bottom less the margin: here a
      resize with unchanged measurements shrinks a menu that did not scroll. */
  lemma UpwardThresholdsDiffer()
    ensures var g := Geometry(0, 270, 350, 1000, 100, 15);
      var p := Initial(g, 30, 10);
      var q := Recompute(p, 30, g);
      !p.down && !p.scrolls && p.viewHeight == 300
      && q.viewHeight == 290 && !q.scrolls && q.viewHeight < q.requestedHeight
  {
  }

  /** Any series of resizes keeps the direction, requested height, width and
      scroll flag; after at least one, only the last measurements matter. */
  lemma {:induction false} RecomputeAllKeeps(p: Placement, itemHeight: int, gs: seq<Geometry>)
    ensures var q := RecomputeAll(p, itemHeight, gs);
      q.down == p.down && q.requestedHeight == p.requestedHeight
      && q.width == p.width && q.scrolls == p.scrolls
      && (gs != [] ==> q == Recompute(p, itemHeight, gs[|gs| - 1])
                       && q.viewHeight >= 2 * itemHeight
                       && Anchored(q, gs[|gs| - 1], itemHeight))
    decreases |gs|
  {
    if gs != [] {
      var p1 := Recompute(p, itemHeight, gs[0]);
      RecomputeAllKeeps(p1, itemHeight, gs[1..]);
      if gs[1..] != [] {
        assert gs[1..][|gs[1..]| - 1] == gs[|gs| - 1];
        assert Recompute(p1, itemHeight, gs[|gs| - 1]) == Recompute(p, itemHeight, gs[|gs| - 1]);
      }
    }
  }

  // ---------------------------------------------------------------------
  // The `Metrics` object

  class Metrics {
    const itemHeight: int   // the dropdown's `_height`
    var down: bool
    var requestedHeight: int
    var viewHeight: int
    var scrolls: bool
    var width: int
    var left: int
    var top: int

    function Current(): Placement
      reads this
    {
      Placement(down, requestedHeight, viewHeight, scrolls, width, left, top)
    }

    constructor (g: Geometry, itemHeight: int, optionCount: nat)
      ensures this.itemHeight == itemHeight
      ensures Current() == Initial(g, itemHeight, optionCount)
    {
      this.itemHeight := itemHeight;
      new;
      var bottom := g.top + itemHeight;
      requestedHeight := optionCount * itemHeight;
      down := true;
      viewHeight := requestedHeight;
      scrolls := false;
      var allowedHeight := g.docHeight - PAGE_MARGIN - g.top;
      if bottom > g.docHeight - g.top && allowedHeight < itemHeight * 4 {
        down := false;
        if requestedHeight > bottom {
          scrolls := true;
          viewHeight := bottom - PAGE_MARGIN;
        } else {
          viewHeight := requestedHeight;
        }
      } else if g.top + requestedHeight > g.docHeight - PAGE_MARGIN {
        viewHeight := g.docHeight - g.top - PAGE_MARGIN;
        scrolls := true;
      } else {
        viewHeight := requestedHeight;
      }
      var extraWidth := g.scrollbarWidth;
      width := g.previewWidth + extraWidth;
      var offsetLeft := g.left;
      if width + offsetLeft > g.bodyWidth {
        offsetLeft := offsetLeft - extraWidth;
      }
      left := offsetLeft;
      if down {
        top := g.top;
      } else {
        top := bottom - viewHeight;
      }
    }

    method Resized(g: Geometry)
      modifies this
      ensures Current() == Recompute(old(Current()), itemHeight, g)
    {
      var bottom := g.top + itemHeight;
      if down {
        viewHeight := Min(g.docHeight - g.top - PAGE_MARGIN, requestedHeight);
      } else {
        viewHeight := Min(bottom - PAGE_MARGIN, requestedHeight);
      }
      viewHeight := Max(viewHeight, itemHeight * 2);
      left := g.left;
      if down {
        top := g.top;
      } else {
        top := bottom - viewHeight;
      }
    }
  }
}
