// The dashboard overview's layout arithmetic: a vertical rectifier hands out
// consecutive rows of a container rectangle, clamping each to the space left
// so nothing is drawn outside the container; and the rendering of values that
// may be unknown.
module OverviewScreen {
  import opened Wrappers

  /** Terminal coordinates are `u16`. */
  const U16_MAX: nat := 0xFFFF

  datatype Rect = Rect(x: nat, y: nat, width: nat, height: nat)

  function Min(a: int, b: int): int { if a <= b then a else b }

  /**
   * The rectangle `next` returns when `y` rows of `container` are used and
   * `height` rows are asked for: the container's column span, starting at the
   * first unused row, with the height computed as the code does, as the
   * smaller bottom edge minus the top.
   */
  function Place(container: Rect, y: nat, height: nat): (r: Rect)
    requires y <= container.height
    ensures r.x == container.x && r.width == container.width
    ensures r.y == container.y + y
    ensures r.height == Min(height, container.height - y)
    ensures r.y + r.height <= container.y + container.height
  {
    var clampHeight := Min(container.y + container.height, container.y + y + height) - container.y - y;
    Rect(container.x, container.y + y, container.width, clampHeight)
  }

  /** `VerticalRectifier`: a container and the number of its rows already handed out. */
  class VerticalRectifier {
    const container: Rect
    var y: nat

    /** Never more rows handed out than the container has. */
    ghost predicate Valid()
      reads this
    {
      y <= container.height
    }

    /** `new`: nothing handed out yet. */
    constructor (container: Rect)
      ensures this.container == container && y == 0
      ensures Valid()
    {
      this.container := container;
      y := 0;
    }

    /**
     * `next`: the next `height` rows, clamped to the rows left, and those rows
     * marked as used. The additions are `u16` and would overflow past
     * `U16_MAX`.
     */
    method Next(height: nat) returns (rect: Rect)
      requires Valid()
      requires container.y + container.height <= U16_MAX
      requires container.y + y + height <= U16_MAX
      modifies this
      ensures Valid()
      ensures rect == Place(container, old(y), height)
      ensures y == old(y) + rect.height
    {
      var clampHeight := Min(container.y + container.height, container.y + y + height) - container.y - y;
      rect := Rect(container.x, container.y + y, container.width, clampHeight);
      y := y + clampHeight;
    }
  }

  /** The rectangles handed out by successive `next` calls for `heights`, starting with `y` rows used. */
  function Layout(container: Rect, y: nat, heights: seq<nat>): (rs: seq<Rect>)
    requires y <= container.height
    ensures |rs| == |heights|
    decreases |heights|
  {
    if |heights| == 0 then []
    else
      var r := Place(container, y, heights[0]);
      [r] + Layout(container, y + r.height, heights[1..])
  }

  function Sum(heights: seq<nat>): nat
  {
    if |heights| == 0 then 0 else heights[0] + Sum(heights[1..])
  }

  /**
   * Successive rows are stacked without gap or overlap, start at the first
   * unused row, stay inside the container and are never taller than asked;
   * when the requests fit, each row gets exactly the height asked for.
   */
  lemma {:induction false} LayoutStacksInsideContainer(container: Rect, y: nat, heights: seq<nat>)
    requires y <= container.height
    ensures var rs := Layout(container, y, heights);
            && (|rs| > 0 ==> rs[0].y == container.y + y)
            && (forall i :: 0 <= i < |rs| - 1 ==> rs[i].y + rs[i].height == rs[i + 1].y)
            && (forall i :: 0 <= i < |rs| ==> container.y <= rs[i].y && rs[i].y + rs[i].height <= container.y + container.height)
            && (forall i :: 0 <= i < |rs| ==> rs[i].height <= heights[i])
            && (y + Sum(heights) <= container.height ==> forall i :: 0 <= i < |rs| ==> rs[i].height == heights[i])
    decreases |heights|
  {
    if |heights| > 0 {
      var r := Place(container, y, heights[0]);
      var rest := heights[1..];
      LayoutStacksInsideContainer(container, y + r.height, rest);
      var rs := Layout(container, y, heights);
      assert rs[1..] == Layout(container, y + r.height, rest);
      if y + Sum(heights) <= container.height {
        assert r.height == heights[0];
      }
    }
  }

  /** `dashifnotset!`: an unknown value is shown as "-", a known one by its string form. */
  function DashIfNotSet<T>(value: Option<T>, show: T -> string): (r: string)
    ensures value.None? ==> r == "-"
    ensures value.Some? ==> r == show(value.value)
  {
    match value
    case None => "-"
    case Some(thing) => show(thing)
  }

  /** When no known value is shown as "-", a dash means exactly that the value is unknown. */
  lemma DashMeansUnknown<T>(value: Option<T>, show: T -> string)
    requires forall t :: show(t) != "-"
    ensures DashIfNotSet(value, show) == "-" <==> value.None?
  {
  }
}
