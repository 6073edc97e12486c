/**
 * `clampWindowBounds` (`src/lib/windowBounds.ts`): a desktop window's size and position
 * brought inside the viewport, with a 12-pixel margin and a minimum size that gives way
 * on small screens. Coordinates are whole pixels.
 */
module WindowBounds {
  const MARGIN := 12
  const MIN_WIDTH := 520
  const MIN_HEIGHT := 320
  /** The floors of the largest width and height, whatever the viewport. */
  const FLOOR_WIDTH := 160
  const FLOOR_HEIGHT := 200

  datatype Bounds = Bounds(width: int, height: int, x: int, y: int)

  function Max(a: int, b: int): (m: int)
    ensures m >= a && m >= b && (m == a || m == b)
  {
    if a >= b then a else b
  }

  function Min(a: int, b: int): (m: int)
    ensures m <= a && m <= b && (m == a || m == b)
  {
    if a <= b then a else b
  }

  /** The largest width a viewport this wide allows. */
  function MaxExtent(view: int, floor: int): int {
    Max(floor, Max(0, view) - 2 * MARGIN)
  }

  /** One axis: the clamped extent and the clamped offset along it. */
  function ClampAxis(extent: int, offset: int, view: int, floor: int, minimum: int): (r: (int, int))
    requires floor > 0 && minimum > 0
    ensures Min(minimum, MaxExtent(view, floor)) <= r.0 <= MaxExtent(view, floor)
    ensures Min(minimum, MaxExtent(view, floor)) <= extent <= MaxExtent(view, floor) ==> r.0 == extent
    ensures MARGIN <= r.1 <= Max(MARGIN, Max(0, view) - r.0 - MARGIN)
    ensures MARGIN <= offset <= Max(0, view) - r.0 - MARGIN ==> r.1 == offset
    ensures view >= floor + 2 * MARGIN ==> r.1 + r.0 + MARGIN <= view
  {
    var safeView := Max(0, view);
    var maxExtent := Max(floor, safeView - 2 * MARGIN);
    var minExtent := Min(minimum, maxExtent);
    var next := Min(Max(minExtent, extent), maxExtent);
    var maxOffset := Max(MARGIN, safeView - next - MARGIN);
    (next, Min(Max(offset, MARGIN), maxOffset))
  }

  /** `clampWindowBounds({ size, position, viewWidth, viewHeight })`. */
  function Clamp(b: Bounds, viewWidth: int, viewHeight: int): (r: Bounds)
    ensures Min(MIN_WIDTH, MaxExtent(viewWidth, FLOOR_WIDTH)) <= r.width <= MaxExtent(viewWidth, FLOOR_WIDTH)
    ensures Min(MIN_HEIGHT, MaxExtent(viewHeight, FLOOR_HEIGHT)) <= r.height <= MaxExtent(viewHeight, FLOOR_HEIGHT)
    ensures MARGIN <= r.x <= Max(MARGIN, Max(0, viewWidth) - r.width - MARGIN)
    ensures MARGIN <= r.y <= Max(MARGIN, Max(0, viewHeight) - r.height - MARGIN)
    ensures viewWidth >= FLOOR_WIDTH + 2 * MARGIN ==> r.x + r.width + MARGIN <= viewWidth
    ensures viewHeight >= FLOOR_HEIGHT + 2 * MARGIN ==> r.y + r.height + MARGIN <= viewHeight
  {
    var (width, x) := ClampAxis(b.width, b.x, viewWidth, FLOOR_WIDTH, MIN_WIDTH);
    var (height, y) := ClampAxis(b.height, b.y, viewHeight, FLOOR_HEIGHT, MIN_HEIGHT);
    Bounds(width, height, x, y)
  }

  /** Clamping what was clamped for the same viewport changes nothing. */
  lemma ClampIdempotent(b: Bounds, viewWidth: int, viewHeight: int)
    ensures Clamp(Clamp(b, viewWidth, viewHeight), viewWidth, viewHeight) == Clamp(b, viewWidth, viewHeight)
  {
    var r := Clamp(b, viewWidth, viewHeight);
    var w := ClampAxis(r.width, r.x, viewWidth, FLOOR_WIDTH, MIN_WIDTH);
    var h := ClampAxis(r.height, r.y, viewHeight, FLOOR_HEIGHT, MIN_HEIGHT);
    assert w == (r.width, r.x);
    assert h == (r.height, r.y);
  }

  /** A negative viewport size counts as zero. */
  lemma NegativeViewIsEmpty(b: Bounds, viewWidth: int, viewHeight: int)
    requires viewWidth < 0 && viewHeight < 0
    ensures Clamp(b, viewWidth, viewHeight) == Clamp(b, 0, 0)
    ensures Clamp(b, viewWidth, viewHeight) == Bounds(FLOOR_WIDTH, FLOOR_HEIGHT, MARGIN, MARGIN)
  {
  }

  /** A window that already fits, at least at the minimum size and inside the margins,
      is left where it is. */
  lemma FittingWindowUnchanged(b: Bounds, viewWidth: int, viewHeight: int)
    requires viewWidth >= MIN_WIDTH + 2 * MARGIN && viewHeight >= MIN_HEIGHT + 2 * MARGIN
    requires MIN_WIDTH <= b.width && MIN_HEIGHT <= b.height
    requires MARGIN <= b.x && b.x + b.width + MARGIN <= viewWidth
    requires MARGIN <= b.y && b.y + b.height + MARGIN <= viewHeight
    ensures Clamp(b, viewWidth, viewHeight) == b
  {
  }

  /** The three cases the component tests check. */
  lemma Examples()
    ensures Clamp(Bounds(420, 200, 900, 10), 1200, 800) == Bounds(MIN_WIDTH, MIN_HEIGHT, 1200 - MIN_WIDTH - MARGIN, MARGIN)
    ensures var r := Clamp(Bounds(300, 400, 0, 0), 500, 600); r.width == 500 - 2 * MARGIN && r.x == MARGIN
    ensures Clamp(Bounds(1400, 900, -200, -200), 900, 700) == Bounds(900 - 2 * MARGIN, 700 - 2 * MARGIN, MARGIN, MARGIN)
  {
  }
}
