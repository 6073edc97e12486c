/**
 * `cascadeLayout` and `tileLayout` (`src/lib/windowLayouts.ts`): where the desktop puts
 * its open windows when the user asks for a cascade or a tiling.
 */
module WindowLayouts {
  import opened Wrappers
  import WindowBounds

  const CASCADE_X := 120
  const CASCADE_Y := 80
  const CASCADE_STEP_X := 28
  const CASCADE_STEP_Y := 26
  const GUTTER := 16
  const MIN_TILE_WIDTH := 260
  const MIN_TILE_HEIGHT := 180

  datatype Point = Point(x: int, y: int)
  datatype Size = Size(width: int, height: int)
  /** A window's place: `size` is absent in a cascade, which keeps each window's size. */
  datatype Placement = Placement(id: string, position: Point, size: Option<Size>)

  /** `cascadeLayout(ids)`. */
  function Cascade(ids: seq<string>): (r: seq<Placement>)
    ensures |r| == |ids|
    ensures forall i | 0 <= i < |r| :: r[i].id == ids[i] && r[i].size.None?
  {
    seq(|ids|, i requires 0 <= i < |ids| =>
      Placement(ids[i], Point(CASCADE_X + i * CASCADE_STEP_X, CASCADE_Y + i * CASCADE_STEP_Y), None))
  }

  /** Each window of a cascade sits below and to the right of the ones before it, so no
      two share a corner and every title bar stays visible. */
  lemma CascadeSteps(ids: seq<string>, i: int, j: int)
    requires 0 <= i < j < |ids|
    ensures var r := Cascade(ids);
      && r[j].position.x - r[i].position.x == (j - i) * CASCADE_STEP_X
      && r[j].position.y - r[i].position.y == (j - i) * CASCADE_STEP_Y
      && r[i].position.x < r[j].position.x && r[i].position.y < r[j].position.y
  {
    var r := Cascade(ids);
    assert r[j].position.x - r[i].position.x == j * CASCADE_STEP_X - i * CASCADE_STEP_X;
    assert r[j].position.y - r[i].position.y == j * CASCADE_STEP_Y - i * CASCADE_STEP_Y;
  }

  /** The first window of a cascade is at (120, 80). */
  lemma CascadeStart(ids: seq<string>)
    requires ids != []
    ensures Cascade(ids)[0].position == Point(CASCADE_X, CASCADE_Y)
  {
  }

  /** `Math.ceil(Math.sqrt(n))` for a whole `n`: the least `c` with `c * c >= n`, searched
      upwards from `c`. */
  function CeilSqrtFrom(n: nat, c: nat): (r: nat)
    requires c == 0 || (c - 1) * (c - 1) < n
    ensures r * r >= n
    ensures r == 0 || (r - 1) * (r - 1) < n
    decreases n - c
  {
    if c * c >= n then c
    else
      assert c <= c * c;
      CeilSqrtFrom(n, c + 1)
  }

  function CeilSqrt(n: nat): (c: nat)
    ensures c * c >= n
    ensures c == 0 || (c - 1) * (c - 1) < n
    ensures n > 0 ==> c > 0
  {
    CeilSqrtFrom(n, 0)
  }

  /** `Math.ceil(n / columns)` for whole numbers. */
  function CeilDiv(n: nat, d: nat): (q: nat)
    requires d > 0
    ensures q * d >= n
    ensures q == 0 || (q - 1) * d < n
  {
    var q := (n + d - 1) / d;
    assert q * d + (n + d - 1) % d == n + d - 1;
    q
  }

  /** The grid of `n` tiles: columns, rows, tile width and tile height. */
  datatype Grid = Grid(columns: nat, rows: nat, tileWidth: int, tileHeight: int)

  /** Lines 50-54: the grid for `n > 0` tiles in a `width` by `height` area. The floor of
      a division by a positive whole number is Dafny's `/`. */
  function GridFor(n: nat, width: int, height: int): (g: Grid)
    requires n > 0
    ensures g.columns > 0 && g.rows > 0
    ensures g.columns * g.rows >= n
    ensures (g.columns - 1) * (g.columns - 1) < n
    ensures (g.rows - 1) * g.columns < n
    ensures g.tileWidth >= MIN_TILE_WIDTH && g.tileHeight >= MIN_TILE_HEIGHT
  {
    var columns := CeilSqrt(n);
    var rows := CeilDiv(n, columns);
    assert rows > 0;
    var tileWidth := WindowBounds.Max(MIN_TILE_WIDTH, (width - GUTTER * (columns + 1)) / columns);
    var tileHeight := WindowBounds.Max(MIN_TILE_HEIGHT, (height - GUTTER * (rows + 1)) / rows);
    Grid(columns, rows, tileWidth, tileHeight)
  }

  /** Where tile `i` of a grid goes: column `i % columns`, row `i / columns`. */
  function TileAt(g: Grid, i: nat): (p: Point)
    requires g.columns > 0
  {
    Point(GUTTER + (i % g.columns) * (g.tileWidth + GUTTER), GUTTER + (i / g.columns) * (g.tileHeight + GUTTER))
  }

  /** `tileLayout(ids, width, height)`. */
  function Tile(ids: seq<string>, width: int, height: int): (r: seq<Placement>)
    ensures |r| == |ids|
    ensures ids == [] ==> r == []
    ensures ids != [] ==>
      var g := GridFor(|ids|, width, height);
      forall i | 0 <= i < |r| ::
        r[i].id == ids[i] && r[i].size == Some(Size(g.tileWidth, g.tileHeight)) && r[i].position == TileAt(g, i)
  {
    if ids == [] then []
    else
      var g := GridFor(|ids|, width, height);
      seq(|ids|, i requires 0 <= i < |ids| => Placement(ids[i], TileAt(g, i), Some(Size(g.tileWidth, g.tileHeight))))
  }

  /** Every tile lies in a row of the grid. */
  lemma TileRows(n: nat, width: int, height: int, i: nat)
    requires i < n
    ensures i / GridFor(n, width, height).columns < GridFor(n, width, height).rows
  {
    var g := GridFor(n, width, height);
    var q := i / g.columns;
    assert q * g.columns <= i;
    if q >= g.rows {
      MulMonotone(g.rows, q, g.columns);
    }
  }

  lemma MulMonotone(a: int, b: int, k: int)
    requires 0 <= a <= b && k >= 0
    ensures a * k <= b * k
  {
  }

  /** In steps of `size + 16`, a tile at step `a` ends before the tile at a later step `b`
      starts. */
  lemma StepsApart(a: int, b: int, size: int)
    requires a < b && size > 0
    ensures a * (size + GUTTER) + size < b * (size + GUTTER)
  {
    assert b * (size + GUTTER) - a * (size + GUTTER) == (b - a) * (size + GUTTER);
    MulMonotone(1, b - a, size + GUTTER);
  }

  /** Two different places of a grid with positive tile sizes never overlap. */
  lemma GridPlacesDisjoint(g: Grid, i: nat, j: nat)
    requires g.columns > 0 && g.tileWidth > 0 && g.tileHeight > 0 && i != j
    ensures var p, q := TileAt(g, i), TileAt(g, j);
      || p.x + g.tileWidth < q.x || q.x + g.tileWidth < p.x
      || p.y + g.tileHeight < q.y || q.y + g.tileHeight < p.y
  {
    var c := g.columns;
    if i % c < j % c {
      StepsApart(i % c, j % c, g.tileWidth);
    } else if j % c < i % c {
      StepsApart(j % c, i % c, g.tileWidth);
    } else {
      assert i / c != j / c by {
        assert i == (i / c) * c + i % c && j == (j / c) * c + j % c;
      }
      if i / c < j / c {
        StepsApart(i / c, j / c, g.tileHeight);
      } else {
        StepsApart(j / c, i / c, g.tileHeight);
      }
    }
  }

  /** Two different tiles never overlap: one lies wholly left of, right of, above or below
      the other. */
  lemma TilesDisjoint(ids: seq<string>, width: int, height: int, i: nat, j: nat)
    requires i < |ids| && j < |ids| && i != j
    ensures var r := Tile(ids, width, height);
      var g := GridFor(|ids|, width, height);
      || r[i].position.x + g.tileWidth < r[j].position.x
      || r[j].position.x + g.tileWidth < r[i].position.x
      || r[i].position.y + g.tileHeight < r[j].position.y
      || r[j].position.y + g.tileHeight < r[i].position.y
  {
    var g := GridFor(|ids|, width, height);
    var r := Tile(ids, width, height);
    assert r[i].position == TileAt(g, i) && r[j].position == TileAt(g, j);
    GridPlacesDisjoint(g, i, j);
  }

  /** Four windows make a two-by-two grid, five a grid of three columns and two rows, and
      one window fills the area inside the gutters. */
  lemma GridExamples()
    ensures GridFor(4, 1200, 800).columns == 2 && GridFor(4, 1200, 800).rows == 2
    ensures GridFor(5, 1200, 800).columns == 3 && GridFor(5, 1200, 800).rows == 2
    ensures GridFor(1, 1200, 800) == Grid(1, 1, 1200 - 2 * GUTTER, 800 - 2 * GUTTER)
  {
    assert CeilSqrt(4) == 2 by {
      assert CeilSqrtFrom(4, 0) == CeilSqrtFrom(4, 1) == CeilSqrtFrom(4, 2) == 2;
    }
    assert CeilSqrt(5) == 3 by {
      assert CeilSqrtFrom(5, 0) == CeilSqrtFrom(5, 1) == CeilSqrtFrom(5, 2) == CeilSqrtFrom(5, 3) == 3;
    }
    assert CeilSqrt(1) == 1 by {
      assert CeilSqrtFrom(1, 0) == CeilSqrtFrom(1, 1) == 1;
    }
  }
}
