/**
 * The alien fleet: the grid built by `_create_fleet`/`_create_alien`, and the whole-fleet
 * movements (dropping at an edge, marching sideways) together with the tests that trigger them.
 */
module Fleet {
  import opened Geometry
  import opened GameSettings

  /** The number of iterations of `range(n)`, which is empty for a negative `n`. */
  function Max0(n: int): (m: nat) {
    if n < 0 then 0 else n
  }

  /**
   * `number_aliens_x`: how many aliens fit across the screen, keeping a one-alien margin on
   * each side and one alien width between aliens. Python's `//` by a positive divisor rounds
   * down, as Dafny's `/` does.
   */
  function ColumnCount(cfg: Settings): (cols: int)
    requires cfg.Sized()
  {
    (cfg.screenWidth - 2 * cfg.alienWidth) / (2 * cfg.alienWidth)
  }

  /** `number_rows`: how many rows fit above the ship, leaving three alien heights and the ship's height free. */
  function RowCount(cfg: Settings): (rows: int)
    requires cfg.Sized()
  {
    (cfg.screenHeight - 3 * cfg.alienHeight - cfg.shipHeight) / (2 * cfg.alienHeight)
  }

  /** The rectangle `_create_alien(n, r)` gives the alien in column `n` of row `r`. */
  function AlienAt(cfg: Settings, n: int, r: int): (a: Rect) {
    Rect(cfg.alienWidth + 2 * cfg.alienWidth * n, cfg.alienHeight + 2 * cfg.alienHeight * r,
         cfg.alienWidth, cfg.alienHeight)
  }

  /** The first `n` aliens of row `r`, in the order the inner loop adds them. */
  function RowPrefix(cfg: Settings, r: nat, n: nat): (row: seq<Rect>) {
    if n == 0 then [] else RowPrefix(cfg, r, n - 1) + [AlienAt(cfg, n - 1, r)]
  }

  /** The first `rows` full rows of `cols` aliens, in the order the nested loops add them. */
  function Grid(cfg: Settings, rows: nat, cols: nat): (g: seq<Rect>) {
    if rows == 0 then [] else Grid(cfg, rows - 1, cols) + RowPrefix(cfg, rows - 1, cols)
  }

  /** The number of columns and of rows the nested loops of `_create_fleet` run through. */
  function Columns(cfg: Settings): (cols: nat)
    requires cfg.Sized()
  {
    Max0(ColumnCount(cfg))
  }

  function Rows(cfg: Settings): (rows: nat)
    requires cfg.Sized()
  {
    Max0(RowCount(cfg))
  }

  /** The aliens one call of `_create_fleet` adds to the group: as many as the columns times the rows that fit. */
  function Layout(cfg: Settings): (fleet: seq<Rect>)
    requires cfg.Sized()
    ensures |fleet| == Columns(cfg) * Rows(cfg)
  {
    GridSize(cfg, Rows(cfg), Columns(cfg));
    assert Rows(cfg) * Columns(cfg) == Columns(cfg) * Rows(cfg);
    Grid(cfg, Rows(cfg), Columns(cfg))
  }

  lemma MulMono(c: nat, a: int, b: int)
    requires a <= b
    ensures c * a <= c * b
  {
    assert c * b - c * a == c * (b - a);
  }

  lemma {:induction false} RowPrefixCells(cfg: Settings, r: nat, n: nat)
    ensures |RowPrefix(cfg, r, n)| == n
    ensures forall i :: 0 <= i < n ==> RowPrefix(cfg, r, n)[i] == AlienAt(cfg, i, r)
  {
    if n > 0 {
      RowPrefixCells(cfg, r, n - 1);
    }
  }

  /** A grid of `rows` full rows of `cols` aliens holds `rows * cols` aliens. */
  lemma {:induction false} GridSize(cfg: Settings, rows: nat, cols: nat)
    ensures |Grid(cfg, rows, cols)| == rows * cols
  {
    if rows > 0 {
      GridSize(cfg, rows - 1, cols);
      RowPrefixCells(cfg, rows - 1, cols);
      assert (rows - 1) * cols + cols == rows * cols;
    }
  }

  /** Row-major indexing into a block of `rows - 1` full rows followed by one more row of `cols`. */
  lemma ConcatCell(block: seq<Rect>, row: seq<Rect>, rows: nat, cols: nat, k: nat, n: nat)
    requires 0 < rows && |block| == (rows - 1) * cols && |row| == cols && k < rows && n < cols
    ensures k * cols + n < |block + row|
    ensures k < rows - 1 ==> k * cols + n < |block| && (block + row)[k * cols + n] == block[k * cols + n]
    ensures k == rows - 1 ==> (block + row)[k * cols + n] == row[n]
  {
    MulMono(cols, k + 1, rows);
    assert (k + 1) * cols == k * cols + cols;
    assert (rows - 1) * cols + cols == rows * cols;
    if k < rows - 1 {
      MulMono(cols, k + 1, rows - 1);
    }
  }

  lemma {:induction false} RowPrefixCell(cfg: Settings, r: nat, n: nat, i: nat)
    requires i < n
    ensures |RowPrefix(cfg, r, n)| == n && RowPrefix(cfg, r, n)[i] == AlienAt(cfg, i, r)
  {
    if i < n - 1 {
      RowPrefixCell(cfg, r, n - 1, i);
    } else {
      RowPrefixCells(cfg, r, n - 1);
    }
  }

  /** Alien (n, k) of the grid sits at index `k * cols + n`. */
  lemma {:induction false} GridCell(cfg: Settings, rows: nat, cols: nat, k: nat, n: nat)
    requires k < rows && n < cols
    ensures k * cols + n < |Grid(cfg, rows, cols)| && Grid(cfg, rows, cols)[k * cols + n] == AlienAt(cfg, n, k)
  {
    var block := Grid(cfg, rows - 1, cols);
    var row := RowPrefix(cfg, rows - 1, cols);
    GridSize(cfg, rows - 1, cols);
    RowPrefixCell(cfg, rows - 1, cols, n);
    ConcatCell(block, row, rows, cols, k, n);
    if k < rows - 1 {
      GridCell(cfg, rows - 1, cols, k, n);
    }
  }

  /** Each alien of the grid is the alien size and lies inside [w, 2w*cols] x [h, 2h*rows]. */
  lemma {:induction false} GridBounds(cfg: Settings, rows: nat, cols: nat)
    requires cfg.Sized()
    ensures forall i :: 0 <= i < |Grid(cfg, rows, cols)| ==>
      var a := Grid(cfg, rows, cols)[i];
      a.width == cfg.alienWidth && a.height == cfg.alienHeight &&
      cfg.alienWidth <= a.x && a.Right() <= 2 * cfg.alienWidth * cols &&
      cfg.alienHeight <= a.y && a.Bottom() <= 2 * cfg.alienHeight * rows
  {
    if rows > 0 {
      var w, h := cfg.alienWidth, cfg.alienHeight;
      GridBounds(cfg, rows - 1, cols);
      RowPrefixCells(cfg, rows - 1, cols);
      MulMono(2 * h, rows - 1, rows);
      var g := Grid(cfg, rows - 1, cols);
      var row := RowPrefix(cfg, rows - 1, cols);
      forall i | 0 <= i < |row|
        ensures w <= row[i].x && row[i].Right() <= 2 * w * cols
        ensures h <= row[i].y && row[i].Bottom() <= 2 * h * rows
      {
        MulMono(2 * w, 0, i);
        MulMono(2 * w, i + 1, cols);
        MulMono(2 * h, 0, rows - 1);
        assert 2 * w * (i + 1) == 2 * w * i + 2 * w;
        assert 2 * h * rows == 2 * h * (rows - 1) + 2 * h;
      }
    }
  }

  /** No two aliens of one row overlap. */
  lemma RowApart(cfg: Settings, r: nat, n: nat)
    requires cfg.Sized()
    ensures forall i, j :: 0 <= i < j < |RowPrefix(cfg, r, n)| ==>
      !Overlaps(RowPrefix(cfg, r, n)[i], RowPrefix(cfg, r, n)[j])
  {
    RowPrefixCells(cfg, r, n);
    var w := cfg.alienWidth;
    forall i, j | 0 <= i < j < n
      ensures AlienAt(cfg, i, r).Right() < AlienAt(cfg, j, r).x
    {
      MulMono(2 * w, i + 1, j);
      assert 2 * w * (i + 1) == 2 * w * i + 2 * w;
    }
  }

  /** No two aliens of the grid overlap (so, having positive size, no two share a position). */
  lemma {:induction false} GridApart(cfg: Settings, rows: nat, cols: nat)
    requires cfg.Sized()
    ensures forall i, j :: 0 <= i < j < |Grid(cfg, rows, cols)| ==>
      !Overlaps(Grid(cfg, rows, cols)[i], Grid(cfg, rows, cols)[j])
  {
    if rows > 0 {
      GridApart(cfg, rows - 1, cols);
      GridBounds(cfg, rows - 1, cols);
      RowApart(cfg, rows - 1, cols);
      RowPrefixCells(cfg, rows - 1, cols);
      var g := Grid(cfg, rows - 1, cols);
      var row := RowPrefix(cfg, rows - 1, cols);
      var all := Grid(cfg, rows, cols);
      assert all == g + row;
      forall i, j | 0 <= i < j < |all|
        ensures !Overlaps(all[i], all[j])
      {
        if j < |g| {
          assert all[i] == g[i] && all[j] == g[j];
        } else if |g| <= i {
          assert all[i] == row[i - |g|] && all[j] == row[j - |g|];
        } else {
          assert all[i] == g[i] && all[j] == row[j - |g|];
        }
      }
    }
  }

  /** An alien touching either side of the screen, as `Alien.check_edges` reports it. */
  predicate AtEdge(a: Rect, screenWidth: int) {
    a.Right() >= screenWidth || a.x <= 0
  }

  predicate AnyAtEdge(aliens: seq<Rect>, screenWidth: int) {
    exists i :: 0 <= i < |aliens| && AtEdge(aliens[i], screenWidth)
  }

  /** An alien whose bottom has reached the bottom of the screen (`_check_aliens_bottom`). */
  predicate AtBottom(a: Rect, screenHeight: int) {
    a.Bottom() >= screenHeight
  }

  predicate AnyAtBottom(aliens: seq<Rect>, screenHeight: int) {
    exists i :: 0 <= i < |aliens| && AtBottom(aliens[i], screenHeight)
  }

  /**
   * Every alien of a freshly built fleet lies strictly inside the screen, clear of both sides and
   * above the room left for the ship, so a new fleet neither triggers an edge reaction nor a life loss.
   */
  lemma LayoutOnScreen(cfg: Settings)
    requires cfg.Sized()
    ensures forall i :: 0 <= i < |Layout(cfg)| ==>
      var a := Layout(cfg)[i];
      0 < a.x && a.Right() <= cfg.screenWidth - 2 * cfg.alienWidth &&
      0 < a.y && a.Bottom() <= cfg.screenHeight - 3 * cfg.alienHeight - cfg.shipHeight
    ensures !AnyAtEdge(Layout(cfg), cfg.screenWidth)
    ensures !AnyAtBottom(Layout(cfg), cfg.screenHeight)
  {
    var w, h := cfg.alienWidth, cfg.alienHeight;
    var rows, cols := Rows(cfg), Columns(cfg);
    GridBounds(cfg, rows, cols);
    GridSize(cfg, rows, cols);
    if rows > 0 && cols > 0 {
      var spaceX := cfg.screenWidth - 2 * w;
      var spaceY := cfg.screenHeight - 3 * h - cfg.shipHeight;
      assert spaceX == 2 * w * (spaceX / (2 * w)) + spaceX % (2 * w);
      assert spaceY == 2 * h * (spaceY / (2 * h)) + spaceY % (2 * h);
    } else {
      assert rows * cols == 0;
    }
  }

  /** Alien (n, r) of the fleet sits at index `r * Columns(cfg) + n`: row after row, left to right. */
  lemma LayoutCell(cfg: Settings, r: nat, n: nat)
    requires cfg.Sized() && r < Rows(cfg) && n < Columns(cfg)
    ensures r * Columns(cfg) + n < |Layout(cfg)| && Layout(cfg)[r * Columns(cfg) + n] == AlienAt(cfg, n, r)
  {
    GridCell(cfg, Rows(cfg), Columns(cfg), r, n);
  }

  /** No two aliens of a fresh fleet overlap. */
  lemma LayoutApart(cfg: Settings)
    requires cfg.Sized()
    ensures forall i, j :: 0 <= i < j < |Layout(cfg)| ==> !Overlaps(Layout(cfg)[i], Layout(cfg)[j])
    ensures forall i, j :: 0 <= i < j < |Layout(cfg)| ==> Layout(cfg)[i] != Layout(cfg)[j]
  {
    GridApart(cfg, Rows(cfg), Columns(cfg));
    GridBounds(cfg, Rows(cfg), Columns(cfg));
    forall i, j | 0 <= i < j < |Layout(cfg)|
      ensures Layout(cfg)[i] != Layout(cfg)[j]
    {
      assert !Overlaps(Layout(cfg)[i], Layout(cfg)[j]);
    }
  }

  /** An 800 by 600 screen, 24 by 24 aliens and a 40-pixel ship give a fleet of 15 columns by 10 rows. */
  lemma StandardScreenFleet(cfg: Settings)
    requires cfg.Sized()
    requires cfg.screenWidth == 800 && cfg.screenHeight == 600
    requires cfg.alienWidth == 24 && cfg.alienHeight == 24 && cfg.shipHeight == 40
    ensures ColumnCount(cfg) == 15 && RowCount(cfg) == 10
    ensures |Layout(cfg)| == 150
  {
  }

  /** The fleet after `_change_fleet_direction` lowers every alien by `drop`. */
  function Dropped(aliens: seq<Rect>, drop: int): (dropped: seq<Rect>) {
    seq(|aliens|, i requires 0 <= i < |aliens| => aliens[i].(y := aliens[i].y + drop))
  }

  /** The fleet after every alien has moved `dx` sideways (`Alien.update`). */
  function Advanced(aliens: seq<Rect>, dx: int): (moved: seq<Rect>) {
    seq(|aliens|, i requires 0 <= i < |aliens| => aliens[i].(x := aliens[i].x + dx))
  }
}
