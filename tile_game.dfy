/** The tile game example: a gopher sprite moved by the arrow keys over a
    20x16 tile map whose non-zero cells are walls. Coordinates are whole
    pixels; a pixel (px, py) lies in map cell (px / TILE_SIZE, py / TILE_SIZE),
    Dafny's division by a positive constant being the floor of the quotient. */
module TileGame {
  import opened Native

  const TILE_SIZE := 30
  const GOPHER_SIZE := 20
  const START_X := 6
  const START_Y := 6
  const GOPHER_SPEED := 6

  /** A tile map, row-major: m[row][column]. */
  type Grid = seq<seq<int>>

  /** The three kinds of row of the map: all wall, wall only at both ends,
      and the latter with the pillar cell in column 13. */
  const WALL_ROW: seq<int> := seq(20, col => 1)
  const OPEN_ROW: seq<int> := seq(20, col => if col == 0 || col == 19 then 1 else 0)
  const PILLAR_ROW: seq<int> := OPEN_ROW[13 := 1]

  /** gameMap, row-major (GAME_MAP[row][column]); 0 is floor, 1 is wall: the
      border, and a pillar in column 13 from row 7 to row 9. It is written
      row kind by row kind so that proofs need not unfold a 320-cell literal;
      GameMapAsWritten shows it is the program's table cell for cell. */
  const GAME_MAP: Grid := [WALL_ROW, OPEN_ROW, OPEN_ROW, OPEN_ROW, OPEN_ROW, OPEN_ROW, OPEN_ROW,
                           PILLAR_ROW, PILLAR_ROW, PILLAR_ROW,
                           OPEN_ROW, OPEN_ROW, OPEN_ROW, OPEN_ROW, OPEN_ROW, WALL_ROW]

  /** GAME_MAP is the table the program declares. */
  lemma GameMapAsWritten()
    ensures GAME_MAP == [
      [1, 1, 1, 1, 1, 1, 1, 1, 1, 1, 1, 1, 1, 1, 1, 1, 1, 1, 1, 1],
      [1, 0, 0, 0, 0, 0, 0, 0, 0, 0, 0, 0, 0, 0, 0, 0, 0, 0, 0, 1],
      [1, 0, 0, 0, 0, 0, 0, 0, 0, 0, 0, 0, 0, 0, 0, 0, 0, 0, 0, 1],
      [1, 0, 0, 0, 0, 0, 0, 0, 0, 0, 0, 0, 0, 0, 0, 0, 0, 0, 0, 1],
      [1, 0, 0, 0, 0, 0, 0, 0, 0, 0, 0, 0, 0, 0, 0, 0, 0, 0, 0, 1],
      [1, 0, 0, 0, 0, 0, 0, 0, 0, 0, 0, 0, 0, 0, 0, 0, 0, 0, 0, 1],
      [1, 0, 0, 0, 0, 0, 0, 0, 0, 0, 0, 0, 0, 0, 0, 0, 0, 0, 0, 1],
      [1, 0, 0, 0, 0, 0, 0, 0, 0, 0, 0, 0, 0, 1, 0, 0, 0, 0, 0, 1],
      [1, 0, 0, 0, 0, 0, 0, 0, 0, 0, 0, 0, 0, 1, 0, 0, 0, 0, 0, 1],
      [1, 0, 0, 0, 0, 0, 0, 0, 0, 0, 0, 0, 0, 1, 0, 0, 0, 0, 0, 1],
      [1, 0, 0, 0, 0, 0, 0, 0, 0, 0, 0, 0, 0, 0, 0, 0, 0, 0, 0, 1],
      [1, 0, 0, 0, 0, 0, 0, 0, 0, 0, 0, 0, 0, 0, 0, 0, 0, 0, 0, 1],
      [1, 0, 0, 0, 0, 0, 0, 0, 0, 0, 0, 0, 0, 0, 0, 0, 0, 0, 0, 1],
      [1, 0, 0, 0, 0, 0, 0, 0, 0, 0, 0, 0, 0, 0, 0, 0, 0, 0, 0, 1],
      [1, 0, 0, 0, 0, 0, 0, 0, 0, 0, 0, 0, 0, 0, 0, 0, 0, 0, 0, 1],
      [1, 1, 1, 1, 1, 1, 1, 1, 1, 1, 1, 1, 1, 1, 1, 1, 1, 1, 1, 1]
    ]
  {
    RowsAsWritten();
  }

  /** The three row kinds, cell by cell. */
  lemma RowsAsWritten()
    ensures WALL_ROW == [1, 1, 1, 1, 1, 1, 1, 1, 1, 1, 1, 1, 1, 1, 1, 1, 1, 1, 1, 1]
    ensures OPEN_ROW == [1, 0, 0, 0, 0, 0, 0, 0, 0, 0, 0, 0, 0, 0, 0, 0, 0, 0, 0, 1]
    ensures PILLAR_ROW == [1, 0, 0, 0, 0, 0, 0, 0, 0, 0, 0, 0, 0, 1, 0, 0, 0, 0, 0, 1]
  {
  }

  const DISPLAY_WIDTH := TILE_SIZE * |GAME_MAP[0]|
  const DISPLAY_HEIGHT := TILE_SIZE * |GAME_MAP|

  /** The map has 16 rows of 20 cells each. */
  lemma MapShape()
    ensures |GAME_MAP| == 16
    ensures forall row :: 0 <= row < 16 ==> |GAME_MAP[row]| == 20
  {
  }

  /** The display is TILE_SIZE times the map's size: 600 by 480 pixels. */
  lemma DisplaySize()
    ensures DISPLAY_WIDTH == 600 && DISPLAY_HEIGHT == 480
  {
  }

  /** Cell (col, row) exists on the map. */
  predicate OnMap(m: Grid, col: int, row: int)
  {
    0 <= row < |m| && 0 <= col < |m[row]|
  }

  /** Cell (col, row) exists and is floor. */
  predicate Open(m: Grid, col: int, row: int)
  {
    OnMap(m, col, row) && m[row][col] == 0
  }

  /** A rectangular map whose border is wall: every floor cell lies strictly
      inside it. */
  ghost predicate Walled(m: Grid)
  {
    && |m| >= 2 && |m[0]| >= 2
    && (forall row :: 0 <= row < |m| ==> |m[row]| == |m[0]|)
    && (forall col, row :: Open(m, col, row) ==> 1 <= col < |m[0]| - 1 && 1 <= row < |m| - 1)
  }

  /** gameMap is walled in. */
  lemma GameMapWalled()
    ensures Walled(GAME_MAP)
  {
    MapShape();
  }

  // ---------------------------------------------------------------------------
  // Collision movement.

  /** An object's position (its top-left pixel) and size. */
  datatype Box = Box(x: int, y: int, w: int, h: int)

  /** Two map cells, (col1, row1) read first and (col2, row2) second. */
  datatype Probe = Probe(col1: int, row1: int, col2: int, row2: int)

  /** The two cells Move(dx, dy) reads before it commits the step: the corners
      of the box's leading edge at the target position. Horizontal steps take
      precedence over vertical ones; the rows of a horizontal step are taken at
      the target y, which equals the current y when dy is 0. */
  function LeadingCells(b: Box, dx: int, dy: int): Probe
  {
    var tx, ty := b.x + dx, b.y + dy;
    var left, right := tx / TILE_SIZE, (tx + b.w) / TILE_SIZE;
    var top, bottom := ty / TILE_SIZE, (ty + b.h) / TILE_SIZE;
    if dx > 0 then Probe(right, top, right, bottom)
    else if dx < 0 then Probe(left, top, left, bottom)
    else if dy > 0 then Probe(left, bottom, right, bottom)
    else Probe(left, top, right, top)
  }

  /** Reading the cells does not index outside the map. The second cell is read
      only when the first is floor (Go's && short-circuits). */
  predicate Readable(m: Grid, p: Probe)
  {
    OnMap(m, p.col1, p.row1) && (m[p.row1][p.col1] == 0 ==> OnMap(m, p.col2, p.row2))
  }

  /** Move(dx, dy) does not index outside the map (the Go program would panic). */
  predicate CanMove(m: Grid, b: Box, dx: int, dy: int)
  {
    (dx != 0 || dy != 0) ==> Readable(m, LeadingCells(b, dx, dy))
  }

  /** Where Move(dx, dy) leaves a box: the whole step along the first non-zero
      axis (x before y) when both leading cells are floor, otherwise nowhere. */
  function Moved(m: Grid, b: Box, dx: int, dy: int): Box
  {
    if dx == 0 && dy == 0 then b
    else
      var p := LeadingCells(b, dx, dy);
      if !(Open(m, p.col1, p.row1) && Open(m, p.col2, p.row2)) then b
      else if dx != 0 then b.(x := b.x + dx)
      else b.(y := b.y + dy)
  }

  /** Only one coordinate changes, by exactly its delta or not at all; the size
      never changes; a horizontal step leaves y alone even when dy is non-zero;
      Move(0, 0) changes nothing. */
  lemma MoveShape(m: Grid, b: Box, dx: int, dy: int)
    ensures var r := Moved(m, b, dx, dy);
      && r.w == b.w && r.h == b.h
      && (r.x == b.x || r.x == b.x + dx)
      && (r.y == b.y || r.y == b.y + dy)
      && (dx != 0 ==> r.y == b.y)
      && (dx == 0 ==> r.x == b.x)
      && (dx == 0 && dy == 0 ==> r == b)
  {
  }

  /** The step is committed exactly when the two cells under the leading edge's
      corners are 0, for each of the four directions. */
  lemma MoveCommitRule(m: Grid, b: Box, dx: int, dy: int)
    ensures var r := Moved(m, b, dx, dy);
      var tx, ty := b.x + dx, b.y + dy;
      && (dx > 0 ==> (r.x == tx <==>
            Open(m, (tx + b.w) / TILE_SIZE, ty / TILE_SIZE) && Open(m, (tx + b.w) / TILE_SIZE, (ty + b.h) / TILE_SIZE)))
      && (dx < 0 ==> (r.x == tx <==>
            Open(m, tx / TILE_SIZE, ty / TILE_SIZE) && Open(m, tx / TILE_SIZE, (ty + b.h) / TILE_SIZE)))
      && (dx == 0 && dy > 0 ==> (r.y == ty <==>
            Open(m, tx / TILE_SIZE, (ty + b.h) / TILE_SIZE) && Open(m, (tx + b.w) / TILE_SIZE, (ty + b.h) / TILE_SIZE)))
      && (dx == 0 && dy < 0 ==> (r.y == ty <==>
            Open(m, tx / TILE_SIZE, ty / TILE_SIZE) && Open(m, (tx + b.w) / TILE_SIZE, ty / TILE_SIZE)))
  {
  }

  /** When the cells can be read, Moved commits the step exactly when the map
      holds 0 at both probed cells: the test Move makes. */
  lemma MovedByCells(m: Grid, b: Box, dx: int, dy: int)
    requires CanMove(m, b, dx, dy) && (dx != 0 || dy != 0)
    ensures var p := LeadingCells(b, dx, dy);
      var step := if dx != 0 then b.(x := b.x + dx) else b.(y := b.y + dy);
      Moved(m, b, dx, dy) == if m[p.row1][p.col1] == 0 && m[p.row2][p.col2] == 0 then step else b
  {
  }

  /** The box is smaller than a tile and its four corners lie on floor cells. As
      it is smaller than a tile, these are all the cells it overlaps. */
  ghost predicate Clear(m: Grid, b: Box)
  {
    && 0 <= b.w < TILE_SIZE && 0 <= b.h < TILE_SIZE
    && Open(m, b.x / TILE_SIZE, b.y / TILE_SIZE)
    && Open(m, (b.x + b.w) / TILE_SIZE, b.y / TILE_SIZE)
    && Open(m, b.x / TILE_SIZE, (b.y + b.h) / TILE_SIZE)
    && Open(m, (b.x + b.w) / TILE_SIZE, (b.y + b.h) / TILE_SIZE)
  }

  /** The pixel (px, py) lies on a floor cell. */
  ghost predicate OpenAt(m: Grid, px: int, py: int)
  {
    Open(m, px / TILE_SIZE, py / TILE_SIZE)
  }

  /** A clear box overlaps no wall: every pixel it covers, edges included, is
      on a floor cell. */
  lemma ClearOverlapsNoWall(m: Grid, b: Box)
    requires Clear(m, b)
    ensures forall px, py :: b.x <= px <= b.x + b.w && b.y <= py <= b.y + b.h ==> OpenAt(m, px, py)
  {
    forall px, py | b.x <= px <= b.x + b.w && b.y <= py <= b.y + b.h
      ensures OpenAt(m, px, py)
    {
      Between(b.x, px, b.w);
      Between(b.y, py, b.h);
    }
  }

  /** A coordinate between a and a + s, for s below a tile, falls in the cell
      of a or in the cell of a + s. */
  lemma Between(a: int, p: int, s: int)
    requires 0 <= s < TILE_SIZE && a <= p <= a + s
    ensures p / TILE_SIZE == a / TILE_SIZE || p / TILE_SIZE == (a + s) / TILE_SIZE
  {
  }

  /** Moving a coordinate by less than a tile moves its cell by at most one. */
  lemma CellNear(a: int, d: int)
    requires -TILE_SIZE < d < TILE_SIZE
    ensures a / TILE_SIZE - 1 <= (a + d) / TILE_SIZE <= a / TILE_SIZE + 1
  {
  }

  /** On a walled map, the neighbours of a floor cell are on the map. */
  lemma NeighbourOnMap(m: Grid, col: int, row: int, col2: int, row2: int)
    requires Walled(m) && Open(m, col, row)
    requires col - 1 <= col2 <= col + 1 && row - 1 <= row2 <= row + 1
    ensures OnMap(m, col2, row2)
  {
  }

  /** A clear box shifted sideways by at most its width stays clear when the
      cells of its new leading column are floor. */
  lemma ClearAfterSideStep(m: Grid, b: Box, dx: int)
    requires Clear(m, b) && -b.w <= dx <= b.w
    requires var col := if dx > 0 then (b.x + dx + b.w) / TILE_SIZE else (b.x + dx) / TILE_SIZE;
      Open(m, col, b.y / TILE_SIZE) && Open(m, col, (b.y + b.h) / TILE_SIZE)
    ensures Clear(m, b.(x := b.x + dx))
  {
    if dx > 0 {
      Between(b.x, b.x + dx, b.w);
    } else {
      Between(b.x, b.x + dx + b.w, b.w);
    }
  }

  /** A clear box shifted up or down by at most its height stays clear when
      the cells of its new leading row are floor. */
  lemma ClearAfterUpDownStep(m: Grid, b: Box, dy: int)
    requires Clear(m, b) && -b.h <= dy <= b.h
    requires var row := if dy > 0 then (b.y + dy + b.h) / TILE_SIZE else (b.y + dy) / TILE_SIZE;
      Open(m, b.x / TILE_SIZE, row) && Open(m, (b.x + b.w) / TILE_SIZE, row)
    ensures Clear(m, b.(y := b.y + dy))
  {
    if dy > 0 {
      Between(b.y, b.y + dy, b.h);
    } else {
      Between(b.y, b.y + dy + b.h, b.h);
    }
  }

  /** A sideways step of at most the box's width, on a walled map, reads
      only cells on the map and keeps a clear box clear. */
  lemma SideStepKeepsClear(m: Grid, b: Box, dx: int)
    requires Walled(m) && Clear(m, b)
    requires dx != 0 && -b.w <= dx <= b.w
    ensures CanMove(m, b, dx, 0)
    ensures Clear(m, Moved(m, b, dx, 0))
  {
    var p := LeadingCells(b, dx, 0);
    var edge := if dx > 0 then b.x + b.w else b.x;
    assert p.col1 == p.col2 == (edge + dx) / TILE_SIZE;
    assert p.row1 == b.y / TILE_SIZE && p.row2 == (b.y + b.h) / TILE_SIZE;
    CellNear(edge, dx);
    NeighbourOnMap(m, edge / TILE_SIZE, p.row1, p.col1, p.row1);
    NeighbourOnMap(m, edge / TILE_SIZE, p.row2, p.col2, p.row2);
    if Moved(m, b, dx, 0) != b {
      ClearAfterSideStep(m, b, dx);
    }
  }

  /** A step up or down of at most the box's height, on a walled map, reads
      only cells on the map and keeps a clear box clear. */
  lemma UpDownStepKeepsClear(m: Grid, b: Box, dy: int)
    requires Walled(m) && Clear(m, b)
    requires dy != 0 && -b.h <= dy <= b.h
    ensures CanMove(m, b, 0, dy)
    ensures Clear(m, Moved(m, b, 0, dy))
  {
    var p := LeadingCells(b, 0, dy);
    var edge := if dy > 0 then b.y + b.h else b.y;
    assert p.row1 == p.row2 == (edge + dy) / TILE_SIZE;
    assert p.col1 == b.x / TILE_SIZE && p.col2 == (b.x + b.w) / TILE_SIZE;
    CellNear(edge, dy);
    NeighbourOnMap(m, p.col1, edge / TILE_SIZE, p.col1, p.row1);
    NeighbourOnMap(m, p.col2, edge / TILE_SIZE, p.col2, p.row2);
    if Moved(m, b, 0, dy) != b {
      ClearAfterUpDownStep(m, b, dy);
    }
  }

  /** On a walled map, a one-axis step no longer than the box keeps a clear box
      on the map and clear: it never walks off the map or into a wall. */
  lemma MoveKeepsClear(m: Grid, b: Box, dx: int, dy: int)
    requires Walled(m) && Clear(m, b)
    requires dx == 0 || dy == 0
    requires -b.w <= dx <= b.w && -b.h <= dy <= b.h
    ensures CanMove(m, b, dx, dy)
    ensures Clear(m, Moved(m, b, dx, dy))
  {
    if dx != 0 {
      SideStepKeepsClear(m, b, dx);
    } else if dy != 0 {
      UpDownStepKeepsClear(m, b, dy);
    }
  }

  // ---------------------------------------------------------------------------
  // Objects and the game.

  /** Where the gopher is placed: its centre on the corner of tile
      (START_X, START_Y). */
  function StartBox(w: int, h: int): Box
  {
    Box(START_X * TILE_SIZE - w / 2, START_Y * TILE_SIZE - h / 2, w, h)
  }

  /** The gopher starts at (170, 170), 20 by 20, clear of every wall. */
  lemma StartIsClear()
    ensures StartBox(GOPHER_SIZE, GOPHER_SIZE) == Box(170, 170, 20, 20)
    ensures Clear(GAME_MAP, StartBox(GOPHER_SIZE, GOPHER_SIZE))
  {
    MapShape();
  }

  /** An object with a position and a size (the gopher). */
  class Object {
    var x: int
    var y: int
    var w: int
    var h: int

    function Bounds(): Box
      reads this
    {
      Box(x, y, w, h)
    }

    /** The object sits on floor only. */
    ghost predicate Valid()
      reads this
    {
      Clear(GAME_MAP, Bounds())
    }

    /** The gopher as main sets it up: the size of its GOPHER_SIZE bitmap,
        centred on the corner of tile (START_X, START_Y). */
    constructor Spawn()
      ensures Bounds() == StartBox(GOPHER_SIZE, GOPHER_SIZE)
      ensures Valid()
    {
      w := GOPHER_SIZE;
      h := GOPHER_SIZE;
      x := START_X * TILE_SIZE - GOPHER_SIZE / 2;
      y := START_Y * TILE_SIZE - GOPHER_SIZE / 2;
      StartIsClear();
    }

    /** Move(dx, dy): steps by (dx, dy) unless a map cell other than 0 lies
        under the leading edge. */
    method Move(dx: int, dy: int)
      requires CanMove(GAME_MAP, Bounds(), dx, dy)
      modifies this
      ensures Bounds() == Moved(GAME_MAP, old(Bounds()), dx, dy)
    {
      var tx := x + dx;
      var ty := y + dy;
      if dx != 0 || dy != 0 {
        MovedByCells(GAME_MAP, Bounds(), dx, dy);
      }
      if dx > 0 {
        var xtile := (tx + w) / TILE_SIZE;
        var ytile1 := ty / TILE_SIZE;
        var ytile2 := (ty + h) / TILE_SIZE;
        assert LeadingCells(Bounds(), dx, dy) == Probe(xtile, ytile1, xtile, ytile2);
        if GAME_MAP[ytile1][xtile] == 0 && GAME_MAP[ytile2][xtile] == 0 {
          x := tx;
        }
      } else if dx < 0 {
        var xtile := tx / TILE_SIZE;
        var ytile1 := ty / TILE_SIZE;
        var ytile2 := (ty + h) / TILE_SIZE;
        assert LeadingCells(Bounds(), dx, dy) == Probe(xtile, ytile1, xtile, ytile2);
        if GAME_MAP[ytile1][xtile] == 0 && GAME_MAP[ytile2][xtile] == 0 {
          x := tx;
        }
      } else if dy > 0 {
        var xtile1 := tx / TILE_SIZE;
        var xtile2 := (tx + w) / TILE_SIZE;
        var ytile := (ty + h) / TILE_SIZE;
        assert LeadingCells(Bounds(), dx, dy) == Probe(xtile1, ytile, xtile2, ytile);
        if GAME_MAP[ytile][xtile1] == 0 && GAME_MAP[ytile][xtile2] == 0 {
          y := ty;
        }
      } else if dy < 0 {
        var xtile1 := tx / TILE_SIZE;
        var xtile2 := (tx + w) / TILE_SIZE;
        var ytile := ty / TILE_SIZE;
        assert LeadingCells(Bounds(), dx, dy) == Probe(xtile1, ytile, xtile2, ytile);
        if GAME_MAP[ytile][xtile1] == 0 && GAME_MAP[ytile][xtile2] == 0 {
          y := ty;
        }
      }
    }
  }

  /** The keys the game looks at; any other key is OtherKey. */
  datatype Key = KeyRight | KeyLeft | KeyDown | KeyUp | OtherKey(code: int)

  function Abs(n: int): nat
  {
    if n < 0 then -n else n
  }

  /** The step Update takes for the keys held down: GOPHER_SPEED along one
      axis, the first held arrow in the order right, left, down, up deciding. */
  function Direction(down: set<Key>): (d: (int, int))
    ensures d.0 == 0 || d.1 == 0
    ensures Abs(d.0) + Abs(d.1) ==
      if KeyRight in down || KeyLeft in down || KeyDown in down || KeyUp in down then GOPHER_SPEED else 0
  {
    if KeyRight in down then (GOPHER_SPEED, 0)
    else if KeyLeft in down then (-GOPHER_SPEED, 0)
    else if KeyDown in down then (0, GOPHER_SPEED)
    else if KeyUp in down then (0, -GOPHER_SPEED)
    else (0, 0)
  }

  /** A step Update takes keeps a clear gopher at least GOPHER_SPEED wide and
      high on the game map and clear, and keeps its size. */
  lemma GopherStep(b: Box, down: set<Key>)
    requires Clear(GAME_MAP, b) && GOPHER_SPEED <= b.w && GOPHER_SPEED <= b.h
    ensures CanMove(GAME_MAP, b, Direction(down).0, Direction(down).1)
    ensures Clear(GAME_MAP, Moved(GAME_MAP, b, Direction(down).0, Direction(down).1))
    ensures Moved(GAME_MAP, b, Direction(down).0, Direction(down).1).w == b.w
    ensures Moved(GAME_MAP, b, Direction(down).0, Direction(down).1).h == b.h
  {
    var d := Direction(down);
    GameMapWalled();
    MoveKeepsClear(GAME_MAP, b, d.0, d.1);
    MoveShape(GAME_MAP, b, d.0, d.1);
  }

  /** Right beats left, left beats down, down beats up; with no arrow held
      the gopher stays. */
  lemma DirectionPriority(down: set<Key>)
    ensures KeyRight in down ==> Direction(down) == (GOPHER_SPEED, 0)
    ensures KeyRight !in down && KeyLeft in down ==> Direction(down) == (-GOPHER_SPEED, 0)
    ensures KeyRight !in down && KeyLeft !in down && KeyDown in down ==> Direction(down) == (0, GOPHER_SPEED)
    ensures KeyRight !in down && KeyLeft !in down && KeyDown !in down && KeyUp in down ==>
      Direction(down) == (0, -GOPHER_SPEED)
    ensures KeyRight !in down && KeyLeft !in down && KeyDown !in down && KeyUp !in down ==>
      Direction(down) == (0, 0)
  {
  }

  /** A drawing of a bitmap with its top-left corner at pixel (x, y). */
  datatype Draw = Draw(image: Handle, x: int, y: int)

  /** A tile on the field: its bitmap and its id in the map. */
  datatype Tile = Tile(image: Handle, id: int)
  {
    /** Render(x, y): the tile's bitmap at the top-left pixel of cell (x, y). */
    function Render(x: int, y: int): Draw
    {
      Draw(image, x * TILE_SIZE, y * TILE_SIZE)
    }
  }

  /** A tile rendered at cell (x, y) starts on that cell's top-left pixel, so
      the floor division Move uses maps its pixel back to (x, y). */
  lemma RenderOnGrid(t: Tile, x: int, y: int)
    ensures var d := t.Render(x, y);
      && d.image == t.image
      && d.x / TILE_SIZE == x && d.x % TILE_SIZE == 0
      && d.y / TILE_SIZE == y && d.y % TILE_SIZE == 0
  {
  }

  /** The drawings of an optional draw: none or one. */
  function Drawn(d: Option<Draw>): seq<Draw>
  {
    if d.Some? then [d.value] else []
  }

  /** The global game object: the gopher and the tile bitmaps by id (the
      background bitmap and the keyboard state live in the native library). */
  class Game {
    var gopher: Object
    var tiles: map<int, Tile>

    ghost predicate Valid()
      reads this, gopher
    {
      gopher.Valid() && GOPHER_SPEED <= gopher.w && GOPHER_SPEED <= gopher.h
    }

    /** The game as main sets it up: a new gopher placed at the start, and
        the tile bitmaps by id (their pixels are made by the native library). */
    constructor (tiles: map<int, Tile>)
      ensures fresh(gopher) && this.tiles == tiles
      ensures gopher.Bounds() == StartBox(GOPHER_SIZE, GOPHER_SIZE)
      ensures Valid()
    {
      gopher := new Object.Spawn();
      this.tiles := tiles;
    }

    /** RenderTile(tile, x, y): renders the tile with that id at cell (x, y),
        or nothing when no tile has that id. */
    function RenderTile(tile: int, x: int, y: int): (r: Option<Draw>)
      reads this
      ensures r.None? <==> tile !in tiles
      ensures r.Some? ==> r.value == tiles[tile].Render(x, y)
    {
      if tile !in tiles then None else Some(tiles[tile].Render(x, y))
    }

    /** Update(): once per frame, moves the gopher by GOPHER_SPEED in the
        direction of the first held arrow key, keeping it off the walls. */
    method Update(down: set<Key>)
      requires Valid()
      modifies gopher
      ensures Valid()
      ensures gopher.Bounds() == Moved(GAME_MAP, old(gopher.Bounds()), Direction(down).0, Direction(down).1)
    {
      ghost var d := Direction(down);
      GopherStep(gopher.Bounds(), down);
      DirectionPriority(down);
      if KeyRight in down {
        assert d == (GOPHER_SPEED, 0);
        gopher.Move(GOPHER_SPEED, 0);
      } else if KeyLeft in down {
        assert d == (-GOPHER_SPEED, 0);
        gopher.Move(-GOPHER_SPEED, 0);
      } else if KeyDown in down {
        assert d == (0, GOPHER_SPEED);
        gopher.Move(0, GOPHER_SPEED);
      } else if KeyUp in down {
        assert d == (0, -GOPHER_SPEED);
        gopher.Move(0, -GOPHER_SPEED);
      } else {
        assert d == (0, 0);
      }
    }

    /** The drawings the background loop makes for the first n cells of row y. */
    ghost function RowDraws(row: seq<int>, y: int, n: nat): seq<Draw>
      reads this
      requires n <= |row|
    {
      if n == 0 then [] else RowDraws(row, y, n - 1) + Drawn(RenderTile(row[n - 1], n - 1, y))
    }

    /** The drawings the background loop makes for the first n rows of map m. */
    ghost function Background(m: Grid, n: nat): seq<Draw>
      reads this
      requires n <= |m|
    {
      if n == 0 then [] else Background(m, n - 1) + RowDraws(m[n - 1], n - 1, |m[n - 1]|)
    }

    /** The background is drawn by rendering every map cell, row by row. */
    method RenderBackground() returns (draws: seq<Draw>)
      ensures draws == Background(GAME_MAP, |GAME_MAP|)
    {
      draws := [];
      for y := 0 to |GAME_MAP|
        invariant draws == Background(GAME_MAP, y)
      {
        var row := GAME_MAP[y];
        for x := 0 to |row|
          invariant draws == Background(GAME_MAP, y) + RowDraws(row, y, x)
        {
          draws := draws + Drawn(RenderTile(row[x], x, y));
        }
      }
    }

    /** Every cell of row y is drawn, in order, at its place. */
    lemma {:induction false} RowDrawsAt(row: seq<int>, y: int, n: nat)
      requires n <= |row|
      requires forall c :: 0 <= c < |row| ==> row[c] in tiles
      ensures |RowDraws(row, y, n)| == n
      ensures forall c :: 0 <= c < n ==> RowDraws(row, y, n)[c] == tiles[row[c]].Render(c, y)
    {
      if n > 0 {
        RowDrawsAt(row, y, n - 1);
      }
    }

    /** When every id on a map of 20-cell rows has a tile, the first n rows
        of its background draw each of their cells once, row by row, cell
        (c, r) with its tile at cell (c, r). */
    lemma {:induction false} BackgroundCells(m: Grid, n: nat)
      requires n <= |m|
      requires forall row :: 0 <= row < |m| ==> |m[row]| == 20
      requires forall row, col :: 0 <= row < |m| && 0 <= col < |m[row]| ==> m[row][col] in tiles
      ensures |Background(m, n)| == 20 * n
      ensures forall r, c :: 0 <= r < n && 0 <= c < 20 ==>
        Background(m, n)[20 * r + c] == tiles[m[r][c]].Render(c, r)
    {
      if n > 0 {
        BackgroundCells(m, n - 1);
        var row := m[n - 1];
        RowDrawsAt(row, n - 1, |row|);
        var prev := Background(m, n - 1);
        var last := RowDraws(row, n - 1, |row|);
        assert Background(m, n) == prev + last;
        forall r, c | 0 <= r < n && 0 <= c < 20
          ensures Background(m, n)[20 * r + c] == tiles[m[r][c]].Render(c, r)
        {
          if r < n - 1 {
            assert 20 * r + c < |prev|;
          } else {
            assert Background(m, n)[20 * r + c] == last[c];
          }
        }
      }
    }

    /** When every id on the map has a tile, the background draws each of the
        20 x 16 cells once, row by row, cell (c, r) at pixel (30c, 30r), all of
        it inside the 600 x 480 display. */
    lemma BackgroundCoversMap()
      requires forall row, col :: 0 <= row < |GAME_MAP| && 0 <= col < |GAME_MAP[row]| ==> GAME_MAP[row][col] in tiles
      ensures |Background(GAME_MAP, |GAME_MAP|)| == 320
      ensures forall r, c :: 0 <= r < 16 && 0 <= c < 20 ==>
        Background(GAME_MAP, |GAME_MAP|)[20 * r + c] == tiles[GAME_MAP[r][c]].Render(c, r)
      ensures forall k :: 0 <= k < |Background(GAME_MAP, |GAME_MAP|)| ==>
        0 <= Background(GAME_MAP, |GAME_MAP|)[k].x && Background(GAME_MAP, |GAME_MAP|)[k].x + TILE_SIZE <= DISPLAY_WIDTH &&
        0 <= Background(GAME_MAP, |GAME_MAP|)[k].y && Background(GAME_MAP, |GAME_MAP|)[k].y + TILE_SIZE <= DISPLAY_HEIGHT
    {
      MapShape();
      BackgroundCells(GAME_MAP, |GAME_MAP|);
      var all := Background(GAME_MAP, |GAME_MAP|);
      forall k | 0 <= k < |all|
        ensures 0 <= all[k].x && all[k].x + TILE_SIZE <= DISPLAY_WIDTH
        ensures 0 <= all[k].y && all[k].y + TILE_SIZE <= DISPLAY_HEIGHT
      {
        var r, c := k / 20, k % 20;
        assert k == 20 * r + c;
        assert all[k] == tiles[GAME_MAP[r][c]].Render(c, r);
      }
    }
  }
}
