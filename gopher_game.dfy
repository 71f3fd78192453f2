/** The second copy of the tile game (03_game): the same game with the
    constants renamed in Go's mixed-caps style (titleSize, gopherSpeed, ...).
    Its operations are modelled on their own and proved against the movement
    specification of TileGame, whose constants and map it shares value for
    value. */
module GopherGame {
  import opened Native
  import TileGame

  const titleSize := 30
  const gopherSize := 20
  const startX := 6
  const startY := 6
  const gopherSpeed := 6

  /** gameMap: the same table as TileGame.GAME_MAP. */
  const gameMap: TileGame.Grid := TileGame.GAME_MAP

  const displayWidth := titleSize * |gameMap[0]|
  const displayHeight := titleSize * |gameMap|

  /** This copy declares the same table, and its constants have the values of
      the other copy's; so the display is again 600 by 480. */
  lemma SameGame()
    ensures gameMap == [
      [1, 1, 1, 1, 1, 1, 1, 1, 1, 1, 1, 1, 1, 1, 1, 1, 1, 1, 1, 1],
      [1, 0, 0, 0, 0, 0, 0, 0, 0, 0, 0, 0, 0, 0, 0, 0, 0, 0, 0, 1],
      [1, 0, 0, 0, 0, 0, 0, 0, 0, 0, 0, 0, 0, 0, 0, 0, 0, 0, 0, 1],
      [1, 0, 0, 0, 0, 0, 0, 0, 0, 0, 0, 0, 0, 0, 0, 0, 0, 0, 0, 1],
      [1, 0, 0, 0, 0, 0, 0, 0, 0, 0, 0, 0, 0, 0, 0, 0, 0, 0, 0, 1],
      [1, 0, 0, 0, 0, 0, 0, 0, 0, 0, 0, 0, 0, 0, 0, 0, 0, 0, 0, 1],
      [1, 0, 0, 0, 0, 0, 0, 0, 0, 0, 0, 0, 0, 0, 0, 0, 0, 0, 0, 1],
      [1, 0, 0, 0, 0, 0, 0, 0, 0, 0, 0, 0, 0, 1, 0, 0, 0, 0, 0, 1],
      [1, 0, 0, 0, 0, 0, 0, 0, 0, 0, 0, 0, 0, 1, 0, 0, 0, 0, 0, 1],
      [1, 0, 0, 0, 0, 0, 0, 0, 0, 0, 0, 0, 0, 1, 0, 0, 0, 0, 0, 1],
      [1, 0, 0, 0, 0, 0, 0, 0, 0, 0, 0, 0, 0, 0, 0, 0, 0, 0, 0, 1],
      [1, 0, 0, 0, 0, 0, 0, 0, 0, 0, 0, 0, 0, 0, 0, 0, 0, 0, 0, 1],
      [1, 0, 0, 0, 0, 0, 0, 0, 0, 0, 0, 0, 0, 0, 0, 0, 0, 0, 0, 1],
      [1, 0, 0, 0, 0, 0, 0, 0, 0, 0, 0, 0, 0, 0, 0, 0, 0, 0, 0, 1],
      [1, 0, 0, 0, 0, 0, 0, 0, 0, 0, 0, 0, 0, 0, 0, 0, 0, 0, 0, 1],
      [1, 1, 1, 1, 1, 1, 1, 1, 1, 1, 1, 1, 1, 1, 1, 1, 1, 1, 1, 1]
    ]
    ensures titleSize == TileGame.TILE_SIZE && gopherSize == TileGame.GOPHER_SIZE
    ensures startX == TileGame.START_X && startY == TileGame.START_Y
    ensures gopherSpeed == TileGame.GOPHER_SPEED
    ensures displayWidth == 600 && displayHeight == 480
  {
    TileGame.GameMapAsWritten();
  }

  /** The step Update takes, stated over this copy's map and speed: it keeps
      a clear gopher clear and keeps its size. */
  lemma Step(b: TileGame.Box, down: set<TileGame.Key>)
    requires TileGame.Clear(gameMap, b) && gopherSpeed <= b.w && gopherSpeed <= b.h
    ensures TileGame.CanMove(gameMap, b, TileGame.Direction(down).0, TileGame.Direction(down).1)
    ensures var r := TileGame.Moved(gameMap, b, TileGame.Direction(down).0, TileGame.Direction(down).1);
      TileGame.Clear(gameMap, r) && gopherSpeed <= r.w && gopherSpeed <= r.h
  {
    TileGame.GopherStep(b, down);
  }

  /** An object with a position and a size (the gopher). */
  class Object {
    var x: int
    var y: int
    var w: int
    var h: int

    function Bounds(): TileGame.Box
      reads this
    {
      TileGame.Box(x, y, w, h)
    }

    /** The object sits on floor only. */
    ghost predicate Valid()
      reads this
    {
      TileGame.Clear(gameMap, Bounds())
    }

    /** The gopher as main sets it up: the size of its gopherSize bitmap,
        centred on the corner of tile (startX, startY). */
    constructor Spawn()
      ensures Bounds() == TileGame.StartBox(gopherSize, gopherSize)
      ensures Valid()
    {
      w := gopherSize;
      h := gopherSize;
      x := startX * titleSize - gopherSize / 2;
      y := startY * titleSize - gopherSize / 2;
      TileGame.StartIsClear();
    }

    /** Move(dx, dy): steps by (dx, dy) unless a map cell other than 0 lies
        under the leading edge. */
    method Move(dx: int, dy: int)
      requires TileGame.CanMove(gameMap, Bounds(), dx, dy)
      modifies this
      ensures Bounds() == TileGame.Moved(gameMap, old(Bounds()), dx, dy)
    {
      var tx := x + dx;
      var ty := y + dy;
      if dx != 0 || dy != 0 {
        TileGame.MovedByCells(gameMap, Bounds(), dx, dy);
      }
      if dx > 0 {
        var xtile := (tx + w) / titleSize;
        var ytile1 := ty / titleSize;
        var ytile2 := (ty + h) / titleSize;
        assert TileGame.LeadingCells(Bounds(), dx, dy) == TileGame.Probe(xtile, ytile1, xtile, ytile2);
        if gameMap[ytile1][xtile] == 0 && gameMap[ytile2][xtile] == 0 {
          x := tx;
        }
      } else if dx < 0 {
        var xtile := tx / titleSize;
        var ytile1 := ty / titleSize;
        var ytile2 := (ty + h) / titleSize;
        assert TileGame.LeadingCells(Bounds(), dx, dy) == TileGame.Probe(xtile, ytile1, xtile, ytile2);
        if gameMap[ytile1][xtile] == 0 && gameMap[ytile2][xtile] == 0 {
          x := tx;
        }
      } else if dy > 0 {
        var xtile1 := tx / titleSize;
        var xtile2 := (tx + w) / titleSize;
        var ytile := (ty + h) / titleSize;
        assert TileGame.LeadingCells(Bounds(), dx, dy) == TileGame.Probe(xtile1, ytile, xtile2, ytile);
        if gameMap[ytile][xtile1] == 0 && gameMap[ytile][xtile2] == 0 {
          y := ty;
        }
      } else if dy < 0 {
        var xtile1 := tx / titleSize;
        var xtile2 := (tx + w) / titleSize;
        var ytile := ty / titleSize;
        assert TileGame.LeadingCells(Bounds(), dx, dy) == TileGame.Probe(xtile1, ytile, xtile2, ytile);
        if gameMap[ytile][xtile1] == 0 && gameMap[ytile][xtile2] == 0 {
          y := ty;
        }
      }
    }
  }

  /** A tile on the field: its bitmap and its id in the map. */
  datatype Tile = Tile(image: Handle, id: int)
  {
    /** Render(x, y): the tile's bitmap at the top-left pixel of cell (x, y). */
    function Render(x: int, y: int): (d: TileGame.Draw)
      ensures d == TileGame.Tile(image, id).Render(x, y)
    {
      TileGame.Draw(image, x * titleSize, y * titleSize)
    }
  }

  /** The global game object: the gopher and the tile bitmaps by id. */
  class Game {
    var gopher: Object
    var tiles: map<int, Tile>

    ghost predicate Valid()
      reads this, gopher
    {
      gopher.Valid() && gopherSpeed <= gopher.w && gopherSpeed <= gopher.h
    }

    /** The game as main sets it up: a new gopher placed at the start, and
        the tile bitmaps by id (their pixels are made by the native library). */
    constructor (tiles: map<int, Tile>)
      ensures fresh(gopher) && this.tiles == tiles
      ensures gopher.Bounds() == TileGame.StartBox(gopherSize, gopherSize)
      ensures Valid()
    {
      gopher := new Object.Spawn();
      this.tiles := tiles;
    }

    /** RenderTile(tile, x, y): renders the tile with that id at cell (x, y),
        or nothing when no tile has that id. */
    function RenderTile(tile: int, x: int, y: int): (r: Option<TileGame.Draw>)
      reads this
      ensures r.None? <==> tile !in tiles
      ensures r.Some? ==> r.value == TileGame.Draw(tiles[tile].image, x * TileGame.TILE_SIZE, y * TileGame.TILE_SIZE)
    {
      if tile !in tiles then None else Some(tiles[tile].Render(x, y))
    }

    /** Update(): once per frame, moves the gopher by gopherSpeed in the
        direction of the first held arrow key, keeping it off the walls. */
    method Update(down: set<TileGame.Key>)
      requires Valid()
      modifies gopher
      ensures Valid()
      ensures gopher.Bounds() ==
        TileGame.Moved(gameMap, old(gopher.Bounds()), TileGame.Direction(down).0, TileGame.Direction(down).1)
    {
      ghost var d := TileGame.Direction(down);
      Step(gopher.Bounds(), down);
      TileGame.DirectionPriority(down);
      if TileGame.KeyRight in down {
        assert d == (gopherSpeed, 0);
        gopher.Move(gopherSpeed, 0);
      } else if TileGame.KeyLeft in down {
        assert d == (-gopherSpeed, 0);
        gopher.Move(-gopherSpeed, 0);
      } else if TileGame.KeyDown in down {
        assert d == (0, gopherSpeed);
        gopher.Move(0, gopherSpeed);
      } else if TileGame.KeyUp in down {
        assert d == (0, -gopherSpeed);
        gopher.Move(0, -gopherSpeed);
      } else {
        assert d == (0, 0);
      }
    }
  }
}
