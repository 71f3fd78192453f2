# go-allegro: a verified model of the binding's own logic

go-allegro is a Go (cgo) binding over the Allegro 5 game library, with example
programs. Almost every binding function is a single native call. This model covers
the parts that have logic of their own:

- `Native` (native.dfy) holds the values that cross the cgo boundary:
  - opaque handles, and the Go `(value, error)` pair as `Result`;
  - the integer conversions `C.int(...)` and `uint8(...)`;
  - `>>` and `& 255` on a `uint32`.
  `C.int` is modelled as a 32-bit two's-complement wrap.
- `Font` (font.dfy) is the font addon:
  - the packed version word decoded into four bytes, with its round trip;
  - the loaders that turn a nil native handle into an error;
  - `GrabFontFromBitmap`: it refuses an empty range list, flattens the `[2]int` ranges into a C int buffer with a nested loop over an array, and passes the pair count to the native call.
- `Ttf` (ttf.dfy) is the TTF addon: its copy of the version decoding, and its four loaders.
- `TileGame` (tile_game.dfy) is the tile game example (03_example/game.go):
  - the 20×16 map, the 600×480 display and the start position;
  - `Object.Move`, the collision step that commits a one-axis move only when the map cells under the leading edge's two corners are floor;
  - `Game.Update`, the arrow-key priority;
  - `Game.RenderTile` and `Tile.Render`, tile placement;
  - the background loop.
  `Object` and `Game` are classes whose methods update fields in place. `Object.Move` and `Game.Update` are proved against the specification function `Moved`, and `Game.RenderBackground` against `Background`. The lemmas show:
  - a step never leaves the map or enters a wall;
  - the gopher starts clear of walls.
- `GopherGame` (gopher_game.dfy) is the second copy of the game (03_example/03_game/game.go), with the constants renamed. It has its own classes, proved against the same specification, and a lemma shows that its constants and map equal the first copy's.
- `FontDemo` (font_demo.dfy) is the glyph table loop of the font demo:
  - ranges in order, code points from start up to (excluding) stop;
  - the pen advances by each glyph's advance and wraps to a new line past the right margin.
  Glyph advances, the line height and the display width are parameters.

Native calls are parameters: either the handle the native routine returned, or a
function standing for the routine. As a function, what the binding passes it can be
seen in contracts (for example, the pair count given to `al_grab_font_from_bitmap`).
The keyboard state is a parameter of `Update`: the set of keys held down.

Coordinates are whole pixels. Every value the games use is integral:
- speed 6;
- tile 30;
- sprite 20;
- start 170.

A pixel's cell is computed with Dafny's division by a positive constant, which is
the floor the Go code computes with `math.Floor`.

## Model

| member | source | states |
|---|---|---|
| Native.CInt | allegro/font/font.go:64 | `C.int(x)` keeps x modulo 2^32 |
| Native.CIntFits | allegro/font/font.go:102 | a value that fits a C int passes through `C.int` unchanged |
| Native.MaskIsMod | allegro/font/font.go:44-46 | on a 32-bit word, `v & 255` (the low byte that `uint8(v)` keeps) is v modulo 256, the encoding `ToUint8` and `And255` use |
| Native.ShrIsDiv | allegro/font/font.go:43-45 | on a 32-bit word, `v >> 24`, `v >> 16` and `v >> 8` are the quotients by 2^24, 2^16 and 2^8, the encoding `Shr` uses |
| Native.FromNative | allegro/font/font.go:52-56 | the nil check: an error exactly when the handle is nil, carrying the given message; otherwise the handle itself |
| Font.Pack | allegro/font/font.go:39-40 | the packed version format: its top byte is the major version |
| Font.ByteExtraction | allegro/font/font.go:43-46 | the four shift-and-mask expressions are v/2^24, (v/2^16) mod 256, (v/2^8) mod 256 and v mod 256 |
| Font.Version | allegro/font/font.go:41-48 | decoding is lossless: re-packing the four components gives back the word |
| Font.VersionBytes | allegro/font/font.go:43-46 | major, minor, revision and release are bytes 3, 2, 1 and 0 of the word |
| Font.VersionOfPack | allegro/font/font.go:41-48 | the other direction: decoding a packed version gives back its four components |
| Font.Builtin | allegro/font/font.go:51-57 | an error ("failed to create builtin font") exactly when the native handle is nil, otherwise that handle |
| Font.LoadFont | allegro/font/font.go:61-71 | an error naming the file exactly when `al_load_font`, given `C.int` of size and flags, returns nil; otherwise that handle |
| Font.LoadBitmapFont | allegro/font/font.go:77-87 | an error naming the file exactly when `al_load_bitmap_font` returns nil; otherwise that handle |
| Font.Flatten | allegro/font/font.go:93-97 | the buffer holds exactly 2·len(ranges) C ints |
| Font.FlattenAt | allegro/font/font.go:99-104 | slot 2i holds `C.int(ranges[i][0])` and slot 2i+1 holds `C.int(ranges[i][1])` |
| Font.Unflatten | allegro/font/font.go:106 | reading an even-length buffer back pair by pair gives half as many pairs |
| Font.FlattenRoundTrip | allegro/font/font.go:99-104 | when every value fits a C int, reading the buffer back pair by pair gives the ranges exactly: none lost, reordered or split |
| Font.GrabFontFromBitmap | allegro/font/font.go:91-111 | an empty range list gives "no ranges specified" before any native call; otherwise the nested loop fills the buffer with exactly `Flatten(ranges)`, and the result is the nil check on `al_grab_font_from_bitmap(bmp, C.int(nRanges), buffer)`, where nRanges is the pair count |
| Ttf.Version | allegro/font/ttf/ttf.go:38-45 | the TTF decoding is the same function of the word as the font addon's |
| Ttf.VersionRoundTrip | allegro/font/ttf/ttf.go:38-45 | re-packing the components gives back the word, and decoding a packed version gives back its components |
| Ttf.VersionBytes | allegro/font/ttf/ttf.go:40-43 | major is the top byte; minor, revision and release are bytes 2, 1 and 0, each below 256 |
| Ttf.LoadFont | allegro/font/ttf/ttf.go:49-57 | an error naming the file exactly when `al_load_ttf_font` returns nil; otherwise that handle, viewed as a font |
| Ttf.LoadFontF | allegro/font/ttf/ttf.go:61-70 | "failed to load font from file" exactly when `al_load_ttf_font_f` returns nil; otherwise that handle |
| Ttf.LoadFontStretch | allegro/font/ttf/ttf.go:74-82 | an error naming the file exactly when `al_load_ttf_font_stretch` returns nil; otherwise that handle |
| Ttf.LoadFontStretchF | allegro/font/ttf/ttf.go:87-96 | "failed to load font from file" exactly when `al_load_ttf_font_stretch_f` returns nil; otherwise that handle |
| TileGame.GameMapAsWritten | 03_example/game.go:19-36 | the map is the program's 16×20 table, cell for cell |
| TileGame.RowsAsWritten | 03_example/game.go:20-27 | the three kinds of row: all wall, wall at both ends, and the pillar row |
| TileGame.MapShape | 03_example/game.go:19-36 | 16 rows of 20 cells |
| TileGame.DisplaySize | 03_example/game.go:38-41 | the display is TILE_SIZE times the map's size: 600 by 480 |
| TileGame.GameMapWalled | 03_example/game.go:19-36 | the map is rectangular and every floor cell lies strictly inside its wall border |
| TileGame.MoveShape | 03_example/game.go:85-113 | one coordinate changes, by exactly its delta or not at all, and the size never changes; when dx≠0, y never changes even if dy≠0; Move(0,0) changes nothing |
| TileGame.MoveCommitRule | 03_example/game.go:85-113 | for each of the four directions, the step is committed exactly when both cells under the leading edge's corners are 0; the cells are at the target position, computed with floor division by TILE_SIZE |
| TileGame.MovedByCells | 03_example/game.go:85-113 | when the probed cells are on the map, the step is committed exactly when the map holds 0 at both of them, which is the test Move makes |
| TileGame.ClearOverlapsNoWall | 03_example/game.go:77-79 | a clear box overlaps no wall: every pixel it covers, its edges included, is on a floor cell |
| TileGame.ClearAfterSideStep | 03_example/game.go:85-98 | a sideways shift of at most the box's width keeps it clear when the new leading column's cells are floor |
| TileGame.ClearAfterUpDownStep | 03_example/game.go:99-112 | a vertical shift of at most the box's height keeps it clear when the new leading row's cells are floor |
| TileGame.SideStepKeepsClear | 03_example/game.go:85-98 | on a walled map, a sideways step of at most the box's width reads only cells on the map and keeps a clear box clear |
| TileGame.UpDownStepKeepsClear | 03_example/game.go:99-112 | on a walled map, a vertical step of at most the box's height reads only cells on the map and keeps a clear box clear |
| TileGame.MoveKeepsClear | 03_example/game.go:80-114 | on a walled map, a one-axis step no longer than the box never indexes outside the map and never ends overlapping a wall |
| TileGame.StartIsClear | 03_example/game.go:197-200 | the gopher starts at (6·30 − 20/2, 6·30 − 20/2) = (170, 170), 20 by 20, clear of every wall |
| TileGame.Object.Spawn | 03_example/game.go:197-200 | the object has the GOPHER_SIZE bitmap's size and is centred on the corner of tile (START_X, START_Y), on floor |
| TileGame.Object.Move | 03_example/game.go:80-114 | the fields become exactly `Moved(GAME_MAP, old box, dx, dy)`, given that the probed cells are on the map |
| TileGame.Direction | 03_example/game.go:134-145 | the step of a frame is along one axis only, with length GOPHER_SPEED when an arrow key is held and 0 otherwise |
| TileGame.DirectionPriority | 03_example/game.go:136-144 | priority: right beats left, left beats down, down beats up; with no arrow held there is no step |
| TileGame.GopherStep | 03_example/game.go:134-145 | the step of any frame reads only cells on the map, keeps a clear gopher clear, and keeps its size |
| TileGame.RenderOnGrid | 03_example/game.go:123-125 | tile (x, y) is drawn with its own bitmap at pixel (x·TILE_SIZE, y·TILE_SIZE), and that pixel's cell is (x, y) |
| TileGame.Game.RenderTile | 03_example/game.go:52-58 | an id absent from the tile map draws nothing; otherwise that tile is rendered at cell (x, y) |
| TileGame.Game.constructor | 03_example/game.go:166-212 | main's setup: a new gopher of the GOPHER_SIZE bitmap's size at the start position, the tiles by id, and the state `Update` requires (gopher clear of walls and at least GOPHER_SPEED in size) |
| TileGame.Game.Update | 03_example/game.go:134-145 | the gopher becomes `Moved` by `Direction(keys)`: at most one Move of exactly GOPHER_SPEED, in priority order; the gopher stays clear of walls |
| TileGame.Game.RenderBackground | 03_example/game.go:218-222 | the nested loop makes exactly the draws of `Background`: every map cell, row by row, through RenderTile |
| TileGame.Game.RowDrawsAt | 03_example/game.go:219-221 | every cell of a row is drawn, in order, at its own cell |
| TileGame.Game.BackgroundCells | 03_example/game.go:218-222 | when every id has a tile, the first n rows draw 20n tiles, and draw k = 20r + c is cell (c, r) rendered with its own tile |
| TileGame.Game.BackgroundCoversMap | 03_example/game.go:215-222 | when every id has a tile, the background is 320 draws, one per cell in row-major order, all inside the 600×480 display |
| GopherGame.SameGame | 03_example/03_game/game.go:12-41 | the copy declares the same table and the same constant values; its display is 600×480 |
| GopherGame.Step | 03_example/03_game/game.go:134-145 | the step of any frame on this copy's map reads only cells on the map, keeps a clear gopher clear, and keeps its size |
| GopherGame.Object.Spawn | 03_example/03_game/game.go:197-198 | the gopher starts at (startX·titleSize − w/2, startY·titleSize − h/2), on floor |
| GopherGame.Object.Move | 03_example/03_game/game.go:80-114 | the fields become exactly `Moved` of the old box: the four leading-edge tests, a committed step adding exactly the delta, and a rejected one changing nothing |
| GopherGame.Tile.Render | 03_example/03_game/game.go:123-125 | the same placement as the first copy: pixel (x·titleSize, y·titleSize) |
| GopherGame.Game.RenderTile | 03_example/03_game/game.go:52-58 | unknown ids draw nothing; a known id is drawn with its bitmap at (x·titleSize, y·titleSize) |
| GopherGame.Game.constructor | 03_example/03_game/game.go:166-210 | main's setup: a new gopher at the start position, the tiles by id, and the state `Update` requires |
| GopherGame.Game.Update | 03_example/03_game/game.go:134-145 | at most one Move of exactly gopherSpeed, with priority right, left, down, up; the gopher stays clear of walls |
| FontDemo.SpanAt | 03_example/05_font/font.go:148 | a range runs from start to stop − 1, ascending: stop − start code points, or none when stop ≤ start |
| FontDemo.CodePointsFrom | 03_example/05_font/font.go:144-148 | the code points from range i on are those of range i, followed by the rest |
| FontDemo.CodePointsCount | 03_example/05_font/font.go:144-162 | the number of glyphs placed is the sum over the ranges of stop − start |
| FontDemo.DemoRanges | 03_example/05_font/font.go:81-86 | the Euro range [0x20AC, 0x20AC] places no glyph; the demo places 316 glyphs |
| FontDemo.Advance | 03_example/05_font/font.go:156-160 | after a glyph, y either stays or the pen wraps to x = 10 and y grows by the line height; on a display at least 20 wide, x ends at most displayWidth − 10 |
| FontDemo.LayoutSteps | 03_example/05_font/font.go:144-162 | one glyph per code point, in order; the first glyph is at the start pen, and each next glyph is where Advance puts the pen after the one before |
| FontDemo.LayoutWraps | 03_example/05_font/font.go:149-160 | after glyph k, the next glyph is at x + advance on the same line when that is at most displayWidth − 10, and otherwise at x = 10, one line height further down |
| FontDemo.LayoutBounds | 03_example/05_font/font.go:157-160 | on a display at least 20 wide with a non-negative line height: every glyph is within the right margin, y never decreases, and the pen ends within the margin |
| FontDemo.DemoLayout | 03_example/05_font/font.go:139-162 | starting at (10, 300): as many glyphs as code points, in order, all within the right margin and not above the first line |
| FontDemo.DrawGlyphs | 03_example/05_font/font.go:139-162 | the nested loops draw exactly the layout of the ranges' code points, from pen (10, 300), and end at its final pen; hence the count, order and bounds of DemoLayout |

## Left out

- The cgo forwarding itself: the draw functions, glyph and text metrics, `Destroy`, `Install` and `Uninstall` of both addons. Each is a single native call.
- `C.CString`, `free_string` and the `unsafe.Pointer` casts. These are memory plumbing, and the filename is passed as a string. The native side stops at the first NUL; that truncation is not modelled.
- `DrawTextf` and `DrawJustifiedTextf` formatting with `fmt.Sprintf`: library formatting.
- The event loops and timers of the examples' `main`, and `waitForEsc`: these are native event queues and blocking waits. The keyboard state is a parameter, the set of keys held down.
- `Game.Render`, `Object.Render`, `HoldBitmapDrawing`, `FlipDisplay` and bitmap creation are native rendering. A tile draw is modelled as a `Draw` value, and the background as the sequence of draws.
- The font demo's rainbow colour: it is computed with `math.Sin` in floating point.
- float32 arithmetic in `Move`: coordinates are integers, since every value the game uses is integral.
- 03_example/04_monitor_info/monitor.go and 03_example/version.go: they only print the results of native queries.
- The second copy's background loop (03_example/03_game/game.go:216-220) is the same loop over the same table. It is modelled once, as `TileGame.Game.RenderBackground`.
- The bitmap an `Object` carries (`Entity.image`) and its size query: the object's w and h are set to the bitmap's size, `GOPHER_SIZE`.
- TileGame.Object.Move: requires that the cells it reads are on the map. Go would panic with an index out of range otherwise, and that panic is not modelled. `MoveKeepsClear` shows the requirement always holds for the steps `Update` takes.
- GopherGame.Object.Move: requires that the cells it reads are on the map. Go would panic with an index out of range otherwise, and that panic is not modelled. `GopherGame.Step` shows the requirement always holds for the steps its `Update` takes.
- TileGame.MoveKeepsClear: proved for one-axis steps only. For a step with both dx and dy non-zero, Move probes the rows at y + dy even though it changes only x. The example never makes such a step.
