# Sokoban game logic in Dafny

This project models the game logic of a browser Sokoban game. A level comes
from a text template in which each character stands for an element:

| character | element |
|---|---|
| space | empty |
| `=`, `\|`, `+` | wall |
| `*` | target |
| `X` | block |
| `o` | actor |

**The board.** Each cell has two layers:
- a static terrain layer, which is either a target or plain floor;
- an entity layer, which holds empty, a wall, a block or the actor.

**Moves.** The player moves the actor with the arrow keys, one tile at a time. The actor may push a row of up to three blocks, provided the tile after the row is empty.

**Winning and counting.** The game is won when every block stands on a target and every target holds a block. Every arrow key pressed in a running game counts as a move. Once the game is won, it ignores further keys.

**New games.**
- Before the first game, every template is validated.
- The next level is picked at random, but never the one just played.
- When a new game starts, the current game, won or not, is archived into the history if it counted at least one move.

**Modules.**

| module | file | contents |
|---|---|---|
| `Wrappers` | `wrappers.dfy` | `Option`, `Result`, `Outcome` |
| `SokobanBase` | `sokoban_base.dfy` | element codes, directions and their unit steps, the character legend, the four shipped templates |
| `Board` | `board.dfy` | cells, grids, bounds-checked stepping, tile writes, counting, flattening, building a board from a template, locating the actor |
| `Moves` | `moves.dfy` | the recursive push `MoveItem` |
| `Gameplay` | `game.dfy` | the game record, `MoveActor`, the win check, `HandleArrowKey` and key sequences |
| `Templates` | `templates.dfy` | template validation, and how template counts become board counts |
| `Session` | `session.dfy` | random level choice, archiving, starting a game, keys on the session |
| `Levels` | `levels.dfy` | the shipped levels pass validation, so the first game always starts |

**Push rule.** For pushes, the model states its own reference rule:
- `ChainOk(b, p, d, k)` holds when exactly `k` blocks stand in a row ahead of `p`, followed by an empty tile.
- `MoveItem` succeeds exactly when some `k` within the budget satisfies it.
- When it succeeds, every entity on that line shifts one tile forward (`ShiftedAlong`).

**Layers and budget.**
- The push budget is 3 blocks (javascript.js:56).
- Walls live in the entity layer, beside blocks and the actor (javascript.js:138). Only targets live in the terrain layer (javascript.js:137).
- Validation does not reject a template without blocks and targets, although the check's own comment promises it (see Findings).

## Model

| member | source | states |
|---|---|---|
| SokobanBase.Diff | SokobanBase.js:94-99 | every direction is a unit step along exactly one axis |
| SokobanBase.OppositeDirections | SokobanBase.js:94-99 | up and down, and left and right, are opposite steps |
| SokobanBase.Char2Code | SokobanBase.js:114-122 | a character has a code exactly when it is in the legend; the three wall characters, space, `*`, `X` and `o` each map to their code and only they do |
| Board.AddPos | javascript.js:284-294 | the step is reported exactly when the neighbouring position lies on the board, and it is that neighbour, one tile away along one axis |
| Board.ObjGet | javascript.js:279-282 | an absent position yields no entity; a present one yields its entity layer |
| Board.SetTile | javascript.js:86-90 | writing a tile sets its entity, leaves every other tile as it was, and never touches the terrain |
| Board.SetTileCount | javascript.js:86-90 | after a write, each entity count changes only by the entity removed and the entity written |
| Board.FlattenCount | javascript.js:312-316 | flattening keeps every entity count and the target count |
| Board.Flatten | javascript.js:312-316 | every cell of the board is in the flat list, and every member of the list is a cell of the board |
| Board.MakeCell | javascript.js:136-141 | the tile keeps its row and column; it is a target exactly for the target code and holds a wall, block or actor exactly for that code; any other code gives an empty plain tile |
| Board.BoardFromTemplate | javascript.js:134-143 | the board has the template's shape; each cell records its own row and column; a cell is a target exactly where the code is the target code, and holds a wall, block or actor exactly where the code is that entity's; no target carries an entity |
| Board.ConvertTemplate | javascript.js:202 | the converted template has the template's shape, and each code is the legend's code for the character at the same row and column |
| Board.GetActorPosition | javascript.js:145-149 | the position is found exactly when one cell holds the actor, and it is that cell's position; otherwise the error is reported |
| Board.ActorPositionOnBoard | javascript.js:145-149 | on a board built from a template, a found actor position is on the board and holds the only actor |
| Moves.MoveItem | javascript.js:65-80 | a push off the board, into a wall or into the actor is refused; a successful push never changes the terrain |
| Moves.ChainOkRay | javascript.js:65-80 | the recursive chain rule is the same as "k blocks in a row ahead, then an empty tile on the board" |
| Moves.ChainUnique | javascript.js:65-80 | at most one chain length fits a line |
| Moves.MoveItemShifts | javascript.js:65-80 | with a chain of `k` blocks within the budget, the push succeeds and every entity on the `k + 1` tiles ahead comes from the tile behind it; all other tiles are unchanged |
| Moves.MoveItemChain | javascript.js:65-80 | a successful push had a chain within the budget |
| Moves.MoveItemRefused | javascript.js:65-80 | a push is refused exactly when no chain length up to the budget fits |
| Moves.BudgetExceeded | javascript.js:76 | `budget + 1` blocks in a row are always refused |
| Moves.MoveItemKeepsStart | javascript.js:65-80 | the pushing tile itself is not rewritten by the push |
| Moves.MoveItemCounts | javascript.js:65-80 | a successful push keeps every entity count except one more of the pusher's entity and one fewer empty tile |
| Gameplay.MoveActor | javascript.js:52-63 | a finished game does not move; nothing but the board and the actor position changes; terrain is kept; the actor position stays on the board |
| Gameplay.MoveActorCells | javascript.js:52-63 | after a move with a chain of `k` blocks, the old actor tile is empty, the `k + 1` tiles ahead are shifted and every other tile is unchanged |
| Gameplay.MoveActorCounts | javascript.js:52-63 | a successful move keeps the number of actors, blocks, walls and empty tiles |
| Gameplay.MoveActorPlaces | javascript.js:52-63 | on success the actor stands one step ahead, as `addPos` reports, and its old tile is empty |
| Gameplay.MoveActorPushes | javascript.js:52-63 | the `k` pushed blocks now occupy the tiles 2 to `k + 1` ahead of the old position |
| Gameplay.MoveActorWalls | javascript.js:52-63 | a tile holds a wall after a move exactly when it did before |
| Gameplay.MoveActorSucceeds | javascript.js:52-63 | a successful move goes one step ahead, keeps all entity counts and the terrain, and leaves a valid game |
| Gameplay.MoveActorRefused | javascript.js:52-63 | a move changes nothing exactly when the game is finished or no chain within 3 blocks fits |
| Gameplay.MoveActorValid | javascript.js:52-63 | every move keeps the actor position on the board, on the actor, and the actor unique |
| Gameplay.ThreeBlocksPushed | javascript.js:56 | three blocks followed by an empty tile are all pushed one step |
| Gameplay.FourBlocksRefused | javascript.js:56 | four blocks in a row are never pushed |
| Gameplay.ScanSuccess | javascript.js:117-120 | the scan reports success exactly when every cell holds a block if and only if it is a target |
| Gameplay.SolvedGrid | javascript.js:117-120 | the check over the flat cell list is the same as the check over every board position |
| Gameplay.UpdateGameStatus | javascript.js:114-127 | the counter rises by one exactly when asked; the game is finished afterwards exactly when it was before or the board is solved; a finished game keeps its status; board and position are untouched |
| Gameplay.HandleArrowKey | javascript.js:40-46 | the board and actor position are those `moveActor` leaves; each key in a running game adds one move, refused or not; a finished game ignores the key; afterwards the game is finished exactly when it was before or the new board is solved |
| Gameplay.HandleArrowKeyValid | javascript.js:40-46 | every key keeps a game valid |
| Gameplay.Play | javascript.js:40-46 | any sequence of keys keeps a game valid |
| Gameplay.PlayLatched | javascript.js:319-320 | a won game ignores every further key |
| Gameplay.PlayCounts | javascript.js:114-115 | the counter never exceeds one per key; a game still running has counted every key; a won game stays won |
| Gameplay.PlayKeepsTerrain | javascript.js:86-90 | no sequence of keys changes the terrain layer |
| Templates.TallyRowCounts | javascript.js:252-256 | after the character loop over a row, each code's entry is its old value (or 0) plus its occurrences in the row, and the entry exists exactly when it did before or the code occurs |
| Templates.TallyCounts | javascript.js:247-257 | the same over all rows of the template |
| Templates.TemplateCountEntries | javascript.js:241-257 | the final `count` map has an entry for a code exactly when the code occurs, the entry is its number of occurrences, and so an entry is never 0 |
| Templates.FirstUnknown | javascript.js:252-254 | the scan stops at the first character outside the legend, and everything before it is in the legend |
| Templates.CheckRows | javascript.js:247-257 | the row checks pass exactly when every row has the first row's length and only legend characters; a failure comes from the first faulty row in order: a row of the wrong length is ragged, otherwise its first character outside the legend is the one reported |
| Templates.SanityCheckTemplate | javascript.js:234-261 | as written: it accepts exactly the well-formed templates (at least 6x6, rectangular, legend only, one actor, as many blocks as targets); too few rows, too few columns, a row fault, a wrong actor count and a block/target mismatch are each reported exactly under their own condition, and a row fault names the first faulty row's cause; the "no blocks" failure never occurs |
| Templates.SanityCheckTemplateIntended | javascript.js:239 | it accepts exactly the well-formed templates with at least one block; it rejects the well-formed ones without blocks; otherwise it fails as the check as written does |
| Templates.ValidatorsDiffer | javascript.js:258-260 | the two checks disagree exactly on well-formed templates with neither blocks nor targets |
| Templates.EmptyRoomAccepted | javascript.js:260 | a 6x6 room holding only the actor passes the check as written and fails the intended one |
| Templates.TemplateBoardCounts | javascript.js:134-143 | the board built from a template holds as many actors, blocks, walls and targets as the template has characters for them |
| Templates.ShippedTemplatesShaped | SokobanBase.js:124-176 | the shipped templates are 6x6, 8x8, 10x10 and 16x19, rectangular, and use only legend characters |
| Session.RandomTemplateIndex | javascript.js:151-161 | without a game the draw is the index; with a single template the index is 0; otherwise an in-range draw gives an in-range index other than the current one |
| Session.RandomTemplateIndexBijective | javascript.js:151-161 | with a current game and several templates, the draws below `n - 1` correspond one to one with the other indices |
| Session.RandomTemplateIndexInjective | javascript.js:151-161 | different draws pick different templates |
| Session.ArchiveGame | javascript.js:186-194 | the history grows by exactly one entry, at its end, exactly when there is a game with a non-zero move count; the entry is that game without its board |
| Session.CheckCatalogAsWritten | javascript.js:230-232 | the catalog passes exactly when every template passes the check as written; a failure is that of the first failing template, every template before it passing |
| Session.CheckCatalog | javascript.js:230-232 | the same with the intended per-template check: the catalog passes exactly when every template passes it, and a failure is that of the first failing template |
| Session.CatalogChecksDiffer | javascript.js:230-232 | the intended catalog check passes only catalogs the one as written passes; where they disagree, some template has neither blocks nor targets |
| Session.NewGame | javascript.js:196-224 | a catalog failure before the first game is reported; on success the game has the picked index and its template's name and board, no moves, is active and valid, and the history is the archived one |
| Session.CheckedTemplateBoard | javascript.js:198-208 | a validated template builds a board with one actor and as many blocks as targets, at least one of each, and locating the actor cannot fail |
| Session.NewGameSucceeds | javascript.js:196-224 | with a validated catalog and a draw `rndInt` can return, starting a game succeeds, keeps the session valid, and with several templates picks a different level |
| Session.FreshGameNotSolved | javascript.js:196-224 | a freshly started game is not already won |
| Session.ArrowKey | javascript.js:40-46 | without a game, a key changes nothing; with one, the game becomes the one `handleArrowKey` leaves, and the history and the presence of a game are kept |
| Session.ArrowKeyValid | javascript.js:40-46 | keys keep a session valid |
| Session.GameDone | javascript.js:319-320 | false without a game; with one, true exactly when it is won (`Gameplay.IsGameDone`); a session whose game is done is left unchanged by every arrow key |
| Levels.CountCodeChar | javascript.js:253-256 | where a single character has a code, the number of cells the check counts for that code is the number of that character in the template |
| Levels.PassesFromSums | javascript.js:234-261 | a rectangular legend-only template of at least 6x6 with one `o` and as many `X` as `*`, at least one, passes the intended check |
| Levels.TinyPasses | SokobanBase.js:125-132 | the tiny level passes the intended check: one actor, two blocks, two targets |
| Levels.SmallPasses | SokobanBase.js:134-143 | the small level passes the intended check: one actor, four blocks, four targets |
| Levels.MediumPasses | SokobanBase.js:145-156 | the medium level passes the intended check: one actor, six blocks, six targets |
| Levels.LargePasses | SokobanBase.js:158-175 | the large level passes the intended check: one actor, six blocks, six targets |
| Levels.ShippedTemplatesValid | SokobanBase.js:124-176 | every template of the shipped catalog passes the check `newGame` runs before the first game |
| Levels.ShippedGameStarts | javascript.js:196-224 | on page load, every draw `rndInt` can return starts a game on the shipped catalog at the drawn level, and the session is valid |

## Left out

- Rendering is not modelled: the DOM and CSS classes, tile class updates, the field and its `addDomElement`, sounds (`playSound`), and the status text (`setStatusText`). None of these affect game state.
- Keyboard wiring is not modelled: the `keydown` listener, the default button, and the mapping from key names to directions. A key is modelled directly as a `Direction`, and keys that map to no direction do nothing in the JavaScript game.
- `rndInt` uses `Math.random`, so its result is a parameter `draw`. `DrawInRange` states which draws it can return.
- The resigned status is left out. `GameStatus.Resigned` is read by `isGameDone`, and the status text reads a misspelled `GameStatus.Redigned` (javascript.js:304). Neither is ever assigned.
- Exceptions from `newGame` surface as `Result.Failure`, not as a message. `archiveGame` deletes the old game's board, cell list and actor position (javascript.js:188-190), and pushes the game only if it counted moves. Its `game = undefined` assigns its own parameter, so the global `game` keeps the stripped old object. When `getActorPosition` then throws, the JavaScript game is left with that stripped game, and its history may already hold it. The model keeps the old session unchanged instead. That state is unreachable for a validated catalog (`NewGameSucceeds`).
- Session.CheckCatalog: it validates each template with `SanityCheckTemplateIntended`, so a catalog holding a template with neither blocks nor targets is refused, where `sanityCheckTemplates` accepts it. `Session.CheckCatalogAsWritten` models the check as written, and `Session.CatalogChecksDiffer` relates the two.
- Session.NewGame: it validates with `SanityCheckTemplateIntended` rather than the check as written, for the reason given under Findings.
- Session.ArrowKey: without a game, `moveActor` in the JavaScript game throws a `TypeError` from the key handler. The model treats that key as changing nothing.
- JavaScript object key order is left out. The catalog is a sequence in declaration order, which is the order `Object.values` and `Object.keys` give for these keys.
- Templates.SanityCheckTemplate: JavaScript's `row.length` and `row[c]` count UTF-16 code units, while the model's `string` is a sequence of code points, as `[...row]` at javascript.js:202 splits it. The readings differ only for characters outside the Basic Multilingual Plane. Such a character is two code units in JavaScript: the row counts one column more, and `row[c]` yields a surrogate half, reported as an unknown character. In the model it is one character, reported as itself when the row lengths agree, and as a column-count or ragged-row error when they do not. The template is rejected either way, but the reported error can differ.
- Integer widths are left out. Move counters and indices are unbounded `nat`s, and JavaScript numbers do not wrap at these sizes.

## Findings

| source | as written | input that shows it | evidently intended | confidence | as-written member | corrected member |
|---|---|---|---|---|---|---|
| javascript.js:260 | `count[B] === 0` is never true. A code that never occurs has no entry in `count`, so its value is `undefined`, not 0 (Templates.TemplateCountEntries). A template with neither blocks nor targets therefore passes validation. | `EmptyRoom`: 6x6 floor, the actor in a corner, nothing else. The check accepts it, and the game would be won on the first key | reject templates without blocks and targets, as the function's own comment says (javascript.js:239) | not executed | Templates.SanityCheckTemplate, Templates.EmptyRoomAccepted, Session.CheckCatalogAsWritten | Templates.SanityCheckTemplateIntended (used by Session.CheckCatalog and Session.NewGame) |
