/** One game in progress: moving the actor, the win check with its status
    latch, and the move counter, in the order an arrow key runs them. */
module Gameplay {
  import opened Wrappers
  import opened SokobanBase
  import opened Board
  import opened Moves

  /** `GameStatus`. The JavaScript game also names a resigned status, but nothing
      ever assigns it, so a game is active until it is won. */
  datatype Status = Active | Success

  /** The live game: which template it came from, the board, where the
      actor stands, how many moves were counted, and its status. The flat
      `boardCells` list of the JavaScript game is `Flatten(board)`. */
  datatype Game = Game(index: nat, name: string, board: Grid, actorPosition: Pos, moves: nat, status: Status)

  /** The push budget `moveActor` passes to `moveItem`. */
  const MaxBlocks: nat := 3

  /** isGameDone. */
  predicate IsGameDone(g: Game) {
    g.status == Status.Success
  }

  /** What a running game keeps true: the recorded actor position is on
      the board, holds the actor, and the actor is the only one. */
  ghost predicate Valid(g: Game) {
    && InBounds(g.board, g.actorPosition)
    && ItemAt(g.board, g.actorPosition) == Actor
    && BoardCount(g.board, Actor) == 1
  }

  /** moveActor: a finished game does not move. Otherwise the actor pushes
      with a budget of `MaxBlocks`; on success its old tile is cleared and
      the recorded position moves one step, on refusal nothing changes
      (the JavaScript game only plays a beep). Counter and status are left to
      `UpdateGameStatus`. */
  function MoveActor(g: Game, d: Direction): (g': Game)
    requires InBounds(g.board, g.actorPosition)
    ensures g'.index == g.index && g'.name == g.name && g'.moves == g.moves && g'.status == g.status
    ensures IsGameDone(g) ==> g' == g
    ensures SameTerrain(g.board, g'.board)
    ensures InBounds(g'.board, g'.actorPosition)
  {
    if IsGameDone(g) then g
    else
      var here := g.actorPosition;
      match MoveItem(g.board, here, d, MaxBlocks)
      case None => g
      case Some(b1) =>
        g.(board := SetTile(b1, here, Empty), actorPosition := AddPos(g.board, here, d).value)
  }

  /** Tile `q` after the actor at `a` moved with a chain of `k` blocks: the
      actor's old tile is empty, the `k + 1` tiles ahead hold what the tile
      behind each held, every other tile is unchanged. */
  ghost predicate MovedCell(b: Grid, b': Grid, a: Pos, d: Direction, k: nat, q: Pos)
    requires InBounds(b, q) && InBounds(b', q)
  {
    if q == a then b'[q.r][q.c] == b[q.r][q.c].(item := Empty)
    else ShiftedCell(b, b', a, d, k, q)
  }

  /** The whole board after such a move. */
  ghost predicate MovedAlong(b: Grid, b': Grid, a: Pos, d: Direction, k: nat) {
    && SameTerrain(b, b')
    && forall r0, c0 {:trigger MovedCell(b, b', a, d, k, Pos(r0, c0))} | 0 <= r0 < |b| && 0 <= c0 < |b[r0]| ::
         MovedCell(b, b', a, d, k, Pos(r0, c0))
  }

  lemma MoveActorUnfold(g: Game, d: Direction)
    requires InBounds(g.board, g.actorPosition) && !IsGameDone(g)
    requires MoveItem(g.board, g.actorPosition, d, MaxBlocks).Some?
    ensures MoveActor(g, d).board == SetTile(MoveItem(g.board, g.actorPosition, d, MaxBlocks).value, g.actorPosition, Empty)
    ensures MoveActor(g, d).actorPosition == Step(g.actorPosition, d)
  {
  }

  /** Clearing the actor's old tile after the push, on the boards themselves. */
  lemma ClearOrigin(b: Grid, b1: Grid, a: Pos, d: Direction, k: nat)
    requires InBounds(b, a) && ShiftedAlong(b, b1, a, d, k)
    ensures MovedAlong(b, SetTile(b1, a, Empty), a, d, k)
  {
    var b': Grid := SetTile(b1, a, Empty);
    SameTerrainTransitive(b, b1, b');
    forall r0, c0 | 0 <= r0 < |b| && 0 <= c0 < |b[r0]|
      ensures MovedCell(b, b', a, d, k, Pos(r0, c0))
    {
      assert ShiftedCell(b, b1, a, d, k, Pos(r0, c0));
      LineStep(a, d, Pos(r0, c0));
    }
  }

  /** The tiles after a successful move, one by one. */
  lemma MoveActorCells(g: Game, d: Direction, k: nat)
    requires Valid(g) && !IsGameDone(g)
    requires ChainOk(g.board, g.actorPosition, d, k) && k <= MaxBlocks
    ensures MoveActor(g, d).actorPosition == Step(g.actorPosition, d)
    ensures MovedAlong(g.board, MoveActor(g, d).board, g.actorPosition, d, k)
  {
    MoveItemShifts(g.board, g.actorPosition, d, MaxBlocks, k);
    MoveActorUnfold(g, d);
    ClearOrigin(g.board, MoveItem(g.board, g.actorPosition, d, MaxBlocks).value, g.actorPosition, d, k);
  }

  /** A successful move changes no entity count: still one actor, as many
      blocks and walls as before. */
  lemma MoveActorCounts(g: Game, d: Direction, e: Entity)
    requires InBounds(g.board, g.actorPosition) && !IsGameDone(g)
    requires ItemAt(g.board, g.actorPosition) == Actor
    requires MoveItem(g.board, g.actorPosition, d, MaxBlocks).Some?
    ensures BoardCount(MoveActor(g, d).board, e) == BoardCount(g.board, e)
  {
    var a := g.actorPosition;
    MoveItemCounts(g.board, a, d, MaxBlocks, e);
    MoveItemKeepsStart(g.board, a, d, MaxBlocks);
    MoveActorUnfold(g, d);
    SetTileCount(MoveItem(g.board, a, d, MaxBlocks).value, a, Empty, e);
  }

  /** Where the actor goes: one step ahead, which `addPos` reports and the
      recorded position follows; the old tile is left empty. */
  lemma MoveActorPlaces(g: Game, d: Direction, k: nat)
    requires Valid(g) && !IsGameDone(g)
    requires ChainOk(g.board, g.actorPosition, d, k) && k <= MaxBlocks
    ensures AddPos(g.board, g.actorPosition, d) == Some(MoveActor(g, d).actorPosition)
    ensures MoveActor(g, d).actorPosition == Step(g.actorPosition, d)
    ensures ItemAt(MoveActor(g, d).board, g.actorPosition) == Empty
    ensures ItemAt(MoveActor(g, d).board, MoveActor(g, d).actorPosition) == Actor
  {
    var a := g.actorPosition;
    var g' := MoveActor(g, d);
    MoveActorCells(g, d, k);
    AheadStep(a, d, 1);
    LineStep(a, d, g'.actorPosition);
    assert MovedCell(g.board, g'.board, a, d, k, a);
    assert MovedCell(g.board, g'.board, a, d, k, g'.actorPosition);
  }

  /** One pushed block: the tile `i` steps ahead, for `2 <= i <= k + 1`,
      receives the block that stood one tile nearer. */
  lemma MovedCellPushed(b: Grid, b': Grid, a: Pos, d: Direction, k: nat, i: nat)
    requires 2 <= i <= k + 1
    requires BlocksThenEmpty(b, a, d, k) && SameTerrain(b, b')
    requires MovedCell(b, b', a, d, k, Ahead(a, d, i))
    ensures InBounds(b', Ahead(a, d, i)) && ItemAt(b', Ahead(a, d, i)) == Block
  {
    AheadStep(a, d, i);
    AheadStep(a, d, 0);
    assert ItemAt(b, Ahead(a, d, i - 1)) == Block;
  }

  /** The pushed chain on the boards themselves. */
  lemma MovedPushes(b: Grid, b': Grid, a: Pos, d: Direction, k: nat)
    requires BlocksThenEmpty(b, a, d, k) && MovedAlong(b, b', a, d, k)
    ensures forall i | 2 <= i <= k + 1 :: InBounds(b', Ahead(a, d, i)) && ItemAt(b', Ahead(a, d, i)) == Block
  {
    forall i | 2 <= i <= k + 1
      ensures InBounds(b', Ahead(a, d, i)) && ItemAt(b', Ahead(a, d, i)) == Block
    {
      var q := Ahead(a, d, i);
      assert InBounds(b, q);
      assert MovedCell(b, b', a, d, k, Pos(q.r, q.c));
      MovedCellPushed(b, b', a, d, k, i);
    }
  }

  /** Each pushed block stands one step further on: the chain that
      occupied the tiles 1..k ahead now occupies 2..k+1. */
  lemma MoveActorPushes(g: Game, d: Direction, k: nat)
    requires Valid(g) && !IsGameDone(g)
    requires ChainOk(g.board, g.actorPosition, d, k) && k <= MaxBlocks
    ensures forall i | 2 <= i <= k + 1 :: InBounds(MoveActor(g, d).board, Ahead(g.actorPosition, d, i))
                                         && ItemAt(MoveActor(g, d).board, Ahead(g.actorPosition, d, i)) == Block
  {
    MoveActorCells(g, d, k);
    ChainOkRay(g.board, g.actorPosition, d, k);
    MovedPushes(g.board, MoveActor(g, d).board, g.actorPosition, d, k);
  }

  /** One tile of a move: the actor's tile and the tiles of the chain hold
      no wall before or after, every other tile is unchanged. */
  lemma MovedCellWall(b: Grid, b': Grid, a: Pos, d: Direction, k: nat, q: Pos)
    requires InBounds(b, q) && InBounds(b', q) && InBounds(b, a) && ItemAt(b, a) == Actor
    requires BlocksThenEmpty(b, a, d, k)
    requires MovedCell(b, b', a, d, k, q)
    ensures (b'[q.r][q.c].item == Wall) == (b[q.r][q.c].item == Wall)
  {
    if q != a && OnLine(a, d, q) && 1 <= Dist(a, d, q) <= k + 1 {
      var j := Dist(a, d, q);
      LineStep(a, d, q);
      AheadStep(a, d, 0);
      if j <= k {
        assert ItemAt(b, Ahead(a, d, j)) == Block;
      }
      if 2 <= j {
        assert ItemAt(b, Ahead(a, d, j - 1)) == Block;
      }
    }
  }

  /** Walls on the boards themselves. */
  lemma MovedWalls(b: Grid, b': Grid, a: Pos, d: Direction, k: nat)
    requires InBounds(b, a) && ItemAt(b, a) == Actor
    requires BlocksThenEmpty(b, a, d, k) && MovedAlong(b, b', a, d, k)
    ensures forall r0, c0 | 0 <= r0 < |b| && 0 <= c0 < |b[r0]| :: (b'[r0][c0].item == Wall) == (b[r0][c0].item == Wall)
  {
    forall r0, c0 | 0 <= r0 < |b| && 0 <= c0 < |b[r0]|
      ensures (b'[r0][c0].item == Wall) == (b[r0][c0].item == Wall)
    {
      MovedCellWall(b, b', a, d, k, Pos(r0, c0));
    }
  }

  /** Walls never move: a tile holds a wall after the move exactly when it
      did before. */
  lemma MoveActorWalls(g: Game, d: Direction, k: nat)
    requires Valid(g) && !IsGameDone(g)
    requires ChainOk(g.board, g.actorPosition, d, k) && k <= MaxBlocks
    ensures forall r0, c0 | 0 <= r0 < |g.board| && 0 <= c0 < |g.board[r0]| ::
              (MoveActor(g, d).board[r0][c0].item == Wall) == (g.board[r0][c0].item == Wall)
  {
    MoveActorCells(g, d, k);
    ChainOkRay(g.board, g.actorPosition, d, k);
    MovedWalls(g.board, MoveActor(g, d).board, g.actorPosition, d, k);
  }

  /** After a successful move with a chain of `k` blocks: the actor stands
      one step ahead, no entity count changed, the static layer is
      untouched, and the game is still valid. */
  lemma MoveActorSucceeds(g: Game, d: Direction, k: nat)
    requires Valid(g) && !IsGameDone(g)
    requires ChainOk(g.board, g.actorPosition, d, k) && k <= MaxBlocks
    ensures MoveActor(g, d).actorPosition == Step(g.actorPosition, d)
    ensures forall e :: BoardCount(MoveActor(g, d).board, e) == BoardCount(g.board, e)
    ensures SameTerrain(g.board, MoveActor(g, d).board)
    ensures Valid(MoveActor(g, d))
  {
    MoveActorPlaces(g, d, k);
    MoveItemChain(g.board, g.actorPosition, d, MaxBlocks);
    MoveItemRefused(g.board, g.actorPosition, d, MaxBlocks);
    forall e
      ensures BoardCount(MoveActor(g, d).board, e) == BoardCount(g.board, e)
    {
      MoveActorCounts(g, d, e);
    }
  }

  /** A refused move, or any move in a finished game, changes nothing. */
  lemma MoveActorRefused(g: Game, d: Direction)
    requires InBounds(g.board, g.actorPosition)
    ensures MoveActor(g, d) == g
            <==> IsGameDone(g) || forall k | 0 <= k <= MaxBlocks :: !ChainOk(g.board, g.actorPosition, d, k)
  {
    MoveItemRefused(g.board, g.actorPosition, d, MaxBlocks);
    if !IsGameDone(g) && MoveItem(g.board, g.actorPosition, d, MaxBlocks).Some? {
      MoveActorUnfold(g, d);
      AheadStep(g.actorPosition, d, 1);
      assert MoveActor(g, d).actorPosition != g.actorPosition;
    }
  }

  /** Every move keeps a game valid. */
  lemma MoveActorValid(g: Game, d: Direction)
    requires Valid(g)
    ensures Valid(MoveActor(g, d))
  {
    if !IsGameDone(g) && MoveItem(g.board, g.actorPosition, d, MaxBlocks).Some? {
      MoveItemChain(g.board, g.actorPosition, d, MaxBlocks);
      var k :| 0 <= k <= MaxBlocks && ChainOk(g.board, g.actorPosition, d, k);
      MoveActorSucceeds(g, d, k);
    }
  }

  /** The budget boundary: three blocks in a row followed by an empty tile
      are all pushed one step. */
  lemma ThreeBlocksPushed(g: Game, d: Direction)
    requires Valid(g) && !IsGameDone(g)
    requires forall i | 1 <= i <= 3 :: InBounds(g.board, Ahead(g.actorPosition, d, i))
                                     && ItemAt(g.board, Ahead(g.actorPosition, d, i)) == Block
    requires InBounds(g.board, Ahead(g.actorPosition, d, 4)) && ItemAt(g.board, Ahead(g.actorPosition, d, 4)) == Empty
    ensures var g' := MoveActor(g, d);
      && g'.actorPosition == Step(g.actorPosition, d)
      && ItemAt(g'.board, g.actorPosition) == Empty
      && (forall i | 2 <= i <= 4 :: InBounds(g'.board, Ahead(g.actorPosition, d, i))
                                    && ItemAt(g'.board, Ahead(g.actorPosition, d, i)) == Block)
  {
    assert BlocksThenEmpty(g.board, g.actorPosition, d, 3);
    ChainOkRay(g.board, g.actorPosition, d, 3);
    MoveActorPlaces(g, d, 3);
    MoveActorPushes(g, d, 3);
  }

  /** The budget boundary: four blocks in a row are too many, and nothing
      moves. */
  lemma FourBlocksRefused(g: Game, d: Direction)
    requires InBounds(g.board, g.actorPosition)
    requires forall i | 1 <= i <= 4 :: InBounds(g.board, Ahead(g.actorPosition, d, i))
                                     && ItemAt(g.board, Ahead(g.actorPosition, d, i)) == Block
    ensures MoveActor(g, d) == g
  {
    BudgetExceeded(g.board, g.actorPosition, d, MaxBlocks);
  }

  // ---------------------------------------------------------------------
  // The win check

  /** A tile is settled when it holds a block exactly if it is a target. */
  predicate Settled(cell: Cell) {
    (cell.item == Block) == (cell.floor == Target)
  }

  /** Every cell of the list is settled. */
  predicate Solved(cells: seq<Cell>) {
    forall i | 0 <= i < |cells| :: Settled(cells[i])
  }

  /** The scan of `updateGameStatus` over `boardCells`: start from success
      and drop it at the first unsettled cell. */
  method ScanSuccess(cells: seq<Cell>) returns (success: bool)
    ensures success == Solved(cells)
  {
    success := true;
    var n := 0;
    while n < |cells|
      invariant n <= |cells|
      invariant success <==> forall i | 0 <= i < n :: Settled(cells[i])
    {
      if (cells[n].item == Block) != (cells[n].floor == Target) {
        success := false;
      }
      n := n + 1;
    }
  }

  /** The game is won exactly when every tile of the board holds a block if
      and only if it is a target: a stray block and an uncovered target both
      mean not yet. */
  lemma SolvedGrid(b: Grid)
    ensures Solved(Flatten(b))
            <==> forall r, c | 0 <= r < |b| && 0 <= c < |b[r]| :: (b[r][c].item == Block) == (b[r][c].floor == Target)
  {
    if Solved(Flatten(b)) {
      forall r, c | 0 <= r < |b| && 0 <= c < |b[r]|
        ensures Settled(b[r][c])
      {
        var cells := Flatten(b);
        assert b[r][c] in cells;
        var i :| 0 <= i < |cells| && cells[i] == b[r][c];
      }
    } else {
      var cells := Flatten(b);
      var i :| 0 <= i < |cells| && !Settled(cells[i]);
      assert cells[i] in cells;
      var r, c :| 0 <= r < |b| && 0 <= c < |b[r]| && b[r][c] == cells[i];
    }
  }

  /** updateGameStatus: count the attempt when asked, then latch success
      the first time the board is solved. A finished game keeps its
      status. */
  function UpdateGameStatus(g: Game, addMoves: bool): (g': Game)
    ensures g'.moves == g.moves + Indicator(addMoves)
    ensures IsGameDone(g') <==> IsGameDone(g) || Solved(Flatten(g.board))
    ensures IsGameDone(g) ==> g'.status == g.status
    ensures g'.board == g.board && g'.actorPosition == g.actorPosition
    ensures g'.index == g.index && g'.name == g.name
  {
    var moves := if addMoves then g.moves + 1 else g.moves;
    var success := Solved(Flatten(g.board));
    g.(moves := moves, status := if success && !IsGameDone(g) then Status.Success else g.status)
  }

  /** handleArrowKey with a game present: move, then update the status,
      counting the attempt when the game is not finished. Every attempt in
      a running game counts, refused or winning; a finished game is frozen. */
  function HandleArrowKey(g: Game, d: Direction): (g': Game)
    requires InBounds(g.board, g.actorPosition)
    ensures g'.moves == g.moves + (if IsGameDone(g) then 0 else 1)
    ensures IsGameDone(g) ==> g' == g
    ensures g'.board == MoveActor(g, d).board && g'.actorPosition == MoveActor(g, d).actorPosition
    ensures g'.index == g.index && g'.name == g.name
    ensures IsGameDone(g') <==> IsGameDone(g) || Solved(Flatten(g'.board))
    ensures SameTerrain(g.board, g'.board)
    ensures InBounds(g'.board, g'.actorPosition)
  {
    var g1 := MoveActor(g, d);
    UpdateGameStatus(g1, !IsGameDone(g1))
  }

  /** Every key keeps a game valid. */
  lemma HandleArrowKeyValid(g: Game, d: Direction)
    requires Valid(g)
    ensures Valid(HandleArrowKey(g, d))
  {
    MoveActorValid(g, d);
  }

  /** A sequence of arrow keys. */
  function Play(g: Game, ds: seq<Direction>): (g': Game)
    requires Valid(g)
    ensures Valid(g')
    decreases |ds|
  {
    if |ds| == 0 then g
    else
      HandleArrowKeyValid(g, ds[0]);
      Play(HandleArrowKey(g, ds[0]), ds[1..])
  }

  /** Success latches: a finished game ignores every further key. */
  lemma {:induction false} PlayLatched(g: Game, ds: seq<Direction>)
    requires Valid(g) && IsGameDone(g)
    ensures Play(g, ds) == g
    decreases |ds|
  {
    if |ds| > 0 {
      PlayLatched(HandleArrowKey(g, ds[0]), ds[1..]);
    }
  }

  /** The counter rises by one per key while the game runs and never after:
      a game still running has counted every key, and in any case no more
      keys than were pressed. Once won, it stays won. */
  lemma {:induction false} PlayCounts(g: Game, ds: seq<Direction>)
    requires Valid(g)
    ensures Play(g, ds).moves <= g.moves + |ds|
    ensures !IsGameDone(Play(g, ds)) ==> Play(g, ds).moves == g.moves + |ds|
    ensures IsGameDone(g) ==> IsGameDone(Play(g, ds))
    decreases |ds|
  {
    if |ds| > 0 {
      var g1 := HandleArrowKey(g, ds[0]);
      HandleArrowKeyValid(g, ds[0]);
      PlayCounts(g1, ds[1..]);
      if IsGameDone(g1) {
        PlayLatched(g1, ds[1..]);
      }
    }
  }

  /** Terrain never changes during play. */
  lemma {:induction false} PlayKeepsTerrain(g: Game, ds: seq<Direction>)
    requires Valid(g)
    ensures SameTerrain(g.board, Play(g, ds).board)
    decreases |ds|
  {
    if |ds| > 0 {
      var g1 := HandleArrowKey(g, ds[0]);
      HandleArrowKeyValid(g, ds[0]);
      PlayKeepsTerrain(g1, ds[1..]);
      SameTerrainTransitive(g.board, g1.board, Play(g1, ds[1..]).board);
    }
  }
}
