/** The board: a grid of tiles, each holding a static layer, an entity
    layer and its own row/column indices; the position arithmetic; the one
    write the game ever makes; the flattened cell list; and building a
    board from a converted template. */
module Board {
  import opened Wrappers
  import opened SokobanBase

  datatype Pos = Pos(r: int, c: int)

  /** One tile: `fieldItem2d`, `fieldItem3d`, `r`, `c`. */
  datatype Cell = Cell(floor: Terrain, item: Entity, r: int, c: int)

  type Grid = seq<seq<Cell>>

  predicate InBounds(b: Grid, p: Pos) {
    0 <= p.r < |b| && 0 <= p.c < |b[p.r]|
  }

  function ItemAt(b: Grid, p: Pos): Entity
    requires InBounds(b, p)
  {
    b[p.r][p.c].item
  }

  /** The position one step from `p`, ignoring the board edge. */
  function Step(p: Pos, d: Direction): Pos {
    var delta := Diff(d);
    Pos(p.r + delta.dr, p.c + delta.dc)
  }

  /** addPos: the neighbour of `p` in direction `d`, or `None` when it
      would fall off the board (no wrap-around). A returned position is on
      the board and one unit away from `p`. */
  function AddPos(b: Grid, p: Pos, d: Direction): (q: Option<Pos>)
    ensures q.Some? ==> InBounds(b, q.value)
    ensures q.Some? ==> q.value == Step(p, d)
    ensures q.Some? ==> (if q.value.r == p.r then q.value.c - p.c else q.value.r - p.r) in {-1, 1}
    ensures q.None? <==> !InBounds(b, Step(p, d))
  {
    var np := Step(p, d);
    if !(0 <= np.r < |b|) then None
    else if !(0 <= np.c < |b[np.r]|) then None
    else Some(np)
  }

  /** objGet: the entity at a position, `None` for an absent position. */
  function ObjGet(b: Grid, p: Option<Pos>): (e: Option<Entity>)
    requires p.Some? ==> InBounds(b, p.value)
    ensures e.Some? <==> p.Some?
    ensures e.Some? ==> e.value == b[p.value.r][p.value.c].item
  {
    match p
    case None => None
    case Some(q) => Some(ItemAt(b, q))
  }

  /** Two boards with the same shape whose static layers and indices agree
      everywhere: only entities may differ. */
  ghost predicate SameTerrain(b: Grid, b': Grid) {
    && |b'| == |b|
    && (forall r | 0 <= r < |b| :: |b'[r]| == |b[r]|)
    && (forall r, c | 0 <= r < |b| && 0 <= c < |b[r]| ::
          b'[r][c].floor == b[r][c].floor && b'[r][c].r == b[r][c].r && b'[r][c].c == b[r][c].c)
  }

  lemma SameTerrainTransitive(b0: Grid, b1: Grid, b2: Grid)
    requires SameTerrain(b0, b1) && SameTerrain(b1, b2)
    ensures SameTerrain(b0, b2)
  {
  }

  /** setTileState: the only write of the game, `cell.fieldItem3d = item`.
      The tile at `p` gets entity `x`; its static layer, its indices and
      every other tile are kept. */
  function SetTile(b: Grid, p: Pos, x: Entity): (b': Grid)
    requires InBounds(b, p)
    ensures SameTerrain(b, b')
    ensures b'[p.r][p.c].item == x
    ensures forall r, c | 0 <= r < |b| && 0 <= c < |b[r]| && (r != p.r || c != p.c) ::
              b'[r][c] == b[r][c]
  {
    b[p.r := b[p.r][p.c := b[p.r][p.c].(item := x)]]
  }

  /** Every tile carries its own row and column index. */
  ghost predicate Indexed(b: Grid) {
    forall r, c | 0 <= r < |b| && 0 <= c < |b[r]| :: b[r][c].r == r && b[r][c].c == c
  }

  // ---------------------------------------------------------------------
  // Counting and the flattened cell list (`boardCells`)

  /** The number of cells of `cells` holding entity `e`. */
  function CountItems(cells: seq<Cell>, e: Entity): nat {
    if |cells| == 0 then 0
    else (if cells[0].item == e then 1 else 0) + CountItems(cells[1..], e)
  }

  /** The number of tiles of the board holding entity `e`, row by row. */
  function BoardCount(b: Grid, e: Entity): nat {
    if |b| == 0 then 0
    else CountItems(b[0], e) + BoardCount(b[1..], e)
  }

  /** The number of target tiles in `cells`. */
  function CountTargets(cells: seq<Cell>): nat {
    if |cells| == 0 then 0
    else (if cells[0].floor == Target then 1 else 0) + CountTargets(cells[1..])
  }

  function BoardTargets(b: Grid): nat {
    if |b| == 0 then 0
    else CountTargets(b[0]) + BoardTargets(b[1..])
  }

  function Indicator(cond: bool): nat {
    if cond then 1 else 0
  }

  lemma {:induction false} CountItemsUpdate(cells: seq<Cell>, i: nat, x: Cell, e: Entity)
    requires i < |cells|
    ensures CountItems(cells[i := x], e)
            == CountItems(cells, e) - Indicator(cells[i].item == e) + Indicator(x.item == e)
    decreases |cells|
  {
    if i > 0 {
      CountItemsUpdate(cells[1..], i - 1, x, e);
      assert cells[i := x][1..] == cells[1..][i - 1 := x];
    }
  }

  lemma {:induction false} BoardCountUpdate(b: Grid, i: nat, row: seq<Cell>, e: Entity)
    requires i < |b|
    ensures BoardCount(b[i := row], e) == BoardCount(b, e) - CountItems(b[i], e) + CountItems(row, e)
    decreases |b|
  {
    if i > 0 {
      BoardCountUpdate(b[1..], i - 1, row, e);
      assert b[i := row][1..] == b[1..][i - 1 := row];
    }
  }

  /** Writing entity `x` at `p` removes one `b[p]` entity and adds one `x`. */
  lemma SetTileCount(b: Grid, p: Pos, x: Entity, e: Entity)
    requires InBounds(b, p)
    ensures BoardCount(SetTile(b, p, x), e)
            == BoardCount(b, e) - Indicator(ItemAt(b, p) == e) + Indicator(x == e)
  {
    CountItemsUpdate(b[p.r], p.c, b[p.r][p.c].(item := x), e);
    BoardCountUpdate(b, p.r, b[p.r][p.c := b[p.r][p.c].(item := x)], e);
  }

  /** flatArray: all rows concatenated, so `boardCells` holds exactly the
      tiles of the board. */
  function Flatten(b: Grid): (cells: seq<Cell>)
    ensures forall r, c | 0 <= r < |b| && 0 <= c < |b[r]| :: b[r][c] in cells
    ensures forall x | x in cells :: exists r, c :: 0 <= r < |b| && 0 <= c < |b[r]| && b[r][c] == x
    decreases |b|
  {
    if |b| == 0 then []
    else
      var rest := Flatten(b[1..]);
      ConcatMembers(b, rest);
      b[0] + rest
  }

  /** One step of `Flatten`: the first row in front of the flattened rest. */
  lemma ConcatMembers(b: Grid, rest: seq<Cell>)
    requires |b| > 0
    requires forall r, c | 0 <= r < |b[1..]| && 0 <= c < |b[1..][r]| :: b[1..][r][c] in rest
    requires forall x | x in rest :: exists r, c :: 0 <= r < |b[1..]| && 0 <= c < |b[1..][r]| && b[1..][r][c] == x
    ensures forall r, c | 0 <= r < |b| && 0 <= c < |b[r]| :: b[r][c] in b[0] + rest
    ensures forall x | x in b[0] + rest :: exists r, c :: 0 <= r < |b| && 0 <= c < |b[r]| && b[r][c] == x
  {
    forall x | x in b[0] + rest
      ensures exists r, c :: 0 <= r < |b| && 0 <= c < |b[r]| && b[r][c] == x
    {
      if x in b[0] {
        var c :| 0 <= c < |b[0]| && b[0][c] == x;
        assert b[0][c] == x;
      } else {
        assert x in rest;
        var r, c :| 0 <= r < |b[1..]| && 0 <= c < |b[1..][r]| && b[1..][r][c] == x;
        assert b[r + 1][c] == x;
      }
    }
    forall r, c | 0 <= r < |b| && 0 <= c < |b[r]|
      ensures b[r][c] in b[0] + rest
    {
      if r > 0 {
        assert b[r][c] == b[1..][r - 1][c];
      }
    }
  }

  lemma {:induction false} CountItemsAppend(xs: seq<Cell>, ys: seq<Cell>, e: Entity)
    ensures CountItems(xs + ys, e) == CountItems(xs, e) + CountItems(ys, e)
    decreases |xs|
  {
    if |xs| == 0 {
      assert xs + ys == ys;
    } else {
      CountItemsAppend(xs[1..], ys, e);
      assert (xs + ys)[1..] == xs[1..] + ys;
    }
  }

  lemma {:induction false} CountTargetsAppend(xs: seq<Cell>, ys: seq<Cell>)
    ensures CountTargets(xs + ys) == CountTargets(xs) + CountTargets(ys)
    decreases |xs|
  {
    if |xs| == 0 {
      assert xs + ys == ys;
    } else {
      CountTargetsAppend(xs[1..], ys);
      assert (xs + ys)[1..] == xs[1..] + ys;
    }
  }

  /** Counting over `boardCells` agrees with counting the board row by row. */
  lemma {:induction false} FlattenCount(b: Grid, e: Entity)
    ensures CountItems(Flatten(b), e) == BoardCount(b, e)
    ensures CountTargets(Flatten(b)) == BoardTargets(b)
    decreases |b|
  {
    if |b| > 0 {
      FlattenCount(b[1..], e);
      CountItemsAppend(b[0], Flatten(b[1..]), e);
      CountTargetsAppend(b[0], Flatten(b[1..]));
    }
  }

  // ---------------------------------------------------------------------
  // Building a board from a template

  /** How a tile shows its element code: a target code is the only one
      that marks the static layer, and each of the wall, block and actor
      codes is the only one that puts its entity on the tile. */
  ghost predicate Encodes(cell: Cell, code: Option<Code>) {
    && (cell.floor == Target <==> code == Some(TargetCode))
    && (cell.item == Wall <==> code == Some(WallCode))
    && (cell.item == Block <==> code == Some(BlockCode))
    && (cell.item == Actor <==> code == Some(ActorCode))
  }

  /** One tile of `boardFromTemplate`: a target code goes to the static
      layer, wall/block/actor codes go to the entity layer, anything else
      (the empty code or an unmapped character) leaves both layers empty. */
  function MakeCell(code: Option<Code>, r: int, c: int): (cell: Cell)
    ensures cell.r == r && cell.c == c
    ensures Encodes(cell, code)
    ensures code !in {Some(TargetCode), Some(WallCode), Some(BlockCode), Some(ActorCode)}
            ==> cell == Cell(Plain, Empty, r, c)
  {
    Cell(if code == Some(TargetCode) then Target else Plain,
         match code
         case Some(WallCode) => Wall
         case Some(BlockCode) => Block
         case Some(ActorCode) => Actor
         case _ => Empty,
         r, c)
  }

  /** The element codes of a template, `Char2Code` applied to every
      character (`undefined` kept as `None`). */
  function ConvertTemplate(rows: seq<string>): (codes: seq<seq<Option<Code>>>)
    ensures |codes| == |rows|
    ensures forall r | 0 <= r < |rows| :: |codes[r]| == |rows[r]|
    ensures forall r, c | 0 <= r < |rows| && 0 <= c < |rows[r]| :: codes[r][c] == Char2Code(rows[r][c])
  {
    seq(|rows|, r requires 0 <= r < |rows| =>
      seq(|rows[r]|, c requires 0 <= c < |rows[r]| => Char2Code(rows[r][c])))
  }

  /** boardFromTemplate: keeps the template's dimensions, gives each tile
      its own indices, and never puts an entity on a target, since no code
      stands for both. */
  function BoardFromTemplate(codes: seq<seq<Option<Code>>>): (b: Grid)
    ensures |b| == |codes|
    ensures forall r | 0 <= r < |codes| :: |b[r]| == |codes[r]|
    ensures Indexed(b)
    ensures forall r, c | 0 <= r < |b| && 0 <= c < |b[r]| :: Encodes(b[r][c], codes[r][c])
    ensures forall r, c | 0 <= r < |b| && 0 <= c < |b[r]| ::
              b[r][c].floor == Target ==> b[r][c].item == Empty
  {
    seq(|codes|, r requires 0 <= r < |codes| =>
      seq(|codes[r]|, c requires 0 <= c < |codes[r]| => MakeCell(codes[r][c], r, c)))
  }

  /** The cells of `cells` that hold the actor, in order. */
  function ActorCells(cells: seq<Cell>): (actors: seq<Cell>)
    ensures |actors| == CountItems(cells, Actor)
    ensures forall i | 0 <= i < |actors| :: actors[i].item == Actor && actors[i] in cells
  {
    if |cells| == 0 then []
    else if cells[0].item == Actor then [cells[0]] + ActorCells(cells[1..])
    else ActorCells(cells[1..])
  }

  /** getActorPosition: succeeds exactly when one cell holds the actor, and
      then returns that cell's indices. */
  function GetActorPosition(cells: seq<Cell>): (r: Result<Pos, GameError>)
    ensures r.Success? <==> CountItems(cells, Actor) == 1
    ensures r.Failure? ==> r.error == BoardActorCount
    ensures r.Success? ==> exists x | x in cells :: x.item == Actor && Pos(x.r, x.c) == r.value
  {
    var actors := ActorCells(cells);
    if |actors| != 1 then Failure(BoardActorCount)
    else Success(Pos(actors[0].r, actors[0].c))
  }

  /** On an indexed board, the position `GetActorPosition` finds is a board
      position holding the actor, and it is the only actor. */
  lemma ActorPositionOnBoard(b: Grid)
    requires Indexed(b)
    requires GetActorPosition(Flatten(b)).Success?
    ensures InBounds(b, GetActorPosition(Flatten(b)).value)
    ensures ItemAt(b, GetActorPosition(Flatten(b)).value) == Actor
    ensures BoardCount(b, Actor) == 1
  {
    FlattenCount(b, Actor);
    var p := GetActorPosition(Flatten(b)).value;
    var x :| x in Flatten(b) && x.item == Actor && Pos(x.r, x.c) == p;
    var r, c :| 0 <= r < |b| && 0 <= c < |b[r]| && b[r][c] == x;
  }
}
