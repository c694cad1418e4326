/** Move resolution: the bounded recursive push `moveItem`, and an
    independent description of it as a walk along the push chain. */
module Moves {
  import opened Wrappers
  import opened SokobanBase
  import opened Board

  // ---------------------------------------------------------------------
  // Geometry of a ray: the tiles lying straight ahead of a position

  /** The position `i` steps from `p` in direction `d`. */
  function Ahead(p: Pos, d: Direction, i: int): Pos {
    match d
    case Up => Pos(p.r - i, p.c)
    case Down => Pos(p.r + i, p.c)
    case Left => Pos(p.r, p.c - i)
    case Right => Pos(p.r, p.c + i)
  }

  /** `q` lies on the line through `p` along direction `d`. */
  predicate OnLine(p: Pos, d: Direction, q: Pos) {
    match d
    case Up => q.c == p.c
    case Down => q.c == p.c
    case Left => q.r == p.r
    case Right => q.r == p.r
  }

  /** How many steps in direction `d` lead from `p` to `q` (negative when
      `q` lies behind `p`); meaningful when `OnLine(p, d, q)`. */
  function Dist(p: Pos, d: Direction, q: Pos): int {
    match d
    case Up => p.r - q.r
    case Down => q.r - p.r
    case Left => p.c - q.c
    case Right => q.c - p.c
  }

  lemma AheadStep(p: Pos, d: Direction, i: int)
    ensures Ahead(p, d, 1) == Step(p, d)
    ensures Ahead(p, d, 0) == p
    ensures Ahead(Step(p, d), d, i) == Ahead(p, d, i + 1)
    ensures OnLine(p, d, Ahead(p, d, i)) && Dist(p, d, Ahead(p, d, i)) == i
  {
  }

  lemma LineStep(p: Pos, d: Direction, q: Pos)
    ensures OnLine(Step(p, d), d, q) == OnLine(p, d, q)
    ensures Dist(Step(p, d), d, q) == Dist(p, d, q) - 1
    ensures OnLine(p, d, q) ==> q == Ahead(p, d, Dist(p, d, q))
  {
  }

  // ---------------------------------------------------------------------
  // moveItem

  /** moveItem: push whatever stands at `p` one step in direction `d`.
      A wall, the actor or the board edge ahead refuses the move; an empty
      tile ahead takes the entity; a block ahead is pushed first, by a
      recursive call with one unit less of budget, and a block met with no
      budget left refuses. All writes happen after the recursive call
      succeeded, so a refusal (`None`) writes nothing. A successful push
      changes entities only: the static layer and the indices are kept. */
  function MoveItem(b: Grid, p: Pos, d: Direction, maxBlocks: nat): (r: Option<Grid>)
    requires InBounds(b, p)
    ensures AddPos(b, p, d).None? ==> r.None?
    ensures AddPos(b, p, d).Some? && ItemAt(b, AddPos(b, p, d).value) in {Wall, Actor} ==> r.None?
    ensures r.Some? ==> SameTerrain(b, r.value)
    decreases maxBlocks
  {
    var next := AddPos(b, p, d);
    var thisState := ItemAt(b, p);
    match ObjGet(b, next)
    case None => None
    case Some(nextState) =>
      if nextState == Actor || nextState == Wall then None
      else if nextState == Empty then Some(SetTile(b, next.value, thisState))
      else if maxBlocks == 0 then None
      else
        match MoveItem(b, next.value, d, maxBlocks - 1)
        case None => None
        case Some(b1) => Some(SetTile(b1, next.value, thisState))
  }

  /** moveItem succeeds only onto a board tile that is empty, or that holds
      a block which was itself pushed with one unit less of budget. */
  lemma MoveItemCases(b: Grid, p: Pos, d: Direction, m: nat)
    requires InBounds(b, p)
    requires MoveItem(b, p, d, m).Some?
    ensures InBounds(b, Step(p, d))
    ensures ItemAt(b, Step(p, d)) == Empty
            || (ItemAt(b, Step(p, d)) == Block && m > 0 && MoveItem(b, Step(p, d), d, m - 1).Some?)
  {
  }

  /** moveItem onto an empty tile. */
  lemma MoveItemUnfoldEmpty(b: Grid, p: Pos, d: Direction, m: nat)
    requires InBounds(b, p) && InBounds(b, Step(p, d))
    requires ItemAt(b, Step(p, d)) == Empty
    ensures MoveItem(b, p, d, m) == Some(SetTile(b, Step(p, d), ItemAt(b, p)))
  {
  }

  /** moveItem onto a block whose own push succeeds. */
  lemma MoveItemUnfoldBlock(b: Grid, p: Pos, d: Direction, m: nat)
    requires InBounds(b, p) && InBounds(b, Step(p, d))
    requires ItemAt(b, Step(p, d)) == Block && m > 0
    requires MoveItem(b, Step(p, d), d, m - 1).Some?
    ensures MoveItem(b, p, d, m)
            == Some(SetTile(MoveItem(b, Step(p, d), d, m - 1).value, Step(p, d), ItemAt(b, p)))
  {
  }

  // ---------------------------------------------------------------------
  // The push chain, read off the board

  /** A push of `k` blocks is possible from `p`: the tile ahead is on the
      board and is empty (`k == 0`) or holds a block from which a push of
      `k - 1` blocks is possible. */
  ghost predicate ChainOk(b: Grid, p: Pos, d: Direction, k: nat)
    decreases k
  {
    var np := Step(p, d);
    && InBounds(b, np)
    && if k == 0 then ItemAt(b, np) == Empty
       else ItemAt(b, np) == Block && ChainOk(b, np, d, k - 1)
  }

  /** The same chain as a picture of the ray ahead of `p`: `k` blocks on
      the board, then an empty tile. */
  ghost predicate BlocksThenEmpty(b: Grid, p: Pos, d: Direction, k: nat) {
    && (forall i | 1 <= i <= k :: InBounds(b, Ahead(p, d, i)) && ItemAt(b, Ahead(p, d, i)) == Block)
    && InBounds(b, Ahead(p, d, k + 1))
    && ItemAt(b, Ahead(p, d, k + 1)) == Empty
  }

  lemma {:induction false} ChainOkRay(b: Grid, p: Pos, d: Direction, k: nat)
    ensures ChainOk(b, p, d, k) <==> BlocksThenEmpty(b, p, d, k)
    decreases k
  {
    var np := Step(p, d);
    AheadStep(p, d, 1);
    AheadStep(p, d, k);
    if k > 0 {
      ChainOkRay(b, np, d, k - 1);
      if BlocksThenEmpty(b, p, d, k) {
        forall i | 1 <= i <= k - 1
          ensures InBounds(b, Ahead(np, d, i)) && ItemAt(b, Ahead(np, d, i)) == Block
        {
          AheadStep(p, d, i);
        }
        assert BlocksThenEmpty(b, np, d, k - 1);
      }
      if ChainOk(b, p, d, k) {
        forall i | 1 <= i <= k
          ensures InBounds(b, Ahead(p, d, i)) && ItemAt(b, Ahead(p, d, i)) == Block
        {
          if i > 1 {
            AheadStep(p, d, i - 1);
          }
        }
      }
    }
  }

  /** At most one chain length fits a board. */
  lemma {:induction false} ChainUnique(b: Grid, p: Pos, d: Direction, k1: nat, k2: nat)
    requires ChainOk(b, p, d, k1) && ChainOk(b, p, d, k2)
    ensures k1 == k2
    decreases k1
  {
    if k1 > 0 && k2 > 0 {
      ChainUnique(b, Step(p, d), d, k1 - 1, k2 - 1);
    }
  }

  /** Tile `q` after a shift of `k` blocks from `p`: the tiles 1..k+1 ahead
      of `p` hold what the tile one step behind them held; every other tile
      is as it was. */
  ghost predicate ShiftedCell(b: Grid, b': Grid, p: Pos, d: Direction, k: nat, q: Pos)
    requires InBounds(b, q) && InBounds(b', q)
  {
    if OnLine(p, d, q) && 1 <= Dist(p, d, q) <= k + 1 then
      var src := Ahead(p, d, Dist(p, d, q) - 1);
      InBounds(b, src) && b'[q.r][q.c] == b[q.r][q.c].(item := ItemAt(b, src))
    else
      b'[q.r][q.c] == b[q.r][q.c]
  }

  ghost predicate ShiftedAlong(b: Grid, b': Grid, p: Pos, d: Direction, k: nat) {
    && SameTerrain(b, b')
    && forall r0, c0 {:trigger ShiftedCell(b, b', p, d, k, Pos(r0, c0))} | 0 <= r0 < |b| && 0 <= c0 < |b[r0]| ::
         ShiftedCell(b, b', p, d, k, Pos(r0, c0))
  }

  /** The last link of a chain: the entity at `p` moves onto the empty
      tile ahead. */
  lemma ShiftIntoEmpty(b: Grid, p: Pos, d: Direction, m: nat)
    requires InBounds(b, p)
    requires ChainOk(b, p, d, 0)
    ensures MoveItem(b, p, d, m).Some?
    ensures ShiftedAlong(b, MoveItem(b, p, d, m).value, p, d, 0)
  {
    var np := Step(p, d);
    AheadStep(p, d, 0);
    MoveItemUnfoldEmpty(b, p, d, m);
    var b' := SetTile(b, np, ItemAt(b, p));
    forall r0, c0 | 0 <= r0 < |b| && 0 <= c0 < |b[r0]|
      ensures ShiftedCell(b, b', p, d, 0, Pos(r0, c0))
    {
      LineStep(p, d, Pos(r0, c0));
    }
  }

  /** One tile after pushing the chain behind a block: if the push from the
      block shifted tile `q` correctly, writing the entity from `p` onto the
      block's tile shifts `q` correctly for the longer chain. */
  lemma ShiftCellStep(b: Grid, b1: Grid, p: Pos, d: Direction, k: nat, q: Pos)
    requires InBounds(b, p) && InBounds(b, Step(p, d)) && InBounds(b, q)
    requires k >= 1
    requires SameTerrain(b, b1)
    requires ShiftedCell(b, b1, Step(p, d), d, k - 1, q)
    ensures ShiftedCell(b, SetTile(b1, Step(p, d), ItemAt(b, p)), p, d, k, q)
  {
    var np := Step(p, d);
    LineStep(p, d, q);
    AheadStep(p, d, 0);
    AheadStep(p, d, 1);
    if q != np && OnLine(p, d, q) && 2 <= Dist(p, d, q) <= k + 1 {
      AheadStep(p, d, Dist(np, d, q) - 1);
    }
  }

  /** A chain of `k` blocks within the budget is pushed: every entity on the
      chain, and the one at `p`, moves one step ahead, and nothing else
      changes. */
  lemma {:induction false} MoveItemShifts(b: Grid, p: Pos, d: Direction, m: nat, k: nat)
    requires InBounds(b, p)
    requires ChainOk(b, p, d, k) && k <= m
    ensures MoveItem(b, p, d, m).Some?
    ensures ShiftedAlong(b, MoveItem(b, p, d, m).value, p, d, k)
    decreases k, 1
  {
    if k == 0 {
      ShiftIntoEmpty(b, p, d, m);
    } else {
      ShiftBehindBlock(b, p, d, m, k);
    }
  }

  /** The inductive step of `MoveItemShifts`: pushing the block ahead
      shifts its own chain, and writing the entity of `p` onto the block's
      tile then shifts the chain from `p`. */
  lemma {:induction false} ShiftBehindBlock(b: Grid, p: Pos, d: Direction, m: nat, k: nat)
    requires InBounds(b, p)
    requires ChainOk(b, p, d, k) && 1 <= k <= m
    ensures MoveItem(b, p, d, m).Some?
    ensures ShiftedAlong(b, MoveItem(b, p, d, m).value, p, d, k)
    decreases k, 0
  {
    var np := Step(p, d);
    MoveItemShifts(b, np, d, m - 1, k - 1);
    var b1 := MoveItem(b, np, d, m - 1).value;
    MoveItemUnfoldBlock(b, p, d, m);
    var b' := SetTile(b1, np, ItemAt(b, p));
    forall r0, c0 | 0 <= r0 < |b| && 0 <= c0 < |b[r0]|
      ensures ShiftedCell(b, b', p, d, k, Pos(r0, c0))
    {
      ShiftCellStep(b, b1, p, d, k, Pos(r0, c0));
    }
  }

  /** A push that succeeds found a chain within the budget. */
  lemma {:induction false} MoveItemChain(b: Grid, p: Pos, d: Direction, m: nat)
    requires InBounds(b, p)
    requires MoveItem(b, p, d, m).Some?
    ensures exists k :: 0 <= k <= m && ChainOk(b, p, d, k)
    decreases m
  {
    var np := Step(p, d);
    MoveItemCases(b, p, d, m);
    if ItemAt(b, np) == Empty {
      assert ChainOk(b, p, d, 0);
    } else {
      MoveItemChain(b, np, d, m - 1);
      var k :| 0 <= k <= m - 1 && ChainOk(b, np, d, k);
      assert ChainOk(b, p, d, k + 1);
    }
  }

  /** moveItem refuses exactly when no chain of at most `m` blocks ends in
      an empty tile: the edge, a wall, the actor, or too many blocks. */
  lemma MoveItemRefused(b: Grid, p: Pos, d: Direction, m: nat)
    requires InBounds(b, p)
    ensures MoveItem(b, p, d, m).None? <==> forall k | 0 <= k <= m :: !ChainOk(b, p, d, k)
  {
    if MoveItem(b, p, d, m).Some? {
      MoveItemChain(b, p, d, m);
    } else {
      forall k | 0 <= k <= m
        ensures !ChainOk(b, p, d, k)
      {
        if ChainOk(b, p, d, k) {
          MoveItemShifts(b, p, d, m, k);
        }
      }
    }
  }

  /** A run of `m + 1` blocks ahead is more than the budget `m` allows. */
  lemma BudgetExceeded(b: Grid, p: Pos, d: Direction, m: nat)
    requires InBounds(b, p)
    requires forall i | 1 <= i <= m + 1 :: InBounds(b, Ahead(p, d, i)) && ItemAt(b, Ahead(p, d, i)) == Block
    ensures MoveItem(b, p, d, m).None?
  {
    if MoveItem(b, p, d, m).Some? {
      MoveItemChain(b, p, d, m);
      var k :| 0 <= k <= m && ChainOk(b, p, d, k);
      ChainOkRay(b, p, d, k);
      assert false;
    }
  }

  /** A successful push leaves the pushing tile itself alone. */
  lemma MoveItemKeepsStart(b: Grid, p: Pos, d: Direction, m: nat)
    requires InBounds(b, p)
    requires MoveItem(b, p, d, m).Some?
    ensures MoveItem(b, p, d, m).value[p.r][p.c] == b[p.r][p.c]
  {
    MoveItemChain(b, p, d, m);
    var k :| 0 <= k <= m && ChainOk(b, p, d, k);
    MoveItemShifts(b, p, d, m, k);
    assert ShiftedCell(b, MoveItem(b, p, d, m).value, p, d, k, Pos(p.r, p.c));
  }

  /** Counts after pushing onto an empty tile. */
  lemma CountsIntoEmpty(b: Grid, p: Pos, d: Direction, m: nat, e: Entity)
    requires InBounds(b, p) && InBounds(b, Step(p, d))
    requires ItemAt(b, Step(p, d)) == Empty
    ensures MoveItem(b, p, d, m).Some?
    ensures BoardCount(MoveItem(b, p, d, m).value, e) + Indicator(e == Empty)
            == BoardCount(b, e) + Indicator(e == ItemAt(b, p))
  {
    MoveItemUnfoldEmpty(b, p, d, m);
    SetTileCount(b, Step(p, d), ItemAt(b, p), e);
  }

  /** Counts after pushing a block whose own push traded an empty tile for
      a block: the block's tile, untouched by that push, gets the entity of
      `p`. */
  lemma CountsBehindBlock(b: Grid, p: Pos, d: Direction, m: nat, e: Entity)
    requires InBounds(b, p) && InBounds(b, Step(p, d))
    requires ItemAt(b, Step(p, d)) == Block && m > 0
    requires MoveItem(b, Step(p, d), d, m - 1).Some?
    requires MoveItem(b, Step(p, d), d, m - 1).value[Step(p, d).r][Step(p, d).c] == b[Step(p, d).r][Step(p, d).c]
    requires BoardCount(MoveItem(b, Step(p, d), d, m - 1).value, e) + Indicator(e == Empty)
             == BoardCount(b, e) + Indicator(e == Block)
    ensures MoveItem(b, p, d, m).Some?
    ensures BoardCount(MoveItem(b, p, d, m).value, e) + Indicator(e == Empty)
            == BoardCount(b, e) + Indicator(e == ItemAt(b, p))
  {
    MoveItemUnfoldBlock(b, p, d, m);
    SetTileCount(MoveItem(b, Step(p, d), d, m - 1).value, Step(p, d), ItemAt(b, p), e);
  }

  /** A successful push trades one empty tile for one more copy of the
      pushed entity; every other entity count is unchanged. */
  lemma {:induction false} MoveItemCounts(b: Grid, p: Pos, d: Direction, m: nat, e: Entity)
    requires InBounds(b, p)
    requires MoveItem(b, p, d, m).Some?
    ensures BoardCount(MoveItem(b, p, d, m).value, e) + Indicator(e == Empty)
            == BoardCount(b, e) + Indicator(e == ItemAt(b, p))
    decreases m
  {
    var np := Step(p, d);
    MoveItemCases(b, p, d, m);
    if ItemAt(b, np) == Empty {
      CountsIntoEmpty(b, p, d, m, e);
    } else {
      MoveItemCounts(b, np, d, m - 1, e);
      MoveItemKeepsStart(b, np, d, m - 1);
      CountsBehindBlock(b, p, d, m, e);
    }
  }
}
