/** Starting games: validating the catalog, picking the next level without
    repeating the current one, archiving the finished game, and building
    the new one. The session value stands for the JavaScript game's global `game`
    and `gameHistory`. */
module Session {
  import opened Wrappers
  import opened SokobanBase
  import opened Board
  import opened Gameplay
  import opened Templates

  // ---------------------------------------------------------------------
  // randomTemplateIndex

  /** randomTemplateIndex over `n` templates. `draw` is the value `rndInt`
      returned: a value below `n` when there is no current game, below
      `n - 1` otherwise (it is not drawn at all for a single template).
      With a current game, draws at or above its index are shifted up by
      one, so the current index is skipped. */
  function RandomTemplateIndex(n: nat, current: Option<nat>, draw: nat): (ix: nat)
    ensures current.None? ==> ix == draw
    ensures current.Some? && n == 1 ==> ix == 0
    ensures current.Some? && n > 1 && draw < n - 1 ==> ix < n && ix != current.value
  {
    if current.None? then draw
    else if n == 1 then 0
    else if draw >= current.value then draw + 1
    else draw
  }

  /** The draws `rndInt` can produce for a call. */
  predicate DrawInRange(n: nat, current: Option<nat>, draw: nat) {
    if current.None? then draw < n
    else n == 1 || draw < n - 1
  }

  /** The draw that picks index `ix` while `current` is the game's index:
      the inverse of the shift. */
  function DrawFor(current: nat, ix: nat): (draw: nat)
    requires ix != current
    ensures draw == ix || draw + 1 == ix
  {
    if ix > current then ix - 1 else ix
  }

  /** With a current game and several templates, the pick is a bijection
      from the `n - 1` draws onto the `n - 1` other indices: every draw
      lands on another index and is recovered from it, and every other
      index is reached by a draw in range. */
  lemma RandomTemplateIndexBijective(n: nat, current: nat)
    requires n > 1 && current < n
    ensures forall draw: nat | draw < n - 1 ::
              var ix := RandomTemplateIndex(n, Some(current), draw);
              ix < n && ix != current && DrawFor(current, ix) == draw
    ensures forall ix: nat | ix < n && ix != current ::
              DrawFor(current, ix) < n - 1 && RandomTemplateIndex(n, Some(current), DrawFor(current, ix)) == ix
  {
  }

  /** No two draws pick the same template. */
  lemma RandomTemplateIndexInjective(n: nat, current: nat, d1: nat, d2: nat)
    requires n > 1 && current < n && d1 < n - 1 && d2 < n - 1
    requires RandomTemplateIndex(n, Some(current), d1) == RandomTemplateIndex(n, Some(current), d2)
    ensures d1 == d2
  {
    RandomTemplateIndexBijective(n, current);
  }

  // ---------------------------------------------------------------------
  // archiveGame

  /** What the history keeps of a game: the board, its cell list and the
      actor position are deleted before it is pushed. */
  datatype Archived = Archived(index: nat, name: string, moves: nat, status: Status)

  function Summary(g: Game): Archived {
    Archived(g.index, g.name, g.moves, g.status)
  }

  /** archiveGame: a game is pushed onto the history only if at least one
      move was counted; the history only ever grows at its end. */
  function ArchiveGame(history: seq<Archived>, game: Option<Game>): (h: seq<Archived>)
    ensures |history| <= |h| <= |history| + 1 && h[..|history|] == history
    ensures |h| == |history| + 1 <==> game.Some? && game.value.moves != 0
    ensures |h| == |history| + 1 ==> h[|history|] == Summary(game.value)
  {
    if game.Some? && game.value.moves != 0 then history + [Summary(game.value)]
    else history
  }

  // ---------------------------------------------------------------------
  // The session and newGame

  datatype Session = Session(game: Option<Game>, history: seq<Archived>)

  /** sanityCheckTemplates as written: the templates are checked in order
      with `SanityCheckTemplate` and the first failure is reported: every
      template before it passes. */
  function CheckCatalogAsWritten(catalog: seq<NamedTemplate>, i: nat): (o: Outcome<GameError>)
    requires i <= |catalog|
    ensures o.Pass? <==> forall k | i <= k < |catalog| :: SanityCheckTemplate(catalog[k].rows) == Pass
    ensures o.Fail? ==> exists k | i <= k < |catalog| ::
              && (forall j | i <= j < k :: SanityCheckTemplate(catalog[j].rows) == Pass)
              && SanityCheckTemplate(catalog[k].rows) == o
    decreases |catalog| - i
  {
    if i == |catalog| then Pass
    else match SanityCheckTemplate(catalog[i].rows)
      case Fail(e) => Fail(e)
      case Pass =>
        var o := CheckCatalogAsWritten(catalog, i + 1);
        assert o.Fail? ==> exists k | i <= k < |catalog| ::
                             && (forall j | i <= j < k :: SanityCheckTemplate(catalog[j].rows) == Pass)
                             && SanityCheckTemplate(catalog[k].rows) == o by {
          if o.Fail? {
            var k :| i + 1 <= k < |catalog|
                     && (forall j | i + 1 <= j < k :: SanityCheckTemplate(catalog[j].rows) == Pass)
                     && SanityCheckTemplate(catalog[k].rows) == o;
            assert forall j | i <= j < k :: SanityCheckTemplate(catalog[j].rows) == Pass;
          }
        }
        o
  }

  /** sanityCheckTemplates with the intended per-template check, the one a
      new game relies on. */
  function CheckCatalog(catalog: seq<NamedTemplate>, i: nat): (o: Outcome<GameError>)
    requires i <= |catalog|
    ensures o.Pass? <==> forall k | i <= k < |catalog| :: SanityCheckTemplateIntended(catalog[k].rows) == Pass
    ensures o.Fail? ==> exists k | i <= k < |catalog| ::
              && (forall j | i <= j < k :: SanityCheckTemplateIntended(catalog[j].rows) == Pass)
              && SanityCheckTemplateIntended(catalog[k].rows) == o
    decreases |catalog| - i
  {
    if i == |catalog| then Pass
    else match SanityCheckTemplateIntended(catalog[i].rows)
      case Fail(e) => Fail(e)
      case Pass =>
        var o := CheckCatalog(catalog, i + 1);
        assert o.Fail? ==> exists k | i <= k < |catalog| ::
                             && (forall j | i <= j < k :: SanityCheckTemplateIntended(catalog[j].rows) == Pass)
                             && SanityCheckTemplateIntended(catalog[k].rows) == o by {
          if o.Fail? {
            var k :| i + 1 <= k < |catalog|
                     && (forall j | i + 1 <= j < k :: SanityCheckTemplateIntended(catalog[j].rows) == Pass)
                     && SanityCheckTemplateIntended(catalog[k].rows) == o;
            assert forall j | i <= j < k :: SanityCheckTemplateIntended(catalog[j].rows) == Pass;
          }
        }
        o
  }

  /** The two catalog checks disagree only on a catalog holding a template
      with neither blocks nor targets: the intended check passes only
      catalogs the one as written passes, and a catalog the one as written
      passes but the intended one refuses has such a template. */
  lemma {:induction false} CatalogChecksDiffer(catalog: seq<NamedTemplate>, i: nat)
    requires i <= |catalog|
    ensures CheckCatalog(catalog, i).Pass? ==> CheckCatalogAsWritten(catalog, i).Pass?
    ensures CheckCatalogAsWritten(catalog, i).Pass? && CheckCatalog(catalog, i).Fail?
            ==> exists k | i <= k < |catalog| :: WellFormedTemplate(catalog[k].rows)
                                                 && CountCode(catalog[k].rows, BlockCode, 0) == 0
                                                 && CountCode(catalog[k].rows, TargetCode, 0) == 0
    decreases |catalog| - i
  {
    if i < |catalog| {
      ValidatorsDiffer(catalog[i].rows);
      CatalogChecksDiffer(catalog, i + 1);
    }
  }

  ghost predicate CatalogChecked(catalog: seq<NamedTemplate>) {
    forall k | 0 <= k < |catalog| :: SanityCheckTemplateIntended(catalog[k].rows) == Pass
  }

  /** What holds between keys: a present game is valid, was built from a
      template of the catalog, and the catalog was checked before it. */
  ghost predicate SessionValid(catalog: seq<NamedTemplate>, s: Session) {
    s.game.Some? ==>
      && Valid(s.game.value)
      && s.game.value.index < |catalog|
      && s.game.value.name == catalog[s.game.value.index].name
      && CatalogChecked(catalog)
  }

  function CurrentIndex(s: Session): Option<nat> {
    if s.game.Some? then Some(s.game.value.index) else None
  }

  /** newGame. The catalog is checked only when there is no game yet. The
      next index is picked, the template converted, the old game archived,
      and the board built; the new game starts with no moves, active. A
      failure is reported as the error; the caller keeps its session. */
  function NewGame(catalog: seq<NamedTemplate>, s: Session, draw: nat): (r: Result<Session, GameError>)
    ensures s.game.None? && CheckCatalog(catalog, 0).Fail? ==> r == Failure(CheckCatalog(catalog, 0).error)
    ensures r.Success? ==> (s.game.None? ==> CatalogChecked(catalog))
    ensures r.Success? ==> r.value.game.Some?
    ensures r.Success? && r.value.game.Some? ==>
      var g := r.value.game.value;
      && g.index == RandomTemplateIndex(|catalog|, CurrentIndex(s), draw)
      && g.index < |catalog| && g.name == catalog[g.index].name
      && g.board == BoardFromTemplate(ConvertTemplate(catalog[g.index].rows))
      && g.moves == 0 && g.status == Active
      && Valid(g)
      && r.value.history == ArchiveGame(s.history, s.game)
  {
    var checked := if s.game.None? then CheckCatalog(catalog, 0) else Pass;
    if checked.Fail? then Failure(checked.error)
    else
      var ix := RandomTemplateIndex(|catalog|, CurrentIndex(s), draw);
      if ix >= |catalog| then Failure(NoSuchTemplate)
      else
        var codes := ConvertTemplate(catalog[ix].rows);
        var history := ArchiveGame(s.history, s.game);
        var board := BoardFromTemplate(codes);
        match GetActorPosition(Flatten(board))
        case Failure(e) => Failure(e)
        case Success(pos) =>
          ActorPositionOnBoard(board);
          Result.Success(Session(Some(Game(ix, catalog[ix].name, board, pos, 0, Active)), history))
  }

  /** A template that passes validation builds a board with exactly one
      actor, as many blocks as targets and at least one of each, none of
      them covered; `getActorPosition` cannot fail on it. */
  lemma CheckedTemplateBoard(rows: seq<string>)
    requires SanityCheckTemplateIntended(rows) == Pass
    ensures var b := BoardFromTemplate(ConvertTemplate(rows));
      && BoardCount(b, Actor) == 1
      && BoardCount(b, Block) == BoardTargets(b) >= 1
      && GetActorPosition(Flatten(b)).Success?
  {
    var b := BoardFromTemplate(ConvertTemplate(rows));
    TemplateBoardCounts(rows, Actor, ActorCode);
    TemplateBoardCounts(rows, Block, BlockCode);
    FlattenCount(b, Actor);
  }

  /** With a checked catalog (or none checked yet, but a valid one) and a
      draw `rndInt` can return, newGame succeeds, and with several
      templates the new game is not the one just played. */
  lemma NewGameSucceeds(catalog: seq<NamedTemplate>, s: Session, draw: nat)
    requires |catalog| > 0 && CatalogChecked(catalog)
    requires SessionValid(catalog, s)
    requires DrawInRange(|catalog|, CurrentIndex(s), draw)
    ensures NewGame(catalog, s, draw).Success?
    ensures SessionValid(catalog, NewGame(catalog, s, draw).value)
    ensures s.game.Some? && |catalog| > 1 ==>
              NewGame(catalog, s, draw).value.game.value.index != s.game.value.index
  {
    var ix := RandomTemplateIndex(|catalog|, CurrentIndex(s), draw);
    CheckedTemplateBoard(catalog[ix].rows);
  }

  /** A freshly started game is never already won: its blocks all stand
      off the targets and there is at least one target. */
  lemma FreshGameNotSolved(catalog: seq<NamedTemplate>, s: Session, draw: nat)
    requires NewGame(catalog, s, draw).Success?
    requires CatalogChecked(catalog)
    ensures !Solved(Flatten(NewGame(catalog, s, draw).value.game.value.board))
  {
    var g := NewGame(catalog, s, draw).value.game.value;
    var b := g.board;
    CheckedTemplateBoard(catalog[g.index].rows);
    FlattenCount(b, Block);
    var cells := Flatten(b);
    var i := SomeTarget(cells);
    assert cells[i] in cells;
    var r, c :| 0 <= r < |b| && 0 <= c < |b[r]| && b[r][c] == cells[i];
    assert !Settled(cells[i]);
  }

  /** A position of a target, when there is one. */
  function SomeTarget(cells: seq<Cell>): (i: nat)
    requires CountTargets(cells) > 0
    ensures i < |cells| && cells[i].floor == Target
  {
    if cells[0].floor == Target then 0 else 1 + SomeTarget(cells[1..])
  }

  /** handleArrowKey on the session: without a game, `moveActor` throws
      and nothing changes; with one, the key is handled and the history is
      untouched. */
  function ArrowKey(s: Session, d: Direction): (s': Session)
    requires s.game.Some? ==> InBounds(s.game.value.board, s.game.value.actorPosition)
    ensures s.game.None? ==> s' == s
    ensures s'.history == s.history
    ensures s'.game.Some? <==> s.game.Some?
    ensures s.game.Some? ==> s'.game == Some(HandleArrowKey(s.game.value, d))
  {
    match s.game
    case None => s
    case Some(g) => Session(Some(HandleArrowKey(g, d)), s.history)
  }

  /** isGameDone on the page: false while there is no game; with one, true
      once it is won (no resigned game ever arises). A session whose game
      is done ignores every arrow key. */
  function GameDone(s: Session): (done: bool)
    ensures done <==> s.game.Some? && IsGameDone(s.game.value)
    ensures done && InBounds(s.game.value.board, s.game.value.actorPosition) ==>
              forall d: Direction :: ArrowKey(s, d) == s
  {
    s.game.Some? && IsGameDone(s.game.value)
  }

  /** Keys keep a session valid. */
  lemma ArrowKeyValid(catalog: seq<NamedTemplate>, s: Session, d: Direction)
    requires SessionValid(catalog, s)
    ensures SessionValid(catalog, ArrowKey(s, d))
  {
    if s.game.Some? {
      HandleArrowKeyValid(s.game.value, d);
    }
  }
}
