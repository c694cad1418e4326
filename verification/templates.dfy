/** Template validation (`sanityCheckTemplate`) and how a valid template
    fixes the counts of the board built from it. */
module Templates {
  import opened Wrappers
  import opened SokobanBase
  import opened Board

  // ---------------------------------------------------------------------
  // Counting element codes in a template

  /** The number of characters of `row` from column `j` on that the
      legend maps to `code`. */
  function RowCount(row: string, code: Code, j: nat): nat
    requires j <= |row|
    decreases |row| - j
  {
    if j == |row| then 0
    else Indicator(Char2Code(row[j]) == Some(code)) + RowCount(row, code, j + 1)
  }

  /** The number of characters from row `i` on that are mapped to `code`:
      for `i == 0`, the number the `count` map ends with for `code`. */
  function CountCode(rows: seq<string>, code: Code, i: nat): nat
    requires i <= |rows|
    decreases |rows| - i
  {
    if i == |rows| then 0
    else RowCount(rows[i], code, 0) + CountCode(rows, code, i + 1)
  }

  // ---------------------------------------------------------------------
  // The `count` map

  /** `count[cell] || 0`: the entry for `code`, or zero when there is none. */
  function Seen(count: map<Code, nat>, code: Code): nat {
    if code in count then count[code] else 0
  }

  /** The character loop of `sanityCheckTemplate` over `row` from column
      `j` on: each known character bumps the entry of its code. (An unknown
      character aborts the check before its entry would be read.) */
  function TallyRow(count: map<Code, nat>, row: string, j: nat): map<Code, nat>
    requires j <= |row|
    decreases |row| - j
  {
    if j == |row| then count
    else
      var bumped := match Char2Code(row[j])
        case None => count
        case Some(code) => count[code := Seen(count, code) + 1];
      TallyRow(bumped, row, j + 1)
  }

  /** The row loop: the map after the rows from `i` on. */
  function Tally(count: map<Code, nat>, rows: seq<string>, i: nat): map<Code, nat>
    requires i <= |rows|
    decreases |rows| - i
  {
    if i == |rows| then count else Tally(TallyRow(count, rows[i], 0), rows, i + 1)
  }

  /** The `count` map a template ends with, the loops starting from `{}`. */
  function TemplateCount(rows: seq<string>): map<Code, nat> {
    Tally(map[], rows, 0)
  }

  /** `count[code]` as the final checks read it: `undefined` is `None`. */
  function Entry(count: map<Code, nat>, code: Code): Option<nat> {
    if code in count then Some(count[code]) else None
  }

  lemma {:induction false} TallyRowCounts(count: map<Code, nat>, row: string, j: nat, code: Code)
    requires j <= |row|
    ensures Seen(TallyRow(count, row, j), code) == Seen(count, code) + RowCount(row, code, j)
    ensures code in TallyRow(count, row, j) <==> code in count || RowCount(row, code, j) != 0
    decreases |row| - j
  {
    if j < |row| {
      var bumped := match Char2Code(row[j])
        case None => count
        case Some(x) => count[x := Seen(count, x) + 1];
      TallyRowCounts(bumped, row, j + 1, code);
    }
  }

  lemma {:induction false} TallyCounts(count: map<Code, nat>, rows: seq<string>, i: nat, code: Code)
    requires i <= |rows|
    ensures Seen(Tally(count, rows, i), code) == Seen(count, code) + CountCode(rows, code, i)
    ensures code in Tally(count, rows, i) <==> code in count || CountCode(rows, code, i) != 0
    decreases |rows| - i
  {
    if i < |rows| {
      TallyRowCounts(count, rows[i], 0, code);
      TallyCounts(TallyRow(count, rows[i], 0), rows, i + 1, code);
    }
  }

  /** The map holds an entry for a code exactly when the code occurs, and
      then the number of its occurrences. So an entry is never zero: a code
      that never occurs reads as `undefined`. */
  lemma TemplateCountEntries(rows: seq<string>, code: Code)
    ensures Entry(TemplateCount(rows), code).None? <==> CountCode(rows, code, 0) == 0
    ensures Entry(TemplateCount(rows), code).Some? ==> Entry(TemplateCount(rows), code).value == CountCode(rows, code, 0)
    ensures Entry(TemplateCount(rows), code) != Some(0)
  {
    TallyCounts(map[], rows, 0, code);
  }

  /** A template the game can be played on: at least 6 rows of one common
      length of at least 6, only legend characters, exactly one actor, and
      as many blocks as targets. */
  ghost predicate WellShaped(rows: seq<string>) {
    && |rows| >= 6
    && |rows[0]| >= 6
    && (forall r | 0 <= r < |rows| :: |rows[r]| == |rows[0]|)
    && (forall r, c | 0 <= r < |rows| && 0 <= c < |rows[r]| :: rows[r][c] in Legend)
  }

  ghost predicate WellFormedTemplate(rows: seq<string>) {
    && WellShaped(rows)
    && CountCode(rows, ActorCode, 0) == 1
    && CountCode(rows, BlockCode, 0) == CountCode(rows, TargetCode, 0)
  }

  // ---------------------------------------------------------------------
  // The row scan

  /** The index of the first character at or after `j` outside the
      legend, or `|row|`. */
  function FirstUnknown(row: string, j: nat): (i: nat)
    requires j <= |row|
    ensures j <= i <= |row|
    ensures forall k | j <= k < i :: row[k] in Legend
    ensures i < |row| ==> row[i] !in Legend
    decreases |row| - j
  {
    if j == |row| then j
    else if row[j] !in Legend then j
    else FirstUnknown(row, j + 1)
  }

  /** A row of the expected length with only legend characters. */
  ghost predicate RowFine(row: string, nCols: nat) {
    |row| == nCols && forall c | 0 <= c < |row| :: row[c] in Legend
  }

  /** Row `r` is the first faulty row from row `i` on, and `e` is the
      error it raises: a row of the wrong length is ragged, otherwise its
      first character outside the legend is reported. */
  ghost predicate FirstFault(rows: seq<string>, nCols: nat, i: nat, r: nat, e: GameError) {
    && i <= r < |rows|
    && (forall k | i <= k < r :: RowFine(rows[k], nCols))
    && if |rows[r]| != nCols then e == RaggedRows
       else FirstUnknown(rows[r], 0) < |rows[r]| && e == UnknownChar(rows[r][FirstUnknown(rows[r], 0)])
  }

  /** The per-row checks from row `i` on, in template order: every row must
      have the first row's length, and within a row the characters are
      checked left to right. The first failure is reported. */
  function CheckRows(rows: seq<string>, nCols: nat, i: nat): (o: Outcome<GameError>)
    requires i <= |rows|
    ensures o.Pass? <==> forall r | i <= r < |rows| :: RowFine(rows[r], nCols)
    ensures o.Fail? ==> exists r: nat :: FirstFault(rows, nCols, i, r, o.error)
    decreases |rows| - i
  {
    if i == |rows| then Pass
    else if |rows[i]| != nCols then
      assert FirstFault(rows, nCols, i, i, RaggedRows);
      Fail(RaggedRows)
    else
      var j := FirstUnknown(rows[i], 0);
      if j < |rows[i]| then
        assert FirstFault(rows, nCols, i, i, UnknownChar(rows[i][j]));
        Fail(UnknownChar(rows[i][j]))
      else
        var o := CheckRows(rows, nCols, i + 1);
        assert RowFine(rows[i], nCols);
        assert o.Fail? ==> exists r: nat :: FirstFault(rows, nCols, i, r, o.error) by {
          if o.Fail? {
            var r: nat :| FirstFault(rows, nCols, i + 1, r, o.error);
            assert FirstFault(rows, nCols, i, r, o.error);
          }
        }
        o
  }

  /** sanityCheckTemplate as written. `nCols` is taken from the first row,
      and a first row shorter than 6 fails before anything else in it is
      looked at. The final checks read the `count` map built while
      scanning. Its check for a template without blocks compares an entry
      with zero, which an entry never is, so that check never fires. */
  function SanityCheckTemplate(rows: seq<string>): (o: Outcome<GameError>)
    ensures o.Pass? <==> WellFormedTemplate(rows)
    ensures o == Fail(TooFewRows) <==> |rows| < 6
    ensures o == Fail(TooFewColumns) <==> |rows| >= 6 && |rows[0]| < 6
    ensures (o.Fail? && (o.error == RaggedRows || o.error.UnknownChar?))
            <==> |rows| >= 6 && |rows[0]| >= 6 && exists r | 0 <= r < |rows| :: !RowFine(rows[r], |rows[0]|)
    ensures |rows| >= 6 && |rows[0]| >= 6 && o.Fail? && (o.error == RaggedRows || o.error.UnknownChar?)
            ==> exists r: nat :: FirstFault(rows, |rows[0]|, 0, r, o.error)
    ensures o == Fail(ActorCount) <==> WellShaped(rows) && CountCode(rows, ActorCode, 0) != 1
    ensures o == Fail(BlockTargetMismatch)
            <==> WellShaped(rows) && CountCode(rows, ActorCode, 0) == 1
                 && CountCode(rows, BlockCode, 0) != CountCode(rows, TargetCode, 0)
    ensures o != Fail(NoBlockTargetPair)
  {
    if |rows| < 6 then Fail(TooFewRows)
    else if |rows[0]| < 6 then Fail(TooFewColumns)
    else
      match CheckRows(rows, |rows[0]|, 0)
      case Fail(e) => Fail(e)
      case Pass =>
        var count := TemplateCount(rows);
        TemplateCountEntries(rows, ActorCode);
        TemplateCountEntries(rows, BlockCode);
        TemplateCountEntries(rows, TargetCode);
        var actors := Entry(count, ActorCode);
        var blocks := Entry(count, BlockCode);
        var targets := Entry(count, TargetCode);
        if actors != Some(1) then Fail(ActorCount)
        else if blocks != targets then Fail(BlockTargetMismatch)
        else if blocks == Some(0) then Fail(NoBlockTargetPair)
        else Pass
  }

  /** sanityCheckTemplate with the zero test it evidently intends: a
      template without any block or target is rejected. */
  function SanityCheckTemplateIntended(rows: seq<string>): (o: Outcome<GameError>)
    ensures o.Pass? <==> WellFormedTemplate(rows) && CountCode(rows, BlockCode, 0) >= 1
    ensures o == Fail(NoBlockTargetPair)
            <==> WellFormedTemplate(rows) && CountCode(rows, BlockCode, 0) == 0
    ensures o.Fail? && o.error != NoBlockTargetPair ==> o == SanityCheckTemplate(rows)
  {
    match SanityCheckTemplate(rows)
    case Fail(e) => Fail(e)
    case Pass =>
      if CountCode(rows, BlockCode, 0) == 0 then Fail(NoBlockTargetPair) else Pass
  }

  /** A template without any block or target is accepted by the check as
      written and refused by the intended one; otherwise they agree. */
  lemma ValidatorsDiffer(rows: seq<string>)
    ensures SanityCheckTemplate(rows) == Pass
            <==> SanityCheckTemplateIntended(rows) == Pass
                 || (WellFormedTemplate(rows) && CountCode(rows, BlockCode, 0) == 0
                     && CountCode(rows, TargetCode, 0) == 0)
  {
  }

  /** A code absent from every row is counted zero times. */
  lemma {:induction false} CountCodeAbsent(rows: seq<string>, code: Code, i: nat)
    requires i <= |rows|
    requires forall k | i <= k < |rows| :: RowCount(rows[k], code, 0) == 0
    ensures CountCode(rows, code, i) == 0
    decreases |rows| - i
  {
    if i < |rows| {
      CountCodeAbsent(rows, code, i + 1);
    }
  }

  /** A 6x6 floor with the actor in its top-left corner and nothing
      else. */
  const EmptyRoom: seq<string> := ["o     "] + seq(5, _ => "      ")

  lemma EmptyRoomShaped()
    ensures WellShaped(EmptyRoom)
  {
    var blank := "      ";
    assert forall x | x in blank :: x in Legend;
    assert forall x | x in EmptyRoom[0] :: x in Legend;
    forall r, c | 0 <= r < |EmptyRoom| && 0 <= c < |EmptyRoom[r]|
      ensures EmptyRoom[r][c] in Legend
    {
      assert EmptyRoom[r][c] in EmptyRoom[r];
    }
  }

  lemma EmptyRoomCounts()
    ensures CountCode(EmptyRoom, ActorCode, 0) == 1
    ensures CountCode(EmptyRoom, BlockCode, 0) == 0
    ensures CountCode(EmptyRoom, TargetCode, 0) == 0
  {
    var blank := "      ";
    assert RowCount(blank, ActorCode, 0) == 0;
    assert RowCount(blank, BlockCode, 0) == 0;
    assert RowCount(blank, TargetCode, 0) == 0;
    CountCodeAbsent(EmptyRoom, ActorCode, 1);
    CountCodeAbsent(EmptyRoom, BlockCode, 1);
    CountCodeAbsent(EmptyRoom, TargetCode, 1);
    assert RowCount(EmptyRoom[0], ActorCode, 0) == 1;
    assert RowCount(EmptyRoom[0], BlockCode, 0) == 0;
    assert RowCount(EmptyRoom[0], TargetCode, 0) == 0;
  }

  /** The input that shows the dead check: the empty room is accepted as
      written, a game that is won before the first key, and refused by the
      intended check. */
  lemma EmptyRoomAccepted()
    ensures SanityCheckTemplate(EmptyRoom) == Pass
    ensures SanityCheckTemplateIntended(EmptyRoom) == Fail(NoBlockTargetPair)
  {
    EmptyRoomShaped();
    EmptyRoomCounts();
  }

  // ---------------------------------------------------------------------
  // From template counts to board counts

  lemma {:induction false} RowItemsMatch(cells: seq<Cell>, row: string, e: Entity, code: Code, j: nat)
    requires |cells| == |row| && j <= |row|
    requires forall c | 0 <= c < |row| :: (cells[c].item == e) == (Char2Code(row[c]) == Some(code))
    ensures CountItems(cells[j..], e) == RowCount(row, code, j)
    decreases |row| - j
  {
    if j < |row| {
      RowItemsMatch(cells, row, e, code, j + 1);
      assert cells[j..][1..] == cells[j + 1..];
    }
  }

  lemma {:induction false} RowTargetsMatch(cells: seq<Cell>, row: string, j: nat)
    requires |cells| == |row| && j <= |row|
    requires forall c | 0 <= c < |row| :: (cells[c].floor == Target) == (Char2Code(row[c]) == Some(TargetCode))
    ensures CountTargets(cells[j..]) == RowCount(row, TargetCode, j)
    decreases |row| - j
  {
    if j < |row| {
      RowTargetsMatch(cells, row, j + 1);
      assert cells[j..][1..] == cells[j + 1..];
    }
  }

  lemma {:induction false} GridMatch(b: Grid, rows: seq<string>, e: Entity, code: Code, i: nat)
    requires |b| == |rows| && i <= |rows|
    requires forall r | 0 <= r < |rows| :: |b[r]| == |rows[r]|
    requires forall r, c | 0 <= r < |rows| && 0 <= c < |rows[r]| ::
               (b[r][c].item == e) == (Char2Code(rows[r][c]) == Some(code))
    requires forall r, c | 0 <= r < |rows| && 0 <= c < |rows[r]| ::
               (b[r][c].floor == Target) == (Char2Code(rows[r][c]) == Some(TargetCode))
    ensures BoardCount(b[i..], e) == CountCode(rows, code, i)
    ensures BoardTargets(b[i..]) == CountCode(rows, TargetCode, i)
    decreases |rows| - i
  {
    if i < |rows| {
      GridMatch(b, rows, e, code, i + 1);
      RowItemsMatch(b[i], rows[i], e, code, 0);
      RowTargetsMatch(b[i], rows[i], 0);
      assert b[i][0..] == b[i];
      assert b[i..][1..] == b[i + 1..];
    }
  }

  /** The board built from a template holds as many actors, blocks and
      walls as the template has characters for them, and as many targets:
      the counts `sanityCheckTemplate` checks are the counts of the board. */
  lemma TemplateBoardCounts(rows: seq<string>, e: Entity, code: Code)
    requires (e == Actor && code == ActorCode) || (e == Block && code == BlockCode) || (e == Wall && code == WallCode)
    ensures BoardCount(BoardFromTemplate(ConvertTemplate(rows)), e) == CountCode(rows, code, 0)
    ensures BoardTargets(BoardFromTemplate(ConvertTemplate(rows))) == CountCode(rows, TargetCode, 0)
  {
    var b := BoardFromTemplate(ConvertTemplate(rows));
    GridMatch(b, rows, e, code, 0);
    assert b[0..] == b;
  }

  // ---------------------------------------------------------------------
  // The shipped templates

  /** The shape part of validation, from membership in each row. */
  lemma ShapeByMembership(rows: seq<string>)
    requires |rows| >= 6 && |rows[0]| >= 6
    requires forall r | 0 <= r < |rows| :: |rows[r]| == |rows[0]|
    requires forall r | 0 <= r < |rows| :: forall x | x in rows[r] :: x in Legend
    ensures WellShaped(rows)
  {
    forall r, c | 0 <= r < |rows| && 0 <= c < |rows[r]|
      ensures rows[r][c] in Legend
    {
      assert rows[r][c] in rows[r];
    }
  }

  lemma TinyShaped()
    ensures WellShaped(Tiny)
  {
    ShapeByMembership(Tiny);
  }

  lemma SmallShaped()
    ensures WellShaped(Small)
  {
    ShapeByMembership(Small);
  }

  lemma MediumShaped()
    ensures WellShaped(Medium)
  {
    ShapeByMembership(Medium);
  }

  lemma LargeShaped()
    ensures WellShaped(Large)
  {
    ShapeByMembership(Large);
  }

  /** Every shipped template has the size of the level table (tiny 6x6,
      small 8x8, medium 10x10, large 16x19) and passes the row checks:
      rows of one length, only legend characters. */
  lemma ShippedTemplatesShaped()
    ensures |Tiny| == 6 && |Tiny[0]| == 6
    ensures |Small| == 8 && |Small[0]| == 8
    ensures |Medium| == 10 && |Medium[0]| == 10
    ensures |Large| == 16 && |Large[0]| == 19
    ensures forall i | 0 <= i < |GameTemplates| :: WellShaped(GameTemplates[i].rows)
  {
    TinyShaped();
    SmallShaped();
    MediumShaped();
    LargeShaped();
  }
}
