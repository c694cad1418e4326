/** The four shipped levels pass validation, so the game can start. */
module Levels {
  import opened Wrappers
  import opened SokobanBase
  import opened Board
  import opened Templates
  import opened Session

  /** The occurrences of `ch` in `row` from column `j` on. */
  function CountChar(row: string, ch: char, j: nat): nat
    requires j <= |row|
    decreases |row| - j
  {
    if j == |row| then 0 else (if row[j] == ch then 1 else 0) + CountChar(row, ch, j + 1)
  }

  /** The occurrences of `ch` in the rows from `i` on. */
  function SumChar(rows: seq<string>, ch: char, i: nat): nat
    requires i <= |rows|
    decreases |rows| - i
  {
    if i == |rows| then 0 else CountChar(rows[i], ch, 0) + SumChar(rows, ch, i + 1)
  }

  /** A stretch of the row without `ch` adds nothing to its count. */
  lemma {:induction false} Skip(row: string, ch: char, j: nat, k: nat)
    requires j <= k <= |row|
    requires ch !in row[j..k]
    ensures CountChar(row, ch, j) == CountChar(row, ch, k)
    decreases k - j
  {
    if j < k {
      assert row[j] == row[j..k][0];
      assert row[j + 1..k] == row[j..k][1..];
      Skip(row, ch, j + 1, k);
    }
  }

  /** An occurrence of `ch` adds one. */
  lemma Hit(row: string, ch: char, j: nat)
    requires j < |row| && row[j] == ch
    ensures CountChar(row, ch, j) == 1 + CountChar(row, ch, j + 1)
  {
  }

  /** One row's share of the template's count. */
  lemma SumStep(rows: seq<string>, ch: char, i: nat)
    requires i < |rows|
    ensures SumChar(rows, ch, i) == CountChar(rows[i], ch, 0) + SumChar(rows, ch, i + 1)
  {
  }

  /** Where `ch` is the only character with code `code`, counting the code
      is counting the character. */
  lemma {:induction false} RowCountChar(row: string, code: Code, ch: char, j: nat)
    requires j <= |row|
    requires forall x: char :: Char2Code(x) == Some(code) <==> x == ch
    ensures RowCount(row, code, j) == CountChar(row, ch, j)
    decreases |row| - j
  {
    if j < |row| {
      RowCountChar(row, code, ch, j + 1);
    }
  }

  /** The same over the rows from `i` on: the `count` map's entry for
      `code` is the number of `ch` characters in the template. */
  lemma {:induction false} CountCodeChar(rows: seq<string>, code: Code, ch: char, i: nat)
    requires i <= |rows|
    requires forall x: char :: Char2Code(x) == Some(code) <==> x == ch
    ensures CountCode(rows, code, i) == SumChar(rows, ch, i)
    decreases |rows| - i
  {
    if i < |rows| {
      RowCountChar(rows[i], code, ch, 0);
      CountCodeChar(rows, code, ch, i + 1);
    }
  }

  /** A well-shaped template with one `o` and as many `X` as `*`, at least
      one, passes the intended check. */
  lemma PassesFromSums(rows: seq<string>)
    requires WellShaped(rows)
    requires SumChar(rows, 'o', 0) == 1
    requires SumChar(rows, 'X', 0) == SumChar(rows, '*', 0) >= 1
    ensures SanityCheckTemplateIntended(rows) == Pass
  {
    CountCodeChar(rows, ActorCode, 'o', 0);
    CountCodeChar(rows, BlockCode, 'X', 0);
    CountCodeChar(rows, TargetCode, '*', 0);
  }

  // ---------------------------------------------------------------------
  // Tiny, Small, Medium: their rows are short enough for Dafny to count a
  // literal row by itself; each lemma lists the rows' counts and adds them
  // up.

  lemma TinyActors()
    ensures SumChar(Tiny, 'o', 0) == 1
  {
    assert |Tiny| == 6;
    assert CountChar(Tiny[0], 'o', 0) == 0;
    assert CountChar(Tiny[1], 'o', 0) == 0;
    assert CountChar(Tiny[2], 'o', 0) == 0;
    assert CountChar(Tiny[3], 'o', 0) == 0;
    assert CountChar(Tiny[4], 'o', 0) == 1;
    assert CountChar(Tiny[5], 'o', 0) == 0;
    SumStep(Tiny, 'o', 5);
    SumStep(Tiny, 'o', 4);
    SumStep(Tiny, 'o', 3);
    SumStep(Tiny, 'o', 2);
    SumStep(Tiny, 'o', 1);
    SumStep(Tiny, 'o', 0);
  }

  lemma TinyBlocks()
    ensures SumChar(Tiny, 'X', 0) == 2
  {
    assert |Tiny| == 6;
    assert CountChar(Tiny[0], 'X', 0) == 0;
    assert CountChar(Tiny[1], 'X', 0) == 0;
    assert CountChar(Tiny[2], 'X', 0) == 1;
    assert CountChar(Tiny[3], 'X', 0) == 1;
    assert CountChar(Tiny[4], 'X', 0) == 0;
    assert CountChar(Tiny[5], 'X', 0) == 0;
    SumStep(Tiny, 'X', 5);
    SumStep(Tiny, 'X', 4);
    SumStep(Tiny, 'X', 3);
    SumStep(Tiny, 'X', 2);
    SumStep(Tiny, 'X', 1);
    SumStep(Tiny, 'X', 0);
  }

  lemma TinyTargets()
    ensures SumChar(Tiny, '*', 0) == 2
  {
    assert |Tiny| == 6;
    assert CountChar(Tiny[0], '*', 0) == 0;
    assert CountChar(Tiny[1], '*', 0) == 1;
    assert CountChar(Tiny[2], '*', 0) == 0;
    assert CountChar(Tiny[3], '*', 0) == 1;
    assert CountChar(Tiny[4], '*', 0) == 0;
    assert CountChar(Tiny[5], '*', 0) == 0;
    SumStep(Tiny, '*', 5);
    SumStep(Tiny, '*', 4);
    SumStep(Tiny, '*', 3);
    SumStep(Tiny, '*', 2);
    SumStep(Tiny, '*', 1);
    SumStep(Tiny, '*', 0);
  }

  lemma SmallActors()
    ensures SumChar(Small, 'o', 0) == 1
  {
    assert |Small| == 8;
    assert CountChar(Small[0], 'o', 0) == 0;
    assert CountChar(Small[1], 'o', 0) == 0;
    assert CountChar(Small[2], 'o', 0) == 0;
    assert CountChar(Small[3], 'o', 0) == 0;
    assert CountChar(Small[4], 'o', 0) == 0;
    assert CountChar(Small[5], 'o', 0) == 0;
    assert CountChar(Small[6], 'o', 0) == 1;
    assert CountChar(Small[7], 'o', 0) == 0;
    SumStep(Small, 'o', 7);
    SumStep(Small, 'o', 6);
    SumStep(Small, 'o', 5);
    SumStep(Small, 'o', 4);
    SumStep(Small, 'o', 3);
    SumStep(Small, 'o', 2);
    SumStep(Small, 'o', 1);
    SumStep(Small, 'o', 0);
  }

  lemma SmallBlocks()
    ensures SumChar(Small, 'X', 0) == 4
  {
    assert |Small| == 8;
    assert CountChar(Small[0], 'X', 0) == 0;
    assert CountChar(Small[1], 'X', 0) == 0;
    assert CountChar(Small[2], 'X', 0) == 0;
    assert CountChar(Small[3], 'X', 0) == 2;
    assert CountChar(Small[4], 'X', 0) == 0;
    assert CountChar(Small[5], 'X', 0) == 2;
    assert CountChar(Small[6], 'X', 0) == 0;
    assert CountChar(Small[7], 'X', 0) == 0;
    SumStep(Small, 'X', 7);
    SumStep(Small, 'X', 6);
    SumStep(Small, 'X', 5);
    SumStep(Small, 'X', 4);
    SumStep(Small, 'X', 3);
    SumStep(Small, 'X', 2);
    SumStep(Small, 'X', 1);
    SumStep(Small, 'X', 0);
  }

  lemma SmallTargets()
    ensures SumChar(Small, '*', 0) == 4
  {
    assert |Small| == 8;
    assert CountChar(Small[0], '*', 0) == 0;
    assert CountChar(Small[1], '*', 0) == 1;
    assert CountChar(Small[2], '*', 0) == 1;
    assert CountChar(Small[3], '*', 0) == 1;
    assert CountChar(Small[4], '*', 0) == 0;
    assert CountChar(Small[5], '*', 0) == 1;
    assert CountChar(Small[6], '*', 0) == 0;
    assert CountChar(Small[7], '*', 0) == 0;
    SumStep(Small, '*', 7);
    SumStep(Small, '*', 6);
    SumStep(Small, '*', 5);
    SumStep(Small, '*', 4);
    SumStep(Small, '*', 3);
    SumStep(Small, '*', 2);
    SumStep(Small, '*', 1);
    SumStep(Small, '*', 0);
  }

  lemma MediumActors()
    ensures SumChar(Medium, 'o', 0) == 1
  {
    assert |Medium| == 10;
    assert CountChar(Medium[0], 'o', 0) == 0;
    assert CountChar(Medium[1], 'o', 0) == 0;
    assert CountChar(Medium[2], 'o', 0) == 0;
    assert CountChar(Medium[3], 'o', 0) == 0;
    assert CountChar(Medium[4], 'o', 0) == 0;
    assert CountChar(Medium[5], 'o', 0) == 0;
    assert CountChar(Medium[6], 'o', 0) == 0;
    assert CountChar(Medium[7], 'o', 0) == 0;
    assert CountChar(Medium[8], 'o', 0) == 1;
    assert CountChar(Medium[9], 'o', 0) == 0;
    SumStep(Medium, 'o', 9);
    SumStep(Medium, 'o', 8);
    SumStep(Medium, 'o', 7);
    SumStep(Medium, 'o', 6);
    SumStep(Medium, 'o', 5);
    SumStep(Medium, 'o', 4);
    SumStep(Medium, 'o', 3);
    SumStep(Medium, 'o', 2);
    SumStep(Medium, 'o', 1);
    SumStep(Medium, 'o', 0);
  }

  lemma MediumBlocks()
    ensures SumChar(Medium, 'X', 0) == 6
  {
    assert |Medium| == 10;
    assert CountChar(Medium[0], 'X', 0) == 0;
    assert CountChar(Medium[1], 'X', 0) == 0;
    assert CountChar(Medium[2], 'X', 0) == 0;
    assert CountChar(Medium[3], 'X', 0) == 2;
    assert CountChar(Medium[4], 'X', 0) == 0;
    assert CountChar(Medium[5], 'X', 0) == 2;
    assert CountChar(Medium[6], 'X', 0) == 0;
    assert CountChar(Medium[7], 'X', 0) == 2;
    assert CountChar(Medium[8], 'X', 0) == 0;
    assert CountChar(Medium[9], 'X', 0) == 0;
    SumStep(Medium, 'X', 9);
    SumStep(Medium, 'X', 8);
    SumStep(Medium, 'X', 7);
    SumStep(Medium, 'X', 6);
    SumStep(Medium, 'X', 5);
    SumStep(Medium, 'X', 4);
    SumStep(Medium, 'X', 3);
    SumStep(Medium, 'X', 2);
    SumStep(Medium, 'X', 1);
    SumStep(Medium, 'X', 0);
  }

  lemma MediumTargets()
    ensures SumChar(Medium, '*', 0) == 6
  {
    assert |Medium| == 10;
    assert CountChar(Medium[0], '*', 0) == 0;
    assert CountChar(Medium[1], '*', 0) == 1;
    assert CountChar(Medium[2], '*', 0) == 1;
    assert CountChar(Medium[3], '*', 0) == 1;
    assert CountChar(Medium[4], '*', 0) == 1;
    assert CountChar(Medium[5], '*', 0) == 1;
    assert CountChar(Medium[6], '*', 0) == 0;
    assert CountChar(Medium[7], '*', 0) == 1;
    assert CountChar(Medium[8], '*', 0) == 0;
    assert CountChar(Medium[9], '*', 0) == 0;
    SumStep(Medium, '*', 9);
    SumStep(Medium, '*', 8);
    SumStep(Medium, '*', 7);
    SumStep(Medium, '*', 6);
    SumStep(Medium, '*', 5);
    SumStep(Medium, '*', 4);
    SumStep(Medium, '*', 3);
    SumStep(Medium, '*', 2);
    SumStep(Medium, '*', 1);
    SumStep(Medium, '*', 0);
  }

  // ---------------------------------------------------------------------
  // Large: its 19-column rows are walked with `Skip` and `Hit`, one lemma
  // per row for the characters it lacks and one per row and character it
  // holds.

  lemma LargeRow0()
    ensures CountChar(Large[0], 'o', 0) == 0
    ensures CountChar(Large[0], 'X', 0) == 0
    ensures CountChar(Large[0], '*', 0) == 0
  {
    Skip(Large[0], 'o', 0, 19);
    Skip(Large[0], 'X', 0, 19);
    Skip(Large[0], '*', 0, 19);
  }

  lemma LargeRow1()
    ensures CountChar(Large[1], 'o', 0) == 0
    ensures CountChar(Large[1], 'X', 0) == 0
    ensures CountChar(Large[1], '*', 0) == 0
  {
    Skip(Large[1], 'o', 0, 19);
    Skip(Large[1], 'X', 0, 19);
    Skip(Large[1], '*', 0, 19);
  }

  lemma LargeRow2()
    ensures CountChar(Large[2], 'o', 0) == 0
    ensures CountChar(Large[2], 'X', 0) == 0
    ensures CountChar(Large[2], '*', 0) == 0
  {
    Skip(Large[2], 'o', 0, 19);
    Skip(Large[2], 'X', 0, 19);
    Skip(Large[2], '*', 0, 19);
  }

  lemma LargeRow3()
    ensures CountChar(Large[3], 'o', 0) == 0
    ensures CountChar(Large[3], 'X', 0) == 0
    ensures CountChar(Large[3], '*', 0) == 0
  {
    Skip(Large[3], 'o', 0, 19);
    Skip(Large[3], 'X', 0, 19);
    Skip(Large[3], '*', 0, 19);
  }

  lemma LargeRow4()
    ensures CountChar(Large[4], 'o', 0) == 0
    ensures CountChar(Large[4], 'X', 0) == 0
    ensures CountChar(Large[4], '*', 0) == 0
  {
    Skip(Large[4], 'o', 0, 19);
    Skip(Large[4], 'X', 0, 19);
    Skip(Large[4], '*', 0, 19);
  }

  lemma LargeRow5()
    ensures CountChar(Large[5], 'o', 0) == 0
    ensures CountChar(Large[5], '*', 0) == 0
  {
    Skip(Large[5], 'o', 0, 19);
    Skip(Large[5], '*', 0, 19);
  }

  lemma LargeRow6()
    ensures CountChar(Large[6], 'o', 0) == 0
    ensures CountChar(Large[6], '*', 0) == 0
  {
    Skip(Large[6], 'o', 0, 19);
    Skip(Large[6], '*', 0, 19);
  }

  lemma LargeRow7()
    ensures CountChar(Large[7], 'o', 0) == 0
    ensures CountChar(Large[7], '*', 0) == 0
  {
    Skip(Large[7], 'o', 0, 19);
    Skip(Large[7], '*', 0, 19);
  }

  lemma LargeRow8()
    ensures CountChar(Large[8], 'o', 0) == 0
    ensures CountChar(Large[8], 'X', 0) == 0
    ensures CountChar(Large[8], '*', 0) == 0
  {
    Skip(Large[8], 'o', 0, 19);
    Skip(Large[8], 'X', 0, 19);
    Skip(Large[8], '*', 0, 19);
  }

  lemma LargeRow9()
    ensures CountChar(Large[9], 'o', 0) == 0
    ensures CountChar(Large[9], 'X', 0) == 0
  {
    Skip(Large[9], 'o', 0, 19);
    Skip(Large[9], 'X', 0, 19);
  }

  lemma LargeRow10()
    ensures CountChar(Large[10], 'o', 0) == 0
  {
    Skip(Large[10], 'o', 0, 19);
  }

  lemma LargeRow11()
    ensures CountChar(Large[11], 'X', 0) == 0
  {
    Skip(Large[11], 'X', 0, 19);
  }

  lemma LargeRow12()
    ensures CountChar(Large[12], 'o', 0) == 0
    ensures CountChar(Large[12], 'X', 0) == 0
    ensures CountChar(Large[12], '*', 0) == 0
  {
    Skip(Large[12], 'o', 0, 19);
    Skip(Large[12], 'X', 0, 19);
    Skip(Large[12], '*', 0, 19);
  }

  lemma LargeRow13()
    ensures CountChar(Large[13], 'o', 0) == 0
    ensures CountChar(Large[13], 'X', 0) == 0
    ensures CountChar(Large[13], '*', 0) == 0
  {
    Skip(Large[13], 'o', 0, 19);
    Skip(Large[13], 'X', 0, 19);
    Skip(Large[13], '*', 0, 19);
  }

  lemma LargeRow14()
    ensures CountChar(Large[14], 'o', 0) == 0
    ensures CountChar(Large[14], 'X', 0) == 0
    ensures CountChar(Large[14], '*', 0) == 0
  {
    Skip(Large[14], 'o', 0, 19);
    Skip(Large[14], 'X', 0, 19);
    Skip(Large[14], '*', 0, 19);
  }

  lemma LargeRow15()
    ensures CountChar(Large[15], 'o', 0) == 0
    ensures CountChar(Large[15], 'X', 0) == 0
    ensures CountChar(Large[15], '*', 0) == 0
  {
    Skip(Large[15], 'o', 0, 19);
    Skip(Large[15], 'X', 0, 19);
    Skip(Large[15], '*', 0, 19);
  }

  lemma LargeActorsRow11()
    ensures CountChar(Large[11], 'o', 0) == 1
  {
    var row := Large[11];
    assert row == "+===+ === =o==  **|";
    Skip(row, 'o', 0, 11);
    Hit(row, 'o', 11);
    Skip(row, 'o', 12, 19);
  }

  lemma LargeActors()
    ensures SumChar(Large, 'o', 0) == 1
  {
    assert |Large| == 16;
    LargeRow0();
    LargeRow1();
    LargeRow2();
    LargeRow3();
    LargeRow4();
    LargeRow5();
    LargeRow6();
    LargeRow7();
    LargeRow8();
    LargeRow9();
    LargeRow10();
    LargeActorsRow11();
    LargeRow12();
    LargeRow13();
    LargeRow14();
    LargeRow15();
    SumStep(Large, 'o', 15);
    SumStep(Large, 'o', 14);
    SumStep(Large, 'o', 13);
    SumStep(Large, 'o', 12);
    SumStep(Large, 'o', 11);
    SumStep(Large, 'o', 10);
    SumStep(Large, 'o', 9);
    SumStep(Large, 'o', 8);
    SumStep(Large, 'o', 7);
    SumStep(Large, 'o', 6);
    SumStep(Large, 'o', 5);
    SumStep(Large, 'o', 4);
    SumStep(Large, 'o', 3);
    SumStep(Large, 'o', 2);
    SumStep(Large, 'o', 1);
    SumStep(Large, 'o', 0);
  }

  lemma LargeBlocksRow5()
    ensures CountChar(Large[5], 'X', 0) == 1
  {
    var row := Large[5];
    assert row == "    |X  |          ";
    Skip(row, 'X', 0, 5);
    Hit(row, 'X', 5);
    Skip(row, 'X', 6, 19);
  }

  lemma LargeBlocksRow6()
    ensures CountChar(Large[6], 'X', 0) == 1
  {
    var row := Large[6];
    assert row == "  +=+  X+|         ";
    Skip(row, 'X', 0, 7);
    Hit(row, 'X', 7);
    Skip(row, 'X', 8, 19);
  }

  lemma LargeBlocksRow7()
    ensures CountChar(Large[7], 'X', 0) == 2
  {
    var row := Large[7];
    assert row == "  |  X X |         ";
    Skip(row, 'X', 0, 5);
    Hit(row, 'X', 5);
    Skip(row, 'X', 6, 7);
    Hit(row, 'X', 7);
    Skip(row, 'X', 8, 19);
  }

  lemma LargeBlocksRow10()
    ensures CountChar(Large[10], 'X', 0) == 2
  {
    var row := Large[10];
    assert row == "| X  X          **|";
    Skip(row, 'X', 0, 2);
    Hit(row, 'X', 2);
    Skip(row, 'X', 3, 5);
    Hit(row, 'X', 5);
    Skip(row, 'X', 6, 19);
  }

  lemma LargeBlocks()
    ensures SumChar(Large, 'X', 0) == 6
  {
    assert |Large| == 16;
    LargeRow0();
    LargeRow1();
    LargeRow2();
    LargeRow3();
    LargeRow4();
    LargeBlocksRow5();
    LargeBlocksRow6();
    LargeBlocksRow7();
    LargeRow8();
    LargeRow9();
    LargeBlocksRow10();
    LargeRow11();
    LargeRow12();
    LargeRow13();
    LargeRow14();
    LargeRow15();
    SumStep(Large, 'X', 15);
    SumStep(Large, 'X', 14);
    SumStep(Large, 'X', 13);
    SumStep(Large, 'X', 12);
    SumStep(Large, 'X', 11);
    SumStep(Large, 'X', 10);
    SumStep(Large, 'X', 9);
    SumStep(Large, 'X', 8);
    SumStep(Large, 'X', 7);
    SumStep(Large, 'X', 6);
    SumStep(Large, 'X', 5);
    SumStep(Large, 'X', 4);
    SumStep(Large, 'X', 3);
    SumStep(Large, 'X', 2);
    SumStep(Large, 'X', 1);
    SumStep(Large, 'X', 0);
  }

  lemma LargeTargetsRow9()
    ensures CountChar(Large[9], '*', 0) == 2
  {
    var row := Large[9];
    assert row == "|   | || +===+  **|";
    Skip(row, '*', 0, 16);
    Hit(row, '*', 16);
    Skip(row, '*', 17, 17);
    Hit(row, '*', 17);
    Skip(row, '*', 18, 19);
  }

  lemma LargeTargetsRow10()
    ensures CountChar(Large[10], '*', 0) == 2
  {
    var row := Large[10];
    assert row == "| X  X          **|";
    Skip(row, '*', 0, 16);
    Hit(row, '*', 16);
    Skip(row, '*', 17, 17);
    Hit(row, '*', 17);
    Skip(row, '*', 18, 19);
  }

  lemma LargeTargetsRow11()
    ensures CountChar(Large[11], '*', 0) == 2
  {
    var row := Large[11];
    assert row == "+===+ === =o==  **|";
    Skip(row, '*', 0, 16);
    Hit(row, '*', 16);
    Skip(row, '*', 17, 17);
    Hit(row, '*', 17);
    Skip(row, '*', 18, 19);
  }

  lemma LargeTargets()
    ensures SumChar(Large, '*', 0) == 6
  {
    assert |Large| == 16;
    LargeRow0();
    LargeRow1();
    LargeRow2();
    LargeRow3();
    LargeRow4();
    LargeRow5();
    LargeRow6();
    LargeRow7();
    LargeRow8();
    LargeTargetsRow9();
    LargeTargetsRow10();
    LargeTargetsRow11();
    LargeRow12();
    LargeRow13();
    LargeRow14();
    LargeRow15();
    SumStep(Large, '*', 15);
    SumStep(Large, '*', 14);
    SumStep(Large, '*', 13);
    SumStep(Large, '*', 12);
    SumStep(Large, '*', 11);
    SumStep(Large, '*', 10);
    SumStep(Large, '*', 9);
    SumStep(Large, '*', 8);
    SumStep(Large, '*', 7);
    SumStep(Large, '*', 6);
    SumStep(Large, '*', 5);
    SumStep(Large, '*', 4);
    SumStep(Large, '*', 3);
    SumStep(Large, '*', 2);
    SumStep(Large, '*', 1);
    SumStep(Large, '*', 0);
  }

  // ---------------------------------------------------------------------
  // The shipped catalog

  /** A catalog of four templates, each passing, is checked. */
  lemma CatalogOfFour(catalog: seq<NamedTemplate>)
    requires |catalog| == 4
    requires SanityCheckTemplateIntended(catalog[0].rows) == Pass
    requires SanityCheckTemplateIntended(catalog[1].rows) == Pass
    requires SanityCheckTemplateIntended(catalog[2].rows) == Pass
    requires SanityCheckTemplateIntended(catalog[3].rows) == Pass
    ensures CatalogChecked(catalog)
  {
  }

  /** Each shipped level is rectangular, uses only legend characters,
      has one actor and as many blocks as targets, at least one. */
  lemma TinyPasses()
    ensures SanityCheckTemplateIntended(Tiny) == Pass
  {
    TinyShaped(); TinyActors(); TinyBlocks(); TinyTargets();
    PassesFromSums(Tiny);
  }

  lemma SmallPasses()
    ensures SanityCheckTemplateIntended(Small) == Pass
  {
    SmallShaped(); SmallActors(); SmallBlocks(); SmallTargets();
    PassesFromSums(Small);
  }

  lemma MediumPasses()
    ensures SanityCheckTemplateIntended(Medium) == Pass
  {
    MediumShaped(); MediumActors(); MediumBlocks(); MediumTargets();
    PassesFromSums(Medium);
  }

  lemma LargePasses()
    ensures SanityCheckTemplateIntended(Large) == Pass
  {
    LargeShaped(); LargeActors(); LargeBlocks(); LargeTargets();
    PassesFromSums(Large);
  }

  /** The catalog `gameTemplates` passes the check that `newGame` runs
      before the first game. */
  lemma ShippedTemplatesValid()
    ensures CatalogChecked(GameTemplates)
  {
    TinyPasses(); SmallPasses(); MediumPasses(); LargePasses();
    CatalogOfFour(GameTemplates);
  }

  /** On page load there is no game yet; every draw `rndInt` can return
      then starts a game on the shipped catalog, at the drawn level. */
  lemma ShippedGameStarts(draw: nat)
    requires draw < |GameTemplates|
    ensures NewGame(GameTemplates, Session(None, []), draw).Success?
    ensures SessionValid(GameTemplates, NewGame(GameTemplates, Session(None, []), draw).value)
    ensures NewGame(GameTemplates, Session(None, []), draw).value.game.value.index == draw
  {
    ShippedTemplatesValid();
    NewGameSucceeds(GameTemplates, Session(None, []), draw);
  }
}
