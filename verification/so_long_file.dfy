// From the text of a map file to the game: which texts start one, and which keys win it
// (so_long/srcs/map.c:42-101, so_long/srcs/errors.c:107-127, so_long/srcs/main.c:48-74).

module SoLongFile {
  import opened TextLines
  import opened SoLongLevel
  import opened SoLongCells
  import opened SoLongGame

  // The lines of the file.

  /** The width count_map takes from the second line. */
  function Width(lines: seq<string>): int {
    if |lines| > 1 then |lines[1]| - 1 else 0
  }

  /** Every line is w characters and a newline long, the last one w characters. */
  predicate Rectangular(lines: seq<string>, w: int) {
    forall y :: 0 <= y < |lines| ==> |lines[y]| == if y == |lines| - 1 then w else w + 1
  }

  method CountMap(lines: seq<string>) returns (mapx: int, mapy: int)
    ensures mapx == Width(lines) && mapy == |lines|
  {
    mapx, mapy := 0, 0;
    while mapy < |lines|
      invariant 0 <= mapy <= |lines| && mapx == if mapy > 1 then |lines[1]| - 1 else 0
    {
      if mapy == 1 {
        mapx := |lines[mapy]| - 1;
      }
      mapy := mapy + 1;
    }
  }

  method ProperRectangle(lines: seq<string>, mapx: int) returns (proper: bool)
    ensures proper <==> Rectangular(lines, mapx)
  {
    var y := 0;
    while y < |lines|
      invariant 0 <= y <= |lines|
      invariant forall i :: 0 <= i < y ==> |lines[i]| == if i == |lines| - 1 then mapx else mapx + 1
    {
      if y == |lines| - 1 {
        if |lines[y]| != mapx {
          return false;
        }
      } else {
        if |lines[y]| != mapx + 1 {
          return false;
        }
      }
      y := y + 1;
    }
    proper := true;
  }

  // Maps as rows of letters, and the text they are written as.

  /** Three rows or more, all of one length, of the five letters. */
  predicate IsMap(rows: seq<string>) {
    && |rows| >= 3 && rows[0] != ""
    && (forall y :: 0 <= y < |rows| ==> |rows[y]| == |rows[0]|)
    && forall y, x :: 0 <= y < |rows| && 0 <= x < |rows[y]| ==> rows[y][x] in "01CEP"
  }

  /** The lines a map is written as: a newline behind every row but the last. */
  function Written(rows: seq<string>): (lines: seq<string>)
    ensures |lines| == |rows|
  {
    seq(|rows|, y requires 0 <= y < |rows| => if y == |rows| - 1 then rows[y] else rows[y] + "\n")
  }

  /** The cells of the map among the characters of the lines. */
  predicate LetteredLines(lines: seq<string>, w: int)
    requires Rectangular(lines, w)
  {
    forall y, x :: 0 <= y < |lines| && 0 <= x < w ==> lines[y][x] in "01CEP"
  }

  lemma LettersBreakNoLine(row: string)
    requires forall x :: 0 <= x < |row| ==> row[x] in "01CEP"
    ensures '\n' !in row
  {
  }

  lemma WrittenCut(rows: seq<string>)
    requires IsMap(rows)
    ensures Cut(Written(rows))
  {
    var lines := Written(rows);
    forall y | 0 <= y < |rows| ensures if y == |rows| - 1 then Unfinished(lines[y]) else Complete(lines[y]) {
      LettersBreakNoLine(rows[y]);
      if y < |rows| - 1 {
        assert lines[y][..|lines[y]| - 1] == rows[y];
      }
    }
  }

  /** The rows of lines that pass proper_rectangle and hold only letters. */
  function RowsOf(lines: seq<string>, w: nat): (rows: seq<string>)
    requires Rectangular(lines, w)
  {
    seq(|lines|, y requires 0 <= y < |lines| => lines[y][..w])
  }

  lemma RowsWritten(lines: seq<string>, w: nat)
    requires Cut(lines) && lines != [] && w == Width(lines) && Rectangular(lines, w) && LetteredLines(lines, w)
    ensures IsMap(RowsOf(lines, w)) && Written(RowsOf(lines, w)) == lines
  {
    var rows := RowsOf(lines, w);
    var last := lines[|lines| - 1];
    assert last != [];
    assert |lines| >= 3 && w > 0;
    forall y | 0 <= y < |lines| ensures Written(rows)[y] == lines[y] {
      if y < |lines| - 1 {
        assert Complete(lines[y]);
        assert lines[y] == lines[y][..w] + "\n";
      }
    }
  }

  lemma WrittenRow(rows: seq<string>, y: nat)
    requires IsMap(rows) && y < |rows|
    ensures var line := Written(rows)[y];
      |line| == (if y == |rows| - 1 then |rows[0]| else |rows[0]| + 1) && line[..|rows[0]|] == rows[y]
  {
  }

  lemma RowsBack(rows: seq<string>)
    requires IsMap(rows)
    ensures var lines := Written(rows);
      && Width(lines) == |rows[0]| && Rectangular(lines, Width(lines))
      && LetteredLines(lines, Width(lines)) && RowsOf(lines, Width(lines)) == rows
  {
    var lines, w := Written(rows), |rows[0]|;
    WrittenRow(rows, 1);
    forall y | 0 <= y < |rows|
      ensures |lines[y]| == (if y == |rows| - 1 then w else w + 1) && lines[y][..w] == rows[y]
    {
      WrittenRow(rows, y);
    }
    hide Written;
    forall y, x | 0 <= y < |lines| && 0 <= x < w ensures lines[y][x] in "01CEP" {
      assert lines[y][x] == lines[y][..w][x];
    }
  }

  lemma WrittenBack(rows: seq<string>)
    requires IsMap(rows)
    ensures var lines := Lines(Flatten(Written(rows)));
      && lines == Written(rows) && Width(lines) == |rows[0]|
      && Rectangular(lines, Width(lines)) && LetteredLines(lines, Width(lines)) && RowsOf(lines, Width(lines)) == rows
  {
    WrittenCut(rows);
    CutUnique(Written(rows));
    RowsBack(rows);
    hide *;
  }

  /**
   * What proper_rectangle and check_invalid_char let through together: the texts of maps of
   * three rows or more, all of one length, separated by newlines.
   */
  lemma MapTextExactly(text: string)
    requires text != ""
    ensures var lines := Lines(text);
      (Rectangular(lines, Width(lines)) && LetteredLines(lines, Width(lines)))
      <==> exists rows :: IsMap(rows) && text == Flatten(Written(rows))
  {
    var lines := Lines(text);
    LinesCut(text);
    if Rectangular(lines, Width(lines)) && LetteredLines(lines, Width(lines)) {
      assert lines != [];
      RowsWritten(lines, Width(lines));
    }
    forall rows | IsMap(rows) && text == Flatten(Written(rows))
      ensures lines == Written(rows) && Rectangular(lines, Width(lines)) && LetteredLines(lines, Width(lines))
      ensures RowsOf(lines, Width(lines)) == rows
    {
      WrittenBack(rows);
    }
  }

  // The game on such a map.

  ghost function LettersAt(rows: seq<string>, c: char): set<Pos> {
    set y, x | 0 <= y < |rows| && 0 <= x < |rows[y]| && rows[y][x] == c :: Pos(y, x)
  }

  ghost function FreeAt(rows: seq<string>): set<Pos> {
    set y, x | 0 <= y < |rows| && 0 <= x < |rows[y]| && rows[y][x] != '1' :: Pos(y, x)
  }

  predicate AtBorder(rows: seq<string>, y: int, x: int)
    requires rows != []
  {
    x == 0 || x == |rows[0]| - 1 || y == 0 || y == |rows| - 1
  }

  /** Not square, coins, one player, one exit, and walls all around. */
  ghost predicate GoodMap(rows: seq<string>) {
    && IsMap(rows) && |rows| != |rows[0]|
    && |LettersAt(rows, 'C')| > 0 && |LettersAt(rows, 'P')| == 1 && |LettersAt(rows, 'E')| == 1
    && forall y, x :: 0 <= y < |rows| && 0 <= x < |rows[y]| && AtBorder(rows, y, x) ==> rows[y][x] == '1'
  }

  ghost function TheLetter(rows: seq<string>, c: char): (p: Pos)
    requires |LettersAt(rows, c)| == 1
    ensures LettersAt(rows, c) == {p}
  {
    var p :| p in LettersAt(rows, c);
    OnlyOne(LettersAt(rows, c), p);
    p
  }

  /** The level and the play at its start, as the rows show them. */
  ghost function LevelAt(rows: seq<string>): Level
    requires GoodMap(rows)
  {
    Level(FreeAt(rows), TheLetter(rows, 'E'))
  }

  ghost function StartAt(rows: seq<string>): Play
    requires GoodMap(rows)
  {
    Play(TheLetter(rows, 'P'), LettersAt(rows, 'C'), false, false, false)
  }

  ghost predicate Shows(grid: array2<char>, rows: seq<string>)
    requires IsMap(rows)
    reads grid
  {
    && grid.Length0 == |rows| && grid.Length1 == |rows[0]|
    && forall y, x :: 0 <= y < |rows| && 0 <= x < |rows[0]| ==> grid[y, x] == rows[y][x]
  }

  lemma ShownCells(grid: array2<char>, rows: seq<string>)
    requires IsMap(rows) && Shows(grid, rows)
    ensures FreeCells(grid) == FreeAt(rows) && forall c :: CellsOf(grid, c) == LettersAt(rows, c)
  {
  }

  lemma ShownGame(grid: array2<char>, rows: seq<string>)
    requires IsMap(rows) && Shows(grid, rows)
    ensures WellFormed(grid) <==> GoodMap(rows)
    ensures GoodMap(rows) ==> LevelOf(grid) == LevelAt(rows) && StartOf(grid) == StartAt(rows)
  {
    ShownCells(grid, rows);
    hide CellsOf, FreeCells, LettersAt, FreeAt;
    assert Lettered(grid);
    if GoodMap(rows) {
      assert WellFormed(grid);
      assert {TheCell(grid, 'P')} == {TheLetter(rows, 'P')} && {TheCell(grid, 'E')} == {TheLetter(rows, 'E')};
      assert TheCell(grid, 'P') in {TheLetter(rows, 'P')} && TheCell(grid, 'E') in {TheLetter(rows, 'E')};
    }
  }

  method LoadMap(lines: seq<string>, w: nat) returns (grid: array2<char>)
    requires Rectangular(lines, w)
    ensures fresh(grid) && grid.Length0 == |lines| && grid.Length1 == w
    ensures forall y, x :: 0 <= y < |lines| && 0 <= x < w ==> grid[y, x] == lines[y][x]
  {
    grid := new char[|lines|, w]((y, x) requires 0 <= y < |lines| && 0 <= x < w => lines[y][x]);
  }

  /** The text is that of a map, with all the checks ask of one, that some keys win. */
  ghost predicate Winning(text: string, rows: seq<string>) {
    text == Flatten(Written(rows)) && GoodMap(rows) && Winnable(LevelAt(rows), StartAt(rows))
  }

  /**
   * The program on the text of a file and a sequence of key presses: a game starts exactly on
   * the texts of maps that can be won, and it is won exactly when the keys win it.
   */
  method Run(text: string, keys: seq<int>) returns (started: bool, won: bool)
    requires '\0' !in text
    ensures started <==> exists rows :: Winning(text, rows)
    ensures won ==> started
    ensures forall rows :: Winning(text, rows) ==> (won <==> PressAll(LevelAt(rows), StartAt(rows), keys).won)
  {
    var lines := Lines(text);
    LinesCut(text);
    var mapx, mapy := CountMap(lines);
    var proper := ProperRectangle(lines, mapx);
    forall rows | Winning(text, rows)
      ensures proper && lines != [] && LetteredLines(lines, mapx) && RowsOf(lines, mapx) == rows
    {
      WrittenBack(rows);
    }
    if !proper || lines == [] {
      return false, false;
    }
    var grid := LoadMap(lines, mapx);
    ghost var rows := RowsOf(lines, mapx);
    if LetteredLines(lines, mapx) {
      RowsWritten(lines, mapx);
      assert Shows(grid, rows);
      ShownGame(grid, rows);
      if WellFormed(grid) {
        AcceptedIffWinnable(grid);
        assert Winning(text, rows) <==> Accepted(grid);
      }
    } else {
      assert !Lettered(grid);
    }
    started, won := SoLong(grid, keys);
  }

  // One small map, played through.

  const ROW: seq<string> := ["11111", "1PCE1", "11111"]

  lemma RowCells()
    ensures LettersAt(ROW, 'P') == {Pos(1, 1)} && LettersAt(ROW, 'C') == {Pos(1, 2)}
    ensures LettersAt(ROW, 'E') == {Pos(1, 3)}
    ensures FreeAt(ROW) == {Pos(1, 1), Pos(1, 2), Pos(1, 3)}
  {
    assert ROW[0] == "11111" && ROW[1] == "1PCE1" && ROW[2] == "11111";
  }

  lemma RowGood()
    ensures IsMap(ROW) && GoodMap(ROW)
  {
    RowCells();
    hide LettersAt, FreeAt;
    assert ROW[0] == "11111" && ROW[1] == "1PCE1" && ROW[2] == "11111";
  }

  lemma TwoKeys(level: Level, s: Play, j: int, k: int)
    ensures PressAll(level, s, [j, k]) == Press(level, Press(level, s, j), k)
  {
    assert [j, k][..1] == [j] && [j][..0] == [];
    assert PressAll(level, s, [j]) == Press(level, s, j);
    hide Press;
  }

  lemma RowText()
    ensures "11111\n1PCE1\n11111" == Flatten(Written(ROW))
  {
    var lines := Written(ROW);
    assert ROW[0] == ROW[2] == "11111" && ROW[1] == "1PCE1";
    assert "11111" + "\n" == "11111\n" && "1PCE1" + "\n" == "1PCE1\n";
    assert lines[0] == "11111\n" && lines[1] == "1PCE1\n" && lines[2] == "11111";
    assert lines == ["11111\n", "1PCE1\n", "11111"];
    assert lines[1..] == ["1PCE1\n", "11111"] && lines[1..][1..] == ["11111"] && lines[1..][1..][1..] == [];
    assert Flatten(lines[1..][1..]) == "11111" + "";
    assert Flatten(lines[1..]) == "1PCE1\n" + Flatten(lines[1..][1..]);
    assert Flatten(lines) == "11111\n" + Flatten(lines[1..]);
  }

  lemma RowKeys(level: Level, start: Play)
    requires level == Level({Pos(1, 1), Pos(1, 2), Pos(1, 3)}, Pos(1, 3))
    requires start == Play(Pos(1, 1), {Pos(1, 2)}, false, false, false)
    ensures PressAll(level, start, [100, 100]).won && PressAll(level, start, [65363, 100]).won
    ensures !PressAll(level, start, [97, 97]).won
  {
    TwoKeys(level, start, 100, 100);
    TwoKeys(level, start, 65363, 100);
    TwoKeys(level, start, 97, 97);
    hide PressAll;
  }

  /**
   * The map of one row, player, coin and exit from left to right: it starts a game, the right key
   * twice wins it, by either of its codes, and the left key twice does not.
   */
  lemma RowPlayed()
    ensures IsMap(ROW) && GoodMap(ROW)
    ensures Winning("11111\n1PCE1\n11111", ROW)
    ensures PressAll(LevelAt(ROW), StartAt(ROW), [100, 100]).won
    ensures PressAll(LevelAt(ROW), StartAt(ROW), [65363, 100]).won
    ensures !PressAll(LevelAt(ROW), StartAt(ROW), [97, 97]).won
  {
    RowGood();
    RowCells();
    var level, start := LevelAt(ROW), StartAt(ROW);
    assert TheLetter(ROW, 'P') in {TheLetter(ROW, 'P')} && TheLetter(ROW, 'E') in {TheLetter(ROW, 'E')};
    hide LettersAt, FreeAt, GoodMap, IsMap;
    assert level == Level({Pos(1, 1), Pos(1, 2), Pos(1, 3)}, Pos(1, 3));
    assert start == Play(Pos(1, 1), {Pos(1, 2)}, false, false, false);
    RowKeys(level, start);
    RowText();
    assert Winnable(level, start);
  }
}
