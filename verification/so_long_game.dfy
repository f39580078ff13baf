// The so_long program on its game struct: map validation
// (so_long/srcs/errors.c, so_long/srcs/errors2.c, so_long/srcs/map.c, so_long/srcs/path.c)
// and the key-driven game (so_long/srcs/game.c, so_long/srcs/main.c).

module SoLongGame {
  import opened Collections
  import opened SoLongLevel
  import opened SoLongCells

  predicate OnEdge(a: array2<char>, y: int, x: int) {
    x == 0 || x == a.Length1 - 1 || y == 0 || y == a.Length0 - 1
  }

  ghost predicate Bordered(a: array2<char>)
    reads a
  {
    forall y, x :: 0 <= y < a.Length0 && 0 <= x < a.Length1 && OnEdge(a, y, x) ==> a[y, x] == '1'
  }

  ghost predicate Lettered(a: array2<char>)
    reads a
  {
    forall y, x :: 0 <= y < a.Length0 && 0 <= x < a.Length1 ==> a[y, x] in "01CEP"
  }

  /** What the checks other than the path check ask of a map. */
  ghost predicate WellFormed(a: array2<char>)
    reads a
  {
    && a.Length0 != a.Length1
    && |CellsOf(a, 'C')| > 0 && |CellsOf(a, 'P')| == 1 && |CellsOf(a, 'E')| == 1
    && Lettered(a) && Bordered(a)
  }

  /** The door and every coin can be walked to the player. */
  ghost predicate Reachable(a: array2<char>, door: Pos, here: Pos)
    reads a
  {
    && Joined(FreeCells(a), door, here)
    && forall p :: p in CellsOf(a, 'C') ==> Joined(FreeCells(a), p, here)
  }

  /** now is the last of the cells; it is still was when there are none. */
  ghost predicate LastOf(cells: set<Pos>, was: Pos, now: Pos) {
    if cells == {} then now == was else now in cells && forall p :: p in cells ==> UpTo(p, now)
  }

  lemma LastGrows(a: array2<char>, c: char, y: int, x: int, was: Pos, now: Pos)
    requires 0 <= y < a.Length0 && 0 <= x < a.Length1 && LastOf(Before(a, c, y, x), was, now)
    ensures LastOf(Before(a, c, y, x + 1), was, if a[y, x] == c then Pos(y, x) else now)
  {
    BeforeNext(a, c, y, x);
    BeforeEarlier(a, c, y, x);
    hide Before;
  }

  /** The one cell holding c. */
  ghost function TheCell(a: array2<char>, c: char): (p: Pos)
    requires |CellsOf(a, c)| == 1
    reads a
    ensures CellsOf(a, c) == {p}
  {
    var p :| p in CellsOf(a, c);
    OnlyOne(CellsOf(a, c), p);
    p
  }

  lemma OnlyOne<T>(s: set<T>, x: T)
    requires |s| == 1 && x in s
    ensures s == {x}
  {
    SubsetSize({x}, s);
  }

  /** The maps so_long starts a game on. */
  ghost predicate Accepted(a: array2<char>)
    reads a
  {
    WellFormed(a) && Reachable(a, TheCell(a, 'E'), TheCell(a, 'P'))
  }

  ghost function LevelOf(a: array2<char>): Level
    requires WellFormed(a)
    reads a
  {
    Level(FreeCells(a), TheCell(a, 'E'))
  }

  /** The play as it stands when the window opens. */
  ghost function StartOf(a: array2<char>): Play
    requires WellFormed(a)
    reads a
  {
    Play(TheCell(a, 'P'), CellsOf(a, 'C'), false, false, false)
  }

  lemma StartSound(a: array2<char>)
    requires WellFormed(a)
    ensures Sound(LevelOf(a), StartOf(a))
  {
    var p, e := TheCell(a, 'P'), TheCell(a, 'E');
    assert p in CellsOf(a, 'P') && e in CellsOf(a, 'E');
  }

  /** The map check agrees with the game: a well-formed map is accepted exactly when some keys win it. */
  lemma AcceptedIffWinnable(a: array2<char>)
    requires WellFormed(a)
    ensures Accepted(a) <==> Winnable(LevelOf(a), StartOf(a))
  {
    var free, p, e := FreeCells(a), TheCell(a, 'P'), TheCell(a, 'E');
    StartSound(a);
    WinnableIffJoined(LevelOf(a), StartOf(a));
    forall q ensures Joined(free, p, q) <==> Joined(free, q, p) {
      if Joined(free, p, q) { JoinedSymmetric(free, p, q); }
      if Joined(free, q, p) { JoinedSymmetric(free, q, p); }
    }
  }

  class Game {
    const grid: array2<char>
    var val: array2<char>
    var px: int
    var py: int
    var doorx: int
    var doory: int
    var opendoor: int
    var countc: int
    var countp: int
    var counte: int
    var error: int
    var victory: int
    var exited: bool

    ghost function Here(): Pos
      reads this
    {
      Pos(py, px)
    }

    ghost function Door(): Pos
      reads this
    {
      Pos(doory, doorx)
    }

    /**
     * From an unmarked grid this decides whether (y, x) and the player are joined.
     * In general: true means joined; false means everything newly marked is sealed off.
     */
    method RecursivePath(y: int, x: int) returns (found: bool)
      modifies val
      ensures FreeCells(val) == old(FreeCells(val))
      ensures old(Marked(val)) <= Marked(val)
      ensures found ==> Joined(FreeCells(val), Pos(y, x), Pos(py, px))
      ensures !found ==> Pos(y, x) in FreeCells(val) ==> Pos(y, x) in Marked(val)
      ensures !found ==> Settled(FreeCells(val), old(Marked(val)), Marked(val), Pos(py, px))
      decreases FreeCells(val) - Marked(val), 0
    {
      if y < 0 || y >= val.Length0 || x < 0 || x >= val.Length1 {
        return false;
      }
      if val[y, x] == '1' {
        return false;
      }
      if val[y, x] == '2' {
        return false;
      }
      ghost var free, here, before := FreeCells(val), Pos(y, x), Marked(val);
      if px == x && py == y {
        JoinedSelf(free, here);
        return true;
      }
      val[y, x] := '2';
      MarkCell(val, y, x, free, before);
      found := Spread(y, x, before);
    }

    /** The four calls of recursive_path on a cell just marked, tried in order until one succeeds. */
    method Spread(y: int, x: int, ghost before: set<Pos>) returns (found: bool)
      requires Pos(y, x) in FreeCells(val) && Pos(y, x) != Pos(py, px)
      requires Marked(val) == before + {Pos(y, x)}
      modifies val
      ensures FreeCells(val) == old(FreeCells(val))
      ensures old(Marked(val)) <= Marked(val)
      ensures found ==> Joined(FreeCells(val), Pos(y, x), Pos(py, px))
      ensures !found ==> Settled(FreeCells(val), before, Marked(val), Pos(py, px))
      decreases FreeCells(val) - Marked(val), 1
    {
      hide FreeCells, Marked, CellsOf, Joined, Settled, SealedIn;
      ghost var free, player, here := FreeCells(val), Pos(py, px), Pos(y, x);
      ghost var m := Marked(val);
      found := RecursivePath(y + 1, x);
      if found {
        JoinedNext(free, here, Pos(y + 1, x), player);
        return;
      }
      m := Marked(val);
      found := RecursivePath(y, x + 1);
      if found {
        JoinedNext(free, here, Pos(y, x + 1), player);
        return;
      }
      SettledTwice(free, before + {here}, m, Marked(val), player);
      m := Marked(val);
      found := RecursivePath(y - 1, x);
      if found {
        JoinedNext(free, here, Pos(y - 1, x), player);
        return;
      }
      SettledTwice(free, before + {here}, m, Marked(val), player);
      m := Marked(val);
      found := RecursivePath(y, x - 1);
      if found {
        JoinedNext(free, here, Pos(y, x - 1), player);
        return;
      }
      SettledTwice(free, before + {here}, m, Marked(val), player);
      SettledHere(free, before, Marked(val), player, here);
    }

    method ResetVal()
      modifies val
      ensures Marked(val) == {} && FreeCells(val) == old(FreeCells(val))
    {
      var y := 0;
      while y < val.Length0
        invariant 0 <= y <= val.Length0
        invariant forall i, j :: 0 <= i < val.Length0 && 0 <= j < val.Length1 ==>
          val[i, j] == if i < y && old(val[i, j]) == '2' then '0' else old(val[i, j])
      {
        var x := 0;
        while x < val.Length1
          invariant 0 <= x <= val.Length1
          invariant forall i, j :: 0 <= i < val.Length0 && 0 <= j < val.Length1 ==>
            val[i, j] == if (i < y || (i == y && j < x)) && old(val[i, j]) == '2' then '0' else old(val[i, j])
        {
          if val[y, x] == '2' {
            val[y, x] := '0';
          }
          x := x + 1;
        }
        y := y + 1;
      }
    }

    /** One flood fill on an unmarked grid, reset afterwards: exact, and the grid is unmarked again. */
    method Reaches(y: int, x: int) returns (found: bool)
      requires Marked(val) == {}
      modifies val
      ensures Marked(val) == {} && FreeCells(val) == old(FreeCells(val))
      ensures found <==> Joined(FreeCells(val), Pos(y, x), Here())
    {
      found := RecursivePath(y, x);
      ghost var free, marked := FreeCells(val), Marked(val);
      if !found && Pos(y, x) in free {
        assert SealedIn(free, marked, Pos(y, x));
        assert Here() !in marked;
        ClosedKeepsOut(free, marked, Pos(y, x), Here());
      }
      ResetVal();
    }

    method CountLetter(c: char) returns (count: nat)
      ensures count == |CellsOf(grid, c)|
    {
      hide Before, CellsOf;
      count := 0;
      var y := 0;
      BeforeAll(grid, c);
      while y < grid.Length0
        invariant 0 <= y <= grid.Length0 && count == |Before(grid, c, y, 0)|
      {
        var x := 0;
        while x < grid.Length1
          invariant 0 <= x <= grid.Length1 && count == |Before(grid, c, y, x)|
        {
          BeforeNext(grid, c, y, x);
          if grid[y, x] == c {
            count := count + 1;
          }
          x := x + 1;
        }
        BeforeRow(grid, c, y);
        y := y + 1;
      }
    }

    method CheckDoubles(c: char)
      modifies this`error
      ensures error == if |CellsOf(grid, c)| > 1 then 1 else old(error)
    {
      var count := CountLetter(c);
      if count > 1 {
        error := 1;
      }
    }

    method CheckInvalidChar()
      modifies this`error
      ensures error == if Lettered(grid) then old(error) else 1
    {
      var wrong := false;
      var y := 0;
      while y < grid.Length0
        invariant 0 <= y <= grid.Length0 && error == old(error)
        invariant !wrong <==> forall i, j :: 0 <= i < y && 0 <= j < grid.Length1 ==> grid[i, j] in "01CEP"
      {
        var x := 0;
        while x < grid.Length1
          invariant 0 <= x <= grid.Length1 && error == old(error)
          invariant !wrong <==> forall i, j ::
            0 <= i <= y && 0 <= j < grid.Length1 && (i < y || j < x) ==> grid[i, j] in "01CEP"
        {
          if grid[y, x] !in "01CEP" {
            wrong := true;
          }
          x := x + 1;
        }
        y := y + 1;
      }
      if wrong {
        error := 1;
      }
    }

    method CheckBorders()
      modifies this`error
      ensures error == if Bordered(grid) then old(error) else 1
    {
      var y := 0;
      ghost var closed := true;
      while y < grid.Length0
        invariant 0 <= y <= grid.Length0 && error == if closed then old(error) else 1
        invariant closed <==> forall i, j ::
          0 <= i < y && 0 <= j < grid.Length1 && OnEdge(grid, i, j) ==> grid[i, j] == '1'
      {
        var x := 0;
        while x < grid.Length1
          invariant 0 <= x <= grid.Length1 && error == if closed then old(error) else 1
          invariant closed <==> forall i, j :: 
            0 <= i <= y && 0 <= j < grid.Length1 && (i < y || j < x) && OnEdge(grid, i, j) ==> grid[i, j] == '1'
        {
          if OnEdge(grid, y, x) && grid[y, x] != '1' {
            error := 1;
            closed := false;
          }
          x := x + 1;
        }
        y := y + 1;
      }
    }

    /** Ends on the last 'P' and the last 'E' of the map, in reading order. */
    method InitPos()
      modifies this`px, this`py, this`doorx, this`doory
      ensures LastOf(CellsOf(grid, 'P'), old(Here()), Here())
      ensures LastOf(CellsOf(grid, 'E'), old(Door()), Door())
    {
      hide Before, CellsOf, UpTo;
      BeforeAll(grid, 'P');
      BeforeAll(grid, 'E');
      var y := 0;
      while y < grid.Length0
        invariant 0 <= y <= grid.Length0
        invariant LastOf(Before(grid, 'P', y, 0), old(Here()), Here())
        invariant LastOf(Before(grid, 'E', y, 0), old(Door()), Door())
      {
        var x := 0;
        while x < grid.Length1
          invariant 0 <= x <= grid.Length1
          invariant LastOf(Before(grid, 'P', y, x), old(Here()), Here())
          invariant LastOf(Before(grid, 'E', y, x), old(Door()), Door())
        {
          LastGrows(grid, 'P', y, x, old(Here()), Here());
          LastGrows(grid, 'E', y, x, old(Door()), Door());
          hide LastOf;
          if grid[y, x] == 'P' {
            px := x;
            py := y;
          } else if grid[y, x] == 'E' {
            doorx := x;
            doory := y;
          }
          x := x + 1;
        }
        BeforeRow(grid, 'P', y);
        BeforeRow(grid, 'E', y);
        y := y + 1;
      }
    }

    method SimpleChecks()
      modifies this`error
      ensures error ==
        if countc == 0 || countp == 0 || counte == 0 || grid.Length0 == grid.Length1 then 1 else old(error)
    {
      if countc == 0 {
        error := 1;
      }
      if countp == 0 {
        error := 1;
      }
      if counte == 0 {
        error := 1;
      }
      if grid.Length1 == grid.Length0 {
        error := 1;
      }
    }

    /** The positions of the coins, row by row; stops as soon as countc of them are found. */
    method FillCtab() returns (ctab: array<Pos>)
      requires countc == |CellsOf(val, 'C')|
      ensures fresh(ctab) && ctab.Length == countc
      ensures forall p :: p in CellsOf(val, 'C') <==> p in ctab[..]
    {
      hide Before, CellsOf, Collected;
      ctab := new Pos[countc];
      var c, y := 0, 0;
      ghost var cy, cx, got: seq<Pos> := 0, 0, [];
      BeforeAll(val, 'C');
      CollectedNone();
      while y < val.Length0 && c != countc
        invariant 0 <= y <= val.Length0 && 0 <= c <= countc
        invariant c != countc ==> cy == y && cx == 0
        invariant |got| == c && ctab[..c] == got && Collected(got, Before(val, 'C', cy, cx))
      {
        var x := 0;
        while x < val.Length1 && c != countc
          invariant 0 <= x <= val.Length1 && 0 <= c <= countc && cy == y && cx == x
          invariant |got| == c && ctab[..c] == got && Collected(got, Before(val, 'C', cy, cx))
        {
          BeforeNext(val, 'C', y, x);
          if val[y, x] == 'C' {
            CollectedNext(got, Before(val, 'C', y, x), Pos(y, x));
            ctab[c] := Pos(y, x);
            got := got + [Pos(y, x)];
            c := c + 1;
          }
          x := x + 1;
          cx := x;
        }
        if c != countc {
          BeforeRow(val, 'C', y);
          cy, cx := y + 1, 0;
        }
        y := y + 1;
      }
      BeforeSome(val, 'C', cy, cx);
      CollectedSize(got, Before(val, 'C', cy, cx));
      SubsetSize(Before(val, 'C', cy, cx), CellsOf(val, 'C'));
      CollectedSize(got, CellsOf(val, 'C'));
      assert ctab[..] == got;
    }

    ghost predicate AllReached(n: nat, pos: array<Pos>)
      requires n <= pos.Length
      reads this, val, pos
    {
      forall k :: 0 <= k < n ==> Joined(FreeCells(val), pos[k], Here())
    }

    method Path(pos: array<Pos>)
      requires Marked(val) == {} && pos.Length == countc && error in {0, 1}
      modifies this`error, val
      ensures error in {0, 1}
      ensures error == 0 <==> old(error) == 0 && old(Joined(FreeCells(val), Door(), Here()) && AllReached(countc, pos))
    {
      hide Joined, FreeCells, Marked;
      ghost var free := FreeCells(val);
      var i := 0;
      var found := Reaches(doory, doorx);
      if !found {
        error := 1;
      }
      while i < countc && error != 1
        invariant 0 <= i <= countc && Marked(val) == {} && FreeCells(val) == free && error in {0, 1}
        invariant error == 0 <==>
          old(error) == 0 && Joined(free, Door(), Here()) && forall k :: 0 <= k < i ==> Joined(free, pos[k], Here())
      {
        found := Reaches(pos[i].y, pos[i].x);
        if !found {
          error := 1;
        }
        i := i + 1;
      }
    }

    /** copy_array on the map, then the path check on the copy. */
    method CheckPath()
      requires countc == |CellsOf(grid, 'C')| && error in {0, 1}
      requires CellsOf(grid, '2') == {}
      modifies this`error, this`val
      ensures error in {0, 1}
      ensures error == 0 <==> old(error) == 0 && Reachable(grid, Door(), Here())
    {
      val := new char[grid.Length0, grid.Length1](
        (i, j) requires 0 <= i < grid.Length0 && 0 <= j < grid.Length1 reads grid => grid[i, j]);
      CopiedCells(grid, val);
      assert Marked(val) == CellsOf(val, '2');
      hide CellsOf, FreeCells, Marked, Joined;
      var ctab := FillCtab();
      EachReached(ctab[..], CellsOf(grid, 'C'), FreeCells(grid), Here());
      assert forall k :: 0 <= k < countc ==> ctab[k] == ctab[..][k];
      assert AllReached(countc, ctab) <==> forall p :: p in CellsOf(grid, 'C') ==> Joined(FreeCells(grid), p, Here());
      Path(ctab);
    }

    /** init_all, and the counts read_map takes. */
    constructor (grid: array2<char>)
      ensures this.grid == grid
      ensures error == 0 && victory == 0 && opendoor == 0 && !exited
      ensures countc == |CellsOf(grid, 'C')| && countp == |CellsOf(grid, 'P')| && counte == |CellsOf(grid, 'E')|
    {
      this.grid := grid;
      val := grid;
      error, victory, opendoor, exited := 0, 0, 0, false;
      px, py, doorx, doory := 0, 0, 0, 0;
      new;
      countc := CountLetter('C');
      countp := CountLetter('P');
      counte := CountLetter('E');
    }

    method CheckMap()
      requires error == 0 && countc == |CellsOf(grid, 'C')|
      requires countp == |CellsOf(grid, 'P')| && counte == |CellsOf(grid, 'E')|
      modifies this`error, this`val, this`px, this`py, this`doorx, this`doory
      ensures error in {0, 1}
      ensures error == 0 <==> Accepted(grid)
      ensures error == 0 ==> Here() == TheCell(grid, 'P') && Door() == TheCell(grid, 'E')
    {
      hide CellsOf, FreeCells, Bordered, Reachable, OnEdge;
      CheckDoubles('E');
      CheckDoubles('P');
      CheckInvalidChar();
      InitPos();
      SimpleChecks();
      CheckBorders();
      if error != 1 {
        assert WellFormed(grid);
        NoCells(grid, '2');
        CheckPath();
      }
    }

    // The game.

    ghost predicate Playing()
      reads this, grid
    {
      && Bordered(grid) && victory in {0, 1} && opendoor in {0, 1}
      && countc == |CellsOf(grid, 'C')|
      && Sound(Board(), Now())
    }

    ghost function Board(): Level
      reads this, grid
    {
      Level(FreeCells(grid), Door())
    }

    ghost function Now(): Play
      reads this, grid
    {
      Play(Here(), CellsOf(grid, 'C'), opendoor == 1, exited, victory == 1)
    }

    /** Where no move leads. */
    predicate Wall(y: int, x: int)
      reads this, grid
    {
      !(0 <= y < grid.Length0 && 0 <= x < grid.Length1) || grid[y, x] == '1'
    }

    method CloseWin()
      modifies this`victory, this`exited
      ensures exited && victory == if Here() == Door() && opendoor == 1 then 1 else old(victory)
    {
      if px == doorx && py == doory && opendoor == 1 {
        victory := 1;
      }
      exited := true;
    }

    method RoadToVictory()
      modifies this`opendoor
      ensures opendoor == if countc == 0 then 1 else old(opendoor)
    {
      if countc == 0 {
        opendoor := 1;
      }
    }

    /** A coin is taken off the map: a free cell is left, the border stands, the count follows. */
    method CollectCoin()
      requires Bordered(grid) && countc == |CellsOf(grid, 'C')| && Inside(grid, Here()) && grid[py, px] == 'C'
      modifies this`countc, grid
      ensures Bordered(grid) && FreeCells(grid) == old(FreeCells(grid))
      ensures CellsOf(grid, 'C') == old(CellsOf(grid, 'C')) - {Here()} && Here() in old(CellsOf(grid, 'C'))
      ensures countc == |CellsOf(grid, 'C')|
    {
      ghost var free, coins := FreeCells(grid), CellsOf(grid, 'C');
      countc := countc - 1;
      grid[py, px] := '0';
      TakeCoin(grid, py, px, free, coins);
    }

    /** The second half of each move, once the player stands on the new cell. */
    method Enter(ghost was: Play, ghost key: int)
      requires Bordered(grid) && victory in {0, 1} && opendoor in {0, 1} && countc == |CellsOf(grid, 'C')|
      requires Sound(Board(), was) && !was.over && IsMove(key)
      requires Here() == Target(was.pos, key) && Here() in FreeCells(grid)
      requires Now() == was.(pos := Here())
      modifies this`victory, this`exited, this`countc, this`opendoor, grid
      ensures Playing() && Board() == old(Board()) && Now() == Press(Board(), was, key)
    {
      hide CellsOf, FreeCells, Bordered, Press, Sound, Target, IsMove;
      AtCell(grid, Here(), 'C');
      PressSound(Board(), was, key);
      PressMove(Board(), was, key);
      if px == doorx && py == doory && opendoor == 1 {
        CloseWin();
        return;
      }
      if grid[py, px] == 'C' {
        CollectCoin();
        RoadToVictory();
      }
    }

    method MoveL()
      requires Playing() && !exited
      modifies this`px, this`victory, this`exited, this`countc, this`opendoor, grid
      ensures Playing() && Board() == old(Board()) && Now() == Press(Board(), old(Now()), LEFT)
      ensures py == old(py) && px == old(px) - if old(Wall(py, px - 1)) then 0 else 1
    {
      if grid[py, px - 1] != '1' {
        ghost var was := Now();
        px := px - 1;
        Enter(was, LEFT);
      }
    }

    method MoveR()
      requires Playing() && !exited
      modifies this`px, this`victory, this`exited, this`countc, this`opendoor, grid
      ensures Playing() && Board() == old(Board()) && Now() == Press(Board(), old(Now()), RIGHT)
      ensures py == old(py) && px == old(px) + if old(Wall(py, px + 1)) then 0 else 1
    {
      if grid[py, px + 1] != '1' {
        ghost var was := Now();
        px := px + 1;
        Enter(was, RIGHT);
      }
    }

    method MoveU()
      requires Playing() && !exited
      modifies this`py, this`victory, this`exited, this`countc, this`opendoor, grid
      ensures Playing() && Board() == old(Board()) && Now() == Press(Board(), old(Now()), UP)
      ensures px == old(px) && py == old(py) - if old(Wall(py - 1, px)) then 0 else 1
    {
      if grid[py - 1, px] != '1' {
        ghost var was := Now();
        py := py - 1;
        Enter(was, UP);
      }
    }

    method MoveD()
      requires Playing() && !exited
      modifies this`py, this`victory, this`exited, this`countc, this`opendoor, grid
      ensures Playing() && Board() == old(Board()) && Now() == Press(Board(), old(Now()), DOWN)
      ensures px == old(px) && py == old(py) + if old(Wall(py + 1, px)) then 0 else 1
    {
      if grid[py + 1, px] != '1' {
        ghost var was := Now();
        py := py + 1;
        Enter(was, DOWN);
      }
    }

    method PressEsc()
      requires Playing() && !exited
      modifies this`victory, this`exited
      ensures Playing() && Board() == old(Board()) && Now() == Press(Board(), old(Now()), ESC)
    {
      CloseWin();
    }

    method KPress(key: int)
      requires Playing() && !exited
      modifies this`px, this`py, this`victory, this`exited, this`countc, this`opendoor, grid
      ensures Playing() && Board() == old(Board()) && Now() == Press(Board(), old(Now()), key)
      ensures key == 97 || key == 65361 ==>
        py == old(py) && px == old(px) - if old(Wall(py, px - 1)) then 0 else 1
      ensures key == 100 || key == 65363 ==>
        py == old(py) && px == old(px) + if old(Wall(py, px + 1)) then 0 else 1
      ensures key == 119 || key == 65362 ==>
        px == old(px) && py == old(py) - if old(Wall(py - 1, px)) then 0 else 1
      ensures key == 115 || key == 65364 ==>
        px == old(px) && py == old(py) + if old(Wall(py + 1, px)) then 0 else 1
      ensures key !in {97, 65361, 100, 65363, 119, 65362, 115, 65364} ==> px == old(px) && py == old(py)
    {
      PressAliases(Board(), Now(), key);
      hide CellsOf, FreeCells, Bordered, Sound, Press;
      if key == ESC {
        PressEsc();
      } else if key == LEFT || key == LEFT2 {
        MoveL();
      } else if key == RIGHT || key == RIGHT2 {
        MoveR();
      } else if key == UP || key == UP2 {
        MoveU();
      } else if key == DOWN || key == DOWN2 {
        MoveD();
      }
    }

    /** mlx_loop: keys are handled until the process exits. */
    method Loop(keys: seq<int>)
      requires Playing() && !exited
      modifies this`px, this`py, this`victory, this`exited, this`countc, this`opendoor, grid
      ensures Playing() && Board() == old(Board()) && Now() == PressAll(Board(), old(Now()), keys)
    {
      hide FreeCells, CellsOf, Press, Sound;
      var i := 0;
      while i < |keys| && !exited
        invariant 0 <= i <= |keys| && Playing() && Board() == old(Board())
        invariant Now() == PressAll(Board(), old(Now()), keys[..i])
      {
        KPress(keys[i]);
        assert keys[..i + 1][..i] == keys[..i];
        i := i + 1;
      }
      PressOver(Board(), old(Now()), keys, i);
    }
  }

  /** A key that moves onto a free cell, case by case. */
  lemma PressMove(level: Level, s: Play, key: int)
    requires !s.over && IsMove(key) && Target(s.pos, key) in level.free
    ensures var t := s.(pos := Target(s.pos, key));
      Press(level, s, key) ==
        if t.pos == level.door && t.open then t.(over := true, won := true)
        else if t.pos in t.coins then t.(coins := t.coins - {t.pos}, open := t.open || t.coins - {t.pos} == {})
        else t
  {
    var t := s.(pos := Target(s.pos, key));
    if t.pos in t.coins {
      assert t.coins == {t.pos} <==> t.coins - {t.pos} == {};
    }
  }

  lemma AtCell(a: array2<char>, p: Pos, c: char)
    requires p in FreeCells(a)
    ensures Inside(a, p) && (a[p.y, p.x] == c <==> p in CellsOf(a, c))
  {
  }

  lemma EachReached(list: seq<Pos>, cells: set<Pos>, free: set<Pos>, here: Pos)
    requires forall p :: p in cells <==> p in list
    ensures (forall k :: 0 <= k < |list| ==> Joined(free, list[k], here))
       <==> forall p :: p in cells ==> Joined(free, p, here)
  {
    if forall p :: p in cells ==> Joined(free, p, here) {
      forall k | 0 <= k < |list| ensures Joined(free, list[k], here) {
        assert list[k] in cells;
      }
    }
  }

  /** Each arrow key acts as its letter; keys without a meaning do nothing. */
  lemma PressAliases(level: Level, s: Play, key: int)
    ensures key == LEFT2 ==> Press(level, s, key) == Press(level, s, LEFT)
    ensures key == RIGHT2 ==> Press(level, s, key) == Press(level, s, RIGHT)
    ensures key == UP2 ==> Press(level, s, key) == Press(level, s, UP)
    ensures key == DOWN2 ==> Press(level, s, key) == Press(level, s, DOWN)
    ensures !IsMove(key) && key != ESC ==> Press(level, s, key) == s
  {
  }

  lemma {:induction false} PressOver(level: Level, s: Play, keys: seq<int>, i: nat)
    requires i <= |keys| && (i == |keys| || PressAll(level, s, keys[..i]).over)
    ensures PressAll(level, s, keys) == PressAll(level, s, keys[..i])
    decreases |keys|
  {
    if i == |keys| {
      assert keys[..i] == keys;
    } else {
      var n := |keys| - 1;
      assert keys[..n][..i] == keys[..i];
      if i < n || PressAll(level, s, keys[..n]).over {
        PressOver(level, s, keys[..n], i);
      }
    }
  }

  /**
   * The program on a map and a sequence of key presses: a game starts exactly
   * on accepted maps, and it is won exactly when the keys win the play.
   */
  method SoLong(map0: array2<char>, keys: seq<int>) returns (started: bool, won: bool)
    modifies map0
    ensures started <==> old(Accepted(map0))
    ensures started ==> (won <==> PressAll(old(LevelOf(map0)), old(StartOf(map0)), keys).won)
    ensures !started ==> !won && (old(WellFormed(map0)) ==> !old(Winnable(LevelOf(map0), StartOf(map0))))
  {
    hide CellsOf, FreeCells, Reachable, PressAll, Sound, Lettered, Winnable;
    var game := new Game(map0);
    game.CheckMap();
    if WellFormed(map0) {
      AcceptedIffWinnable(map0);
    }
    if game.error == 1 {
      return false, false;
    }
    StartSound(map0);
    game.Loop(keys);
    return true, game.victory == 1;
  }
}
