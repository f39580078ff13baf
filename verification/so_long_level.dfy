// so_long on values: what a map allows, how a play goes, and when the map can be won.

module SoLongLevel {
  import opened Collections

  datatype Pos = Pos(y: int, x: int)

  // The key codes of so_long.h.
  const ESC := 65307
  const LEFT := 97
  const LEFT2 := 65361
  const RIGHT := 100
  const RIGHT2 := 65363
  const UP := 119
  const UP2 := 65362
  const DOWN := 115
  const DOWN2 := 65364

  predicate Adjacent(p: Pos, q: Pos) {
    (p.y == q.y && (p.x == q.x + 1 || p.x + 1 == q.x)) ||
    (p.x == q.x && (p.y == q.y + 1 || p.y + 1 == q.y))
  }

  /** A walk from p to q through cells of free, each next to the one before. */
  predicate IsWalk(free: set<Pos>, p: Pos, q: Pos, walk: seq<Pos>) {
    && walk != [] && walk[0] == p && walk[|walk| - 1] == q
    && (forall i :: 0 <= i < |walk| ==> walk[i] in free)
    && (forall i :: 0 <= i < |walk| - 1 ==> Adjacent(walk[i], walk[i + 1]))
  }

  ghost predicate Joined(free: set<Pos>, p: Pos, q: Pos) {
    exists walk :: IsWalk(free, p, q, walk)
  }

  lemma JoinedSelf(free: set<Pos>, p: Pos)
    requires p in free
    ensures Joined(free, p, p)
  {
    assert IsWalk(free, p, p, [p]);
  }

  lemma JoinedNext(free: set<Pos>, p: Pos, q: Pos, r: Pos)
    requires p in free && Adjacent(p, q) && Joined(free, q, r)
    ensures Joined(free, p, r)
  {
    var walk :| IsWalk(free, q, r, walk);
    assert IsWalk(free, p, r, [p] + walk);
  }

  lemma {:induction false} JoinedSymmetric(free: set<Pos>, p: Pos, q: Pos)
    requires Joined(free, p, q)
    ensures Joined(free, q, p)
  {
    var walk :| IsWalk(free, p, q, walk);
    var back := seq(|walk|, i requires 0 <= i < |walk| => walk[|walk| - 1 - i]);
    assert IsWalk(free, q, p, back);
  }

  lemma JoinedTransitive(free: set<Pos>, p: Pos, q: Pos, r: Pos)
    requires Joined(free, p, q) && Joined(free, q, r)
    ensures Joined(free, p, r)
  {
    var there :| IsWalk(free, p, q, there);
    var on :| IsWalk(free, q, r, on);
    var walk := there + on[1..];
    forall i | 0 <= i < |walk| - 1 ensures Adjacent(walk[i], walk[i + 1]) {
      if i >= |there| - 1 {
        assert walk[i] == on[i - (|there| - 1)] && walk[i + 1] == on[i + 1 - (|there| - 1)];
      }
    }
    forall i | 0 <= i < |walk| ensures walk[i] in free {
      if i >= |there| { assert walk[i] == on[i + 1 - |there|]; }
    }
    assert IsWalk(free, p, r, walk);
  }

  /** A set without the goal that no step of a walk can leave holds no start of a walk to the goal. */
  lemma {:induction false} ClosedKeepsOut(free: set<Pos>, inside: set<Pos>, p: Pos, q: Pos)
    requires p in inside && q !in inside
    requires forall a, b :: a in inside && Adjacent(a, b) && b in free ==> b in inside
    ensures !Joined(free, p, q)
  {
    if Joined(free, p, q) {
      var walk :| IsWalk(free, p, q, walk);
      var i := 0;
      while i < |walk| - 1
        invariant 0 <= i < |walk| && walk[i] in inside
      {
        assert Adjacent(walk[i], walk[i + 1]);
        i := i + 1;
      }
    }
  }

  /** The cells that are not walls, and the door. */
  datatype Level = Level(free: set<Pos>, door: Pos)

  /** over: the process has called exit; won: it did so with victory set. */
  datatype Play = Play(pos: Pos, coins: set<Pos>, open: bool, over: bool, won: bool)

  function Target(p: Pos, key: int): Pos {
    if key == LEFT || key == LEFT2 then Pos(p.y, p.x - 1)
    else if key == RIGHT || key == RIGHT2 then Pos(p.y, p.x + 1)
    else if key == UP || key == UP2 then Pos(p.y - 1, p.x)
    else if key == DOWN || key == DOWN2 then Pos(p.y + 1, p.x)
    else p
  }

  predicate IsMove(key: int) {
    key in {LEFT, LEFT2, RIGHT, RIGHT2, UP, UP2, DOWN, DOWN2}
  }

  /** One key press. */
  function Press(level: Level, s: Play, key: int): Play {
    if s.over then s
    else if key == ESC then s.(over := true, won := s.open && s.pos == level.door)
    else if !IsMove(key) || Target(s.pos, key) !in level.free then s
    else
      var t := s.(pos := Target(s.pos, key));
      if t.pos == level.door && t.open then t.(over := true, won := true)
      else if t.pos in t.coins then t.(coins := t.coins - {t.pos}, open := t.open || t.coins == {t.pos})
      else t
  }

  function PressAll(level: Level, s: Play, keys: seq<int>): Play {
    if keys == [] then s
    else Press(level, PressAll(level, s, keys[..|keys| - 1]), keys[|keys| - 1])
  }

  lemma {:induction false} PressAppend(level: Level, s: Play, j: seq<int>, k: seq<int>)
    ensures PressAll(level, s, j + k) == PressAll(level, PressAll(level, s, j), k)
  {
    if k == [] {
      assert j + k == j;
    } else {
      var n := |k| - 1;
      PressAppend(level, s, j, k[..n]);
      assert (j + k)[..|j| + n] == j + k[..n];
    }
  }

  /** What holds at the start of every accepted map and after every key. */
  predicate Sound(level: Level, s: Play) {
    && level.door in level.free && s.pos in level.free && s.coins <= level.free
    && s.pos !in s.coins && level.door !in s.coins
    && (s.open <==> s.coins == {})
    && (s.open && !s.over ==> s.pos != level.door)
    && (s.won ==> s.over && s.open && s.pos == level.door)
  }

  lemma PressSound(level: Level, s: Play, key: int)
    requires Sound(level, s)
    ensures Sound(level, Press(level, s, key))
  {
  }

  /**
   * The keys by their codes: a or left, d or right, w or up, s or down move one cell that way unless
   * a wall is there, anything else moves nobody; the coin of the cell is taken, the door opens with
   * the last one, and Esc or the open door ends the game, won exactly at the open door.
   */
  lemma PressExactly(level: Level, s: Play, key: int)
    requires Sound(level, s) && !s.over
    ensures var y, x, t := s.pos.y, s.pos.x, Press(level, s, key);
      var to :=
        if key == 97 || key == 65361 then Pos(y, x - 1)
        else if key == 100 || key == 65363 then Pos(y, x + 1)
        else if key == 119 || key == 65362 then Pos(y - 1, x)
        else if key == 115 || key == 65364 then Pos(y + 1, x)
        else Pos(y, x);
      && t.pos == (if to in level.free then to else s.pos)
      && t.coins == s.coins - {t.pos} && (t.open <==> t.coins == {})
      && (t.over <==> key == 65307 || (t.pos != s.pos && t.pos == level.door && s.open))
      && (t.won <==> t.over && s.open && t.pos == level.door)
  {
  }

  /** Along any play: on a free cell, the door open exactly when no coin is left, won only at the open door. */
  lemma {:induction false} PressAllSound(level: Level, s: Play, keys: seq<int>)
    requires Sound(level, s)
    ensures Sound(level, PressAll(level, s, keys))
  {
    if keys != [] {
      PressAllSound(level, s, keys[..|keys| - 1]);
    }
  }

  /** The player only gets where walks from the start lead, and so do the coins taken. */
  lemma {:induction false} PlayStaysJoined(level: Level, s: Play, keys: seq<int>)
    requires Sound(level, s)
    ensures var t := PressAll(level, s, keys);
      && t.coins <= s.coins && Joined(level.free, s.pos, t.pos)
      && forall c :: c in s.coins && c !in t.coins ==> Joined(level.free, s.pos, c)
  {
    if keys == [] {
      JoinedSelf(level.free, s.pos);
    } else {
      var n := |keys| - 1;
      var t := PressAll(level, s, keys[..n]);
      PlayStaysJoined(level, s, keys[..n]);
      PressAllSound(level, s, keys[..n]);
      var u := Press(level, t, keys[n]);
      if u.pos != t.pos {
        assert Adjacent(t.pos, u.pos);
        JoinedSelf(level.free, u.pos);
        JoinedNext(level.free, t.pos, u.pos, u.pos);
        JoinedTransitive(level.free, s.pos, t.pos, u.pos);
      }
    }
  }

  function KeyFor(p: Pos, q: Pos): (key: int)
    requires Adjacent(p, q)
    ensures IsMove(key) && Target(p, key) == q
  {
    if q.x == p.x - 1 then LEFT else if q.x == p.x + 1 then RIGHT else if q.y == p.y - 1 then UP else DOWN
  }

  /** Walking to the end of a walk either wins on the way or arrives, with the coin there taken. */
  lemma {:induction false} Walk(level: Level, s: Play, q: Pos, walk: seq<Pos>) returns (keys: seq<int>)
    requires Sound(level, s) && !s.over && IsWalk(level.free, s.pos, q, walk)
    ensures var t := PressAll(level, s, keys);
      Sound(level, t) && (t.won || (!t.over && t.pos == q && t.coins <= s.coins))
    decreases |walk|
  {
    keys := [];
    if |walk| > 1 {
      var n := |walk| - 1;
      assert IsWalk(level.free, s.pos, walk[n - 1], walk[..n]);
      keys := Walk(level, s, walk[n - 1], walk[..n]);
      var t := PressAll(level, s, keys);
      if !t.won {
        assert Adjacent(walk[n - 1], walk[n]);
        var key := KeyFor(t.pos, q);
        PressAppend(level, s, keys, [key]);
        assert PressAll(level, t, [key]) == Press(level, t, key) by { assert [key][..0] == []; }
        PressSound(level, t, key);
        keys := keys + [key];
      }
    }
  }

  ghost predicate Winnable(level: Level, s: Play) {
    exists keys :: PressAll(level, s, keys).won
  }

  lemma WinnableLater(level: Level, s: Play, keys: seq<int>)
    requires Winnable(level, PressAll(level, s, keys))
    ensures Winnable(level, s)
  {
    var on :| PressAll(level, PressAll(level, s, keys), on).won;
    PressAppend(level, s, keys, on);
    assert PressAll(level, s, keys + on).won;
  }

  /** When every coin and the door can be walked to, some keys win. */
  lemma {:induction false} CanWin(level: Level, s: Play)
    requires Sound(level, s) && !s.over
    requires Joined(level.free, s.pos, level.door)
    requires forall c :: c in s.coins ==> Joined(level.free, s.pos, c)
    ensures Winnable(level, s)
    decreases |s.coins|
  {
    var goal := level.door;
    if s.coins != {} {
      goal :| goal in s.coins;
    }
    var walk :| IsWalk(level.free, s.pos, goal, walk);
    var keys := Walk(level, s, goal, walk);
    var t := PressAll(level, s, keys);
    if !t.won && s.coins != {} {
      assert t.coins < s.coins;
      SmallerSet(t.coins, s.coins);
      JoinedSymmetric(level.free, s.pos, goal);
      JoinedTransitive(level.free, goal, s.pos, level.door);
      forall c | c in t.coins ensures Joined(level.free, t.pos, c) {
        JoinedTransitive(level.free, goal, s.pos, c);
      }
      CanWin(level, t);
      WinnableLater(level, s, keys);
    }
  }

  /** A play can be won exactly when the door and every coin can be walked to from the start. */
  lemma WinnableIffJoined(level: Level, s: Play)
    requires Sound(level, s) && !s.over
    ensures Winnable(level, s) <==>
      Joined(level.free, s.pos, level.door) && forall c :: c in s.coins ==> Joined(level.free, s.pos, c)
  {
    if Winnable(level, s) {
      var keys :| PressAll(level, s, keys).won;
      PlayStaysJoined(level, s, keys);
      PressAllSound(level, s, keys);
    }
    if Joined(level.free, s.pos, level.door) && forall c :: c in s.coins ==> Joined(level.free, s.pos, c) {
      CanWin(level, s);
    }
  }
}
