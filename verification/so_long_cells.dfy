// The cells of a so_long map: free cells, marks, and row-by-row scans.

module SoLongCells {
  import opened SoLongLevel

  ghost predicate Inside(a: array2<char>, p: Pos) {
    0 <= p.y < a.Length0 && 0 <= p.x < a.Length1
  }

  /** The cells that are not walls; marked cells are free. */
  ghost function FreeCells(a: array2<char>): (s: set<Pos>)
    reads a
  {
    set y, x | 0 <= y < a.Length0 && 0 <= x < a.Length1 && a[y, x] != '1' :: Pos(y, x)
  }

  ghost function CellsOf(a: array2<char>, c: char): (s: set<Pos>)
    reads a
  {
    set y, x | 0 <= y < a.Length0 && 0 <= x < a.Length1 && a[y, x] == c :: Pos(y, x)
  }

  ghost function Marked(a: array2<char>): (s: set<Pos>)
    reads a
  {
    CellsOf(a, '2')
  }

  /** Every cell marked between before and after is not the player and has no unmarked free neighbour. */
  ghost predicate Settled(free: set<Pos>, before: set<Pos>, after: set<Pos>, player: Pos) {
    forall p :: p in after && p !in before ==> p != player && SealedIn(free, after, p)
  }

  ghost predicate SealedIn(free: set<Pos>, marked: set<Pos>, p: Pos) {
    forall q :: q in free && Adjacent(p, q) ==> q in marked
  }

  lemma SettledTwice(free: set<Pos>, a: set<Pos>, b: set<Pos>, c: set<Pos>, player: Pos)
    requires Settled(free, a, b, player) && Settled(free, b, c, player) && b <= c
    ensures Settled(free, a, c, player)
  {
    forall p | p in c && p !in a ensures p != player && SealedIn(free, c, p) {
      if p in b {
        assert SealedIn(free, b, p);
      }
    }
  }

  lemma SettledHere(free: set<Pos>, before: set<Pos>, after: set<Pos>, player: Pos, here: Pos)
    requires Settled(free, before + {here}, after, player) && here != player
    requires Pos(here.y + 1, here.x) in free ==> Pos(here.y + 1, here.x) in after
    requires Pos(here.y, here.x + 1) in free ==> Pos(here.y, here.x + 1) in after
    requires Pos(here.y - 1, here.x) in free ==> Pos(here.y - 1, here.x) in after
    requires Pos(here.y, here.x - 1) in free ==> Pos(here.y, here.x - 1) in after
    ensures Settled(free, before, after, player)
  {
    forall q | q in free && Adjacent(here, q) ensures q in after {
      assert q == Pos(here.y + 1, here.x) || q == Pos(here.y, here.x + 1) ||
             q == Pos(here.y - 1, here.x) || q == Pos(here.y, here.x - 1);
    }
    assert SealedIn(free, after, here);
  }

  lemma MarkCell(a: array2<char>, y: int, x: int, free: set<Pos>, before: set<Pos>)
    requires 0 <= y < a.Length0 && 0 <= x < a.Length1 && a[y, x] == '2'
    requires forall p :: p in free <==> Inside(a, p) && (p == Pos(y, x) || a[p.y, p.x] != '1')
    requires forall p :: p in before <==> Inside(a, p) && p != Pos(y, x) && a[p.y, p.x] == '2'
    ensures FreeCells(a) == free && Marked(a) == before + {Pos(y, x)}
  {
  }

  // Scanning row by row.

  ghost function Before(a: array2<char>, c: char, y: int, x: int): (s: set<Pos>)
    reads a
  {
    set p | p in CellsOf(a, c) && (p.y < y || (p.y == y && p.x < x))
  }

  lemma BeforeNext(a: array2<char>, c: char, y: int, x: int)
    requires 0 <= y < a.Length0 && 0 <= x < a.Length1
    ensures Before(a, c, y, x + 1) == Before(a, c, y, x) + if a[y, x] == c then {Pos(y, x)} else {}
    ensures Pos(y, x) !in Before(a, c, y, x)
    ensures a[y, x] == c <==> Pos(y, x) in CellsOf(a, c)
  {
  }

  /** p is not after q in reading order. */
  predicate UpTo(p: Pos, q: Pos) {
    p.y < q.y || (p.y == q.y && p.x <= q.x)
  }

  lemma BeforeEarlier(a: array2<char>, c: char, y: int, x: int)
    ensures forall p :: p in Before(a, c, y, x) ==> UpTo(p, Pos(y, x))
  {
  }

  lemma BeforeRow(a: array2<char>, c: char, y: int)
    ensures Before(a, c, y + 1, 0) == Before(a, c, y, a.Length1)
  {
  }

  lemma BeforeSome(a: array2<char>, c: char, y: int, x: int)
    ensures Before(a, c, y, x) <= CellsOf(a, c)
  {
  }

  lemma BeforeAll(a: array2<char>, c: char)
    ensures Before(a, c, 0, 0) == {}
    ensures Before(a, c, a.Length0, 0) == CellsOf(a, c)
  {
  }

  lemma CopiedCells(a: array2<char>, b: array2<char>)
    requires a.Length0 == b.Length0 && a.Length1 == b.Length1
    requires forall i, j :: 0 <= i < a.Length0 && 0 <= j < a.Length1 ==> a[i, j] == b[i, j]
    ensures FreeCells(a) == FreeCells(b) && forall c :: CellsOf(a, c) == CellsOf(b, c)
  {
  }

  lemma CollectedNone()
    ensures Collected([], {})
  {
  }

  lemma CollectedSize(list: seq<Pos>, cells: set<Pos>)
    requires Collected(list, cells)
    ensures |list| == |cells|
    ensures forall p :: p in cells <==> p in list
  {
  }

  ghost predicate Collected(list: seq<Pos>, cells: set<Pos>) {
    |list| == |cells| && forall p :: p in cells <==> p in list
  }

  lemma CollectedNext(list: seq<Pos>, cells: set<Pos>, p: Pos)
    requires Collected(list, cells) && p !in cells
    ensures Collected(list + [p], cells + {p})
  {
  }

  lemma TakeCoin(a: array2<char>, y: int, x: int, free: set<Pos>, coins: set<Pos>)
    requires 0 <= y < a.Length0 && 0 <= x < a.Length1 && a[y, x] == '0'
    requires forall p :: p in free <==> Inside(a, p) && (p == Pos(y, x) || a[p.y, p.x] != '1')
    requires forall p :: p in coins <==> Inside(a, p) && (p == Pos(y, x) || a[p.y, p.x] == 'C')
    ensures FreeCells(a) == free && CellsOf(a, 'C') == coins - {Pos(y, x)}
    ensures |CellsOf(a, 'C')| == |coins| - 1
  {
    assert CellsOf(a, 'C') == coins - {Pos(y, x)};
  }

  lemma NoCells(a: array2<char>, c: char)
    requires forall y, x :: 0 <= y < a.Length0 && 0 <= x < a.Length1 ==> a[y, x] != c
    ensures CellsOf(a, c) == {}
  {
  }
}
