// What get_next_line is for: a text cut after each newline.

module TextLines {

  /** The number of characters of the first line, its newline included. */
  function LineEnd(s: string): (n: nat)
    ensures n <= |s| && (s != [] ==> n > 0)
  {
    if s == [] then 0 else if s[0] == '\n' then 1 else 1 + LineEnd(s[1..])
  }

  function Lines(s: string): (lines: seq<string>)
    decreases |s|
  {
    if s == [] then [] else [s[..LineEnd(s)]] + Lines(s[LineEnd(s)..])
  }

  function Flatten(pieces: seq<string>): string {
    if pieces == [] then [] else pieces[0] + Flatten(pieces[1..])
  }

  lemma {:induction false} LineEndAt(s: string, i: nat)
    requires i < |s| && s[i] == '\n' && '\n' !in s[..i]
    ensures LineEnd(s) == i + 1
  {
    if i > 0 {
      assert s[0] == s[..i][0];
      assert s[1..][..i - 1] == s[..i][1..];
      LineEndAt(s[1..], i - 1);
    }
  }

  lemma {:induction false} LineEndNone(s: string)
    requires '\n' !in s
    ensures LineEnd(s) == |s|
  {
    if s != [] {
      LineEndNone(s[1..]);
    }
  }

  lemma {:induction false} LineEndPrefix(s: string, t: string)
    requires '\n' in s
    ensures LineEnd(s + t) == LineEnd(s)
  {
    if s[0] != '\n' {
      assert (s + t)[1..] == s[1..] + t;
      LineEndPrefix(s[1..], t);
    }
  }

  /** A first line found in s is the first line of everything, and later text follows what s left. */
  lemma FirstLineOf(s: string, t: string)
    requires '\n' in s
    ensures LineEnd(s + t) == LineEnd(s)
    ensures var n := LineEnd(s); (s + t)[..n] == s[..n] && (s + t)[n..] == s[n..] + t
  {
    LineEndPrefix(s, t);
  }

  lemma {:induction false} LineEndAfter(s: string, t: string)
    requires '\n' !in s
    ensures LineEnd(s + t) == |s| + LineEnd(t)
  {
    if s == [] {
      assert s + t == t;
    } else {
      assert (s + t)[1..] == s[1..] + t;
      LineEndAfter(s[1..], t);
    }
  }

  /** Nonempty, and a newline exactly at the end: what makes a complete line. */
  ghost predicate Complete(line: string) {
    line != [] && line[|line| - 1] == '\n' && '\n' !in line[..|line| - 1]
  }

  /** Complete lines, but for a last one that may lack its newline. */
  ghost predicate Cut(pieces: seq<string>) {
    && (forall i :: 0 <= i < |pieces| - 1 ==> Complete(pieces[i]))
    && (pieces != [] ==> Complete(pieces[|pieces| - 1]) || Unfinished(pieces[|pieces| - 1]))
  }

  ghost predicate Unfinished(line: string) {
    line != [] && '\n' !in line
  }

  lemma {:induction false} FirstLine(s: string)
    requires s != []
    ensures var n := LineEnd(s); Complete(s[..n]) || (Unfinished(s[..n]) && n == |s|)
  {
    if s[0] != '\n' && |s| > 1 {
      FirstLine(s[1..]);
      var n := LineEnd(s);
      assert s[..n] == [s[0]] + s[1..][..n - 1];
    }
  }

  lemma CutCons(first: string, rest: seq<string>)
    requires Cut(rest) && (Complete(first) || (Unfinished(first) && rest == []))
    ensures Cut([first] + rest)
  {
  }

  lemma CutSplit(pieces: seq<string>)
    requires Cut(pieces) && pieces != []
    ensures Cut(pieces[1..]) && (Complete(pieces[0]) || (Unfinished(pieces[0]) && pieces[1..] == []))
  {
  }

  lemma FlattenCons(first: string, rest: seq<string>)
    ensures Flatten([first] + rest) == first + Flatten(rest)
  {
    assert ([first] + rest)[1..] == rest;
  }

  /** Lines loses nothing and cuts exactly after the newlines. */
  lemma {:induction false} LinesCut(s: string)
    ensures Flatten(Lines(s)) == s && Cut(Lines(s))
    decreases |s|
  {
    if s != [] {
      FirstLine(s);
      var n := LineEnd(s);
      var first, rest := s[..n], Lines(s[n..]);
      assert Lines(s) == [first] + rest;
      assert n == |s| ==> rest == [];
      hide Cut, Complete, Unfinished, LineEnd, Lines, Flatten;
      LinesCut(s[n..]);
      FlattenCons(first, rest);
      CutCons(first, rest);
    }
  }

  lemma LineEndPiece(first: string, rest: string)
    requires Complete(first) || (Unfinished(first) && rest == [])
    ensures LineEnd(first + rest) == |first|
  {
    if Complete(first) {
      LineEndAt(first, |first| - 1);
      LineEndPrefix(first, rest);
    } else {
      LineEndNone(first);
      assert first + rest == first;
    }
  }

  /** There is no other way to cut: the two properties above determine the pieces. */
  lemma {:induction false} CutUnique(pieces: seq<string>)
    requires Cut(pieces)
    ensures Lines(Flatten(pieces)) == pieces
  {
    if pieces != [] {
      var first, rest := pieces[0], pieces[1..];
      CutSplit(pieces);
      assert first != [];
      hide Cut, Complete, Unfinished, LineEnd;
      CutUnique(rest);
      var s := first + Flatten(rest);
      LineEndPiece(first, Flatten(rest));
      assert s[..|first|] == first && s[|first|..] == Flatten(rest);
      assert pieces == [first] + rest;
    }
  }
}
