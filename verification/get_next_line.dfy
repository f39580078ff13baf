// The line reader (get_next_line/get_next_line.c, get_next_line/get_next_line_utils.c).
// A C string is an array that holds a NUL; its text is what stands before the first one.

module GetNextLine {
  import opened TextLines

  const NUL: char := '\0'

  ghost function Text(s: seq<char>): (t: string)
    ensures NUL !in t && |t| <= |s|
  {
    if s == [] || s[0] == NUL then [] else [s[0]] + Text(s[1..])
  }

  lemma {:induction false} TextAt(s: seq<char>, n: nat)
    requires n < |s| && s[n] == NUL && NUL !in s[..n]
    ensures Text(s) == s[..n]
  {
    if n > 0 {
      assert s[0] == s[..n][0] && s[1..][..n - 1] == s[..n][1..];
      TextAt(s[1..], n - 1);
    }
  }

  lemma {:induction false} TextEnds(s: seq<char>)
    requires NUL in s
    ensures |Text(s)| < |s| && s[|Text(s)|] == NUL && s[..|Text(s)|] == Text(s)
  {
    if s[0] != NUL {
      TextEnds(s[1..]);
    }
  }

  method StrLen(str: array<char>) returns (i: nat)
    requires NUL in str[..]
    ensures i == |Text(str[..])|
  {
    TextEnds(str[..]);
    i := 0;
    while str[i] != NUL
      invariant i <= |Text(str[..])|
      decreases |Text(str[..])| - i
    {
      i := i + 1;
    }
  }

  method Bzero(tab: array<char>, size: nat)
    requires size <= tab.Length
    modifies tab
    ensures forall k :: 0 <= k < tab.Length ==> tab[k] == if k < size then NUL else old(tab[k])
  {
    var n := size;
    while n > 0
      invariant n <= size
      invariant forall k :: 0 <= k < tab.Length ==> tab[k] == if n <= k < size then NUL else old(tab[k])
    {
      n := n - 1;
      tab[n] := NUL;
    }
  }

  /** Looks before the NUL only: never finds NUL itself. */
  method StrChr(str: array<char>, c: char) returns (found: bool)
    requires NUL in str[..]
    ensures found <==> c in Text(str[..])
  {
    TextEnds(str[..]);
    ghost var text := Text(str[..]);
    var i := 0;
    while str[i] != NUL
      invariant i <= |text| && c !in text[..i]
      decreases |text| - i
    {
      assert str[i] == text[i];
      if str[i] == c {
        return true;
      }
      i := i + 1;
    }
    assert text[..i] == text;
    return false;
  }

  method StrJoin(s1: array<char>, s2: array<char>) returns (tmp: array<char>)
    requires NUL in s1[..] && NUL in s2[..]
    ensures fresh(tmp) && NUL in tmp[..]
    ensures Text(tmp[..]) == Text(s1[..]) + Text(s2[..])
  {
    TextEnds(s1[..]);
    TextEnds(s2[..]);
    ghost var t1, t2 := Text(s1[..]), Text(s2[..]);
    var n1 := StrLen(s1);
    var n2 := StrLen(s2);
    tmp := new char[n1 + n2 + 1];
    var i := 0;
    while s1[i] != NUL
      invariant i <= n1 && tmp[..i] == t1[..i]
      invariant s1[..] == old(s1[..]) && s2[..] == old(s2[..])
      decreases n1 - i
    {
      tmp[i] := s1[i];
      i := i + 1;
    }
    var j := 0;
    while s2[j] != NUL
      invariant j <= n2 && i == n1 + j && tmp[..i] == t1 + t2[..j]
      invariant s2[..] == old(s2[..])
      decreases n2 - j
    {
      tmp[i] := s2[j];
      i := i + 1;
      j := j + 1;
    }
    tmp[i] := NUL;
    assert tmp[..][..i] == t1 + t2;
    TextAt(tmp[..], i);
  }

  method StrDup(src: array<char>) returns (tab: array<char>)
    requires NUL in src[..]
    ensures fresh(tab) && NUL in tab[..]
    ensures Text(tab[..]) == Text(src[..])
  {
    TextEnds(src[..]);
    ghost var text := Text(src[..]);
    var n := StrLen(src);
    tab := new char[n + 1];
    var i := 0;
    while src[i] != NUL
      invariant i <= n && tab[..i] == text[..i]
      invariant src[..] == old(src[..])
      decreases n - i
    {
      tab[i] := src[i];
      i := i + 1;
    }
    tab[i] := NUL;
    assert tab[..][..i] == text;
    TextAt(tab[..], i);
  }

  /** The first loop of cleanup: the position of the newline. */
  method FindBreak(line: array<char>) returns (i: nat)
    requires NUL in line[..] && '\n' in Text(line[..])
    ensures i + 1 == LineEnd(Text(line[..]))
  {
    TextEnds(line[..]);
    ghost var text := Text(line[..]);
    hide Text, LineEnd;
    i := 0;
    while line[i] != '\n' && line[i] != NUL
      invariant i <= |text| && line[..|text|] == text && line[|text|] == NUL
      invariant forall k :: 0 <= k < i ==> text[k] != '\n'
      decreases |text| - i
    {
      assert line[i] == line[..|text|][i];
      i := i + 1;
    }
    LineEndAt(text, i);
  }

  /** The second loop of cleanup: what stands from end on goes to keep, the NUL at n included. */
  method CopyRest(line: array<char>, keep: array<char>, end: nat, ghost n: nat) returns (j: nat)
    requires line != keep && 0 < end <= n < line.Length && n - end + 1 < keep.Length
    requires line[n] == NUL && forall k :: end - 1 <= k < n ==> line[k] != NUL
    modifies keep
    ensures j == n - end + 1
    ensures forall k :: 0 <= k < j ==> keep[k] == line[end + k]
  {
    var i := end - 1;
    j := 0;
    var more := line[i] != NUL;
    i := i + 1;
    while more
      invariant i == end + j <= n + 1 && (more <==> i <= n)
      invariant forall k :: 0 <= k < j ==> keep[k] == line[end + k]
      decreases n + 1 - i
    {
      keep[j] := line[i];
      j := j + 1;
      more := line[i] != NUL;
      i := i + 1;
    }
  }

  /** Leaves the first line in line and what follows it in keep. */
  method Cleanup(line: array<char>, keep: array<char>)
    requires line != keep && NUL in line[..]
    requires var text := Text(line[..]); '\n' in text && |text| - LineEnd(text) + 2 <= keep.Length
    modifies line, keep
    ensures NUL in line[..] && NUL in keep[..]
    ensures var text := old(Text(line[..])); Text(line[..]) == text[..LineEnd(text)]
    ensures var text := old(Text(line[..])); Text(keep[..]) == text[LineEnd(text)..]
  {
    var i := FindBreak(line);
    TextEnds(line[..]);
    ghost var text, was := Text(line[..]), line[..];
    hide Text, LineEnd;
    assert forall k :: 0 <= k < |text| ==> line[k] == text[k];
    var end := i + 1;
    var j := CopyRest(line, keep, end, |text|);
    line[end] := NUL;
    keep[j] := NUL;
    CutAt(text, was, line[..], keep[..], end);
  }

  lemma CutAt(text: string, was: seq<char>, line: seq<char>, keep: seq<char>, end: nat)
    requires end <= |text| < |was| && |text| - end < |keep|
    requires was[..|text|] == text && was[|text|] == NUL && NUL !in text
    requires line == was[end := NUL]
    requires forall k :: 0 <= k <= |text| - end ==> keep[k] == was[end + k]
    ensures NUL in line && NUL in keep
    ensures Text(line) == text[..end] && Text(keep) == text[end..]
  {
    hide Text;
    var n := |text| - end;
    assert line[..end] == text[..end];
    TextAt(line, end);
    assert line[end] in line;
    assert keep[..n] == text[end..];
    TextAt(keep, n);
    assert keep[n] == NUL && keep[n] in keep;
  }

  /** The characters a caller sees in a returned line. */
  method Characters(line: array<char>) returns (text: string)
    requires NUL in line[..]
    ensures text == Text(line[..])
  {
    TextEnds(line[..]);
    var n := StrLen(line);
    text := line[..n];
  }

  /** ft_strdup(""). */
  method Empty() returns (tab: array<char>)
    ensures fresh(tab) && NUL in tab[..] && Text(tab[..]) == []
  {
    var empty := new char[1](_ => NUL);
    assert empty[0] in empty[..];
    TextAt(empty[..], 0);
    tab := StrDup(empty);
  }

  /** Of all, the first line has been handed out and left remains. */
  ghost predicate Handed(all: string, line: string, left: string) {
    line == all[..LineEnd(all)] && left == all[LineEnd(all)..]
  }

  /** The newline is in the last chunk, so what follows it is shorter than the chunk. */
  lemma HandedOver(seen: string, chunk: string, content: string)
    requires '\n' in seen + chunk && '\n' !in seen
    ensures var text := seen + chunk; var n := LineEnd(text);
      n > |seen| && Handed(text + content, text[..n], text[n..] + content)
  {
    LineEndAfter(seen, chunk);
    FirstLineOf(seen + chunk, content);
  }

  lemma NextChunk(seen: string, chunk: string, ahead: string, n: nat)
    requires n <= |ahead|
    ensures (seen + chunk) + ahead[..n] + ahead[n..] == (seen + chunk) + ahead
  {
    assert (seen + chunk) + ahead[..n] + ahead[n..] == (seen + chunk) + (ahead[..n] + ahead[n..]);
  }

  lemma HandedNext(lines: seq<string>, all: string, line: string, left: string)
    requires all != [] && Handed(all, line, left)
    ensures lines + Lines(all) == (lines + [line]) + Lines(left) && |left| < |all|
  {
    assert Lines(all) == [line] + Lines(left);
  }

  lemma HandedLast(seen: string)
    requires '\n' !in seen
    ensures Handed(seen, seen, [])
  {
    LineEndNone(seen);
  }

  /** A file descriptor and the static buffer of the reader. */
  class Reader {
    const size: nat
    const keep: array<char>
    /** What read has not handed out yet. */
    var content: string

    ghost predicate Valid()
      reads this, keep
    {
      && size > 0 && keep.Length == size + 1
      && NUL in keep[..] && |Text(keep[..])| < size
      && NUL !in content
    }

    /** What the coming calls still have to return. */
    ghost function Left(): string
      reads this, keep
    {
      Text(keep[..]) + content
    }

    constructor (bufferSize: nat, file: string)
      requires bufferSize > 0 && NUL !in file
      ensures Valid() && fresh(keep) && Left() == file
    {
      size := bufferSize;
      keep := new char[bufferSize + 1](_ => NUL);
      content := file;
      new;
      assert keep[..][..0] == [];
      assert keep[0] in keep[..];
      TextAt(keep[..], 0);
    }

    /** read(2): hands out any number of the remaining bytes, at least one and at most size. */
    method Read() returns (n: nat)
      requires keep.Length == size + 1 && size > 0
      modifies this`content, keep
      ensures n <= size && (n == 0 <==> old(content) == [])
      ensures n <= |old(content)| && content == old(content)[n..]
      ensures forall k :: 0 <= k < keep.Length ==> keep[k] == if k < n then old(content)[k] else old(keep[k])
    {
      if content == [] {
        return 0;
      }
      n :| 1 <= n <= size && n <= |content|;
      var i := 0;
      while i < n
        invariant i <= n && content == old(content)
        invariant forall k :: 0 <= k < keep.Length ==> keep[k] == if k < i then content[k] else old(keep[k])
      {
        keep[i] := content[i];
        i := i + 1;
      }
      content := content[n..];
    }

    /** Clears the buffer, then reads into it. */
    method Refill() returns (n: nat)
      requires keep.Length == size + 1 && size > 0 && NUL !in content
      modifies this`content, keep
      ensures n <= size && (n == 0 <==> old(content) == [])
      ensures n <= |old(content)| && content == old(content)[n..]
      ensures NUL in keep[..] && Text(keep[..]) == old(content)[..n]
    {
      Bzero(keep, size + 1);
      n := Read();
      assert keep[..][..n] == old(content)[..n];
      assert keep[n] in keep[..];
      TextAt(keep[..], n);
    }

    /** Appends the buffer to the line read so far. */
    method Extend(was: array?<char>) returns (line: array<char>)
      requires NUL in keep[..] && (was != null ==> NUL in was[..])
      ensures fresh(line) && NUL in line[..]
      ensures Text(line[..]) == (if was == null then [] else Text(was[..])) + Text(keep[..])
    {
      if was == null {
        line := Empty();
      } else {
        line := was;
      }
      line := StrJoin(line, keep);
    }

    /** The return with cleanup: the line ends inside the last chunk. */
    method Finish(line: array<char>, ghost seen: string, ghost chunk: string)
      requires keep.Length == size + 1 && size > 0 && NUL !in content
      requires line != keep && NUL in line[..] && Text(line[..]) == seen + chunk && |chunk| <= size
      requires '\n' in seen + chunk && '\n' !in seen
      modifies line, keep
      ensures Valid() && NUL in line[..]
      ensures Handed(seen + chunk + content, Text(line[..]), Left())
    {
      hide Text, LineEnd, Handed;
      HandedOver(seen, chunk, content);
      Cleanup(line, keep);
    }

    /** The reading loop: seen is the text of the line so far. */
    method ReadLine(was: array?<char>, ghost seen: string) returns (line: array?<char>)
      requires keep.Length == size + 1 && size > 0 && NUL !in content
      requires was == null <==> seen == []
      requires was != null ==> was != keep && NUL in was[..] && Text(was[..]) == seen
      requires '\n' !in seen
      modifies this`content, keep
      ensures Valid() && (line == null <==> seen + old(content) == [])
      ensures line != null ==> (line == was || fresh(line)) && NUL in line[..]
      ensures line != null ==> Handed(seen + old(content), Text(line[..]), Left())
      ensures line == null ==> Left() == []
    {
      hide Text, LineEnd, Handed;
      ghost var all, acc, ahead := seen + content, seen, content;
      line := was;
      var n := Refill();
      NextChunk(seen, [], ahead, n);
      ghost var chunk := Text(keep[..]);
      while n > 0
        invariant n <= size && NUL !in content
        invariant NUL in keep[..] && Text(keep[..]) == chunk && |chunk| == n
        invariant all == acc + chunk + content && '\n' !in acc
        invariant n == 0 ==> content == []
        invariant line == null <==> acc == []
        invariant line != null ==> (line == was || fresh(line)) && NUL in line[..] && Text(line[..]) == acc
        decreases n + |content|
      {
        line := Extend(line);
        var found := StrChr(line, '\n');
        var ended := StrChr(line, NUL);
        if found || ended {
          Finish(line, acc, chunk);
          return;
        }
        ahead := content;
        n := Refill();
        NextChunk(acc, chunk, ahead, n);
        acc := acc + chunk;
        chunk := Text(keep[..]);
      }
      assert Left() == [];
      assert all == acc;
      HandedLast(acc);
    }

    /** One call: the first line of what is left, or null when nothing is. */
    method GetNextLine() returns (line: array?<char>)
      requires Valid()
      modifies this`content, keep
      ensures Valid() && (line == null <==> old(Left()) == [])
      ensures line != null ==> fresh(line) && NUL in line[..]
      ensures line != null ==> Handed(old(Left()), Text(line[..]), Left())
      ensures line == null ==> Left() == []
    {
      line := null;
      TextEnds(keep[..]);
      hide Text, LineEnd, Handed;
      ghost var seen := Text(keep[..]);
      if keep[0] != NUL {
        line := StrDup(keep);
        var found := StrChr(line, '\n');
        if found {
          assert [] + seen == seen;
          Finish(line, [], seen);
          return;
        }
      }
      line := ReadLine(line, seen);
    }

    /** Calls until the first null: all the lines, in order. */
    method ReadAll() returns (lines: seq<string>)
      requires Valid()
      modifies this`content, keep
      ensures Valid() && Left() == []
      ensures lines == Lines(old(Left()))
    {
      lines := [];
      ghost var all := Left();
      var line := GetNextLine();
      ghost var was := all;
      while line != null
        invariant Valid()
        invariant line == null <==> was == []
        invariant line != null ==> fresh(line) && NUL in line[..] && Handed(was, Text(line[..]), Left())
        invariant line == null ==> Left() == []
        invariant lines + Lines(was) == Lines(all)
        decreases |was|
      {
        hide Text, Handed, LineEnd, Lines;
        var text := Characters(line);
        HandedNext(lines, was, text, Left());
        lines := lines + [text];
        was := Left();
        line := GetNextLine();
      }
    }
  }
}
