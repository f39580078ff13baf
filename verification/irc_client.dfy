// The receive buffer of a client (irc/src/Client.cpp:35-52) and the loop that feeds it
// (irc/src/Server.cpp:258-288): the lines do not depend on how the bytes arrive.

module IrcClient {
  import opened Collections
  import opened TextLines

  /** A line without its "\n" and without one '\r' in front of it. */
  function Bare(line: string): string {
    if line != "" && line[|line| - 1] == '\r' then line[..|line| - 1] else line
  }

  /** The complete lines of a stream, and what follows the last newline. */
  function Popped(s: string): seq<string>
    decreases |s|
  {
    if '\n' !in s then [] else [Bare(s[..LineEnd(s) - 1])] + Popped(AfterLine(s))
  }

  function AfterLine(s: string): (r: string)
    requires '\n' in s
    ensures |r| < |s|
  {
    s[LineEnd(s)..]
  }

  function Pending(s: string): string
    decreases |s|
  {
    if '\n' !in s then s else Pending(AfterLine(s))
  }

  lemma FirstPopped(a: string, b: string)
    requires '\n' in a
    ensures '\n' in a + b && LineEnd(a + b) == LineEnd(a)
    ensures AfterLine(a + b) == AfterLine(a) + b
    ensures (a + b)[..LineEnd(a) - 1] == a[..LineEnd(a) - 1]
  {
    FirstLineOf(a, b);
    assert (a + b)[..LineEnd(a) - 1] == a[..LineEnd(a) - 1];
  }

  /** Later bytes add lines behind those already popped, starting from what was pending. */
  lemma {:induction false} PoppedAppend(a: string, b: string)
    ensures Popped(a + b) == Popped(a) + Popped(Pending(a) + b)
    ensures Pending(a + b) == Pending(Pending(a) + b)
    decreases |a|
  {
    if '\n' in a {
      FirstPopped(a, b);
      PoppedAppend(AfterLine(a), b);
      hide LineEnd, AfterLine;
      Assoc([Bare(a[..LineEnd(a) - 1])], Popped(AfterLine(a)), Popped(Pending(AfterLine(a)) + b));
    }
  }

  lemma {:induction false} NothingPending(s: string)
    ensures '\n' !in Pending(s)
    ensures Popped(Pending(s)) == [] && Pending(Pending(s)) == Pending(s)
    decreases |s|
  {
    if '\n' in s {
      NothingPending(AfterLine(s));
    }
  }

  class Buffer {
    var buffer: string

    constructor ()
      ensures buffer == ""
    {
      buffer := "";
    }

    method AppendBuffer(data: string)
      modifies this
      ensures buffer == old(buffer) + data
    {
      buffer := buffer + data;
    }

    /** The position of the first newline, or the length. */
    method FindNewline() returns (pos: nat)
      ensures pos <= |buffer| && (pos == |buffer| <==> '\n' !in buffer)
      ensures pos < |buffer| ==> pos + 1 == LineEnd(buffer)
    {
      pos := 0;
      while pos < |buffer| && buffer[pos] != '\n'
        invariant pos <= |buffer| && '\n' !in buffer[..pos]
      {
        pos := pos + 1;
      }
      assert buffer[..|buffer|] == buffer;
      if pos < |buffer| {
        LineEndAt(buffer, pos);
      }
    }

    method PopLine() returns (popped: bool, line: string)
      modifies this
      ensures popped <==> '\n' in old(buffer)
      ensures !popped ==> buffer == old(buffer)
      ensures popped ==> Popped(old(buffer)) == [line] + Popped(buffer) && Pending(old(buffer)) == Pending(buffer)
      ensures popped ==> |buffer| < |old(buffer)|
    {
      line := "";
      var pos := FindNewline();
      if pos == |buffer| {
        return false, line;
      }
      line := buffer[..pos];
      if line != "" && line[|line| - 1] == '\r' {
        line := line[..|line| - 1];
      }
      buffer := buffer[pos + 1..];
      popped := true;
    }

    /** One recv: the data is appended and every complete line popped. */
    method Receive(data: string) returns (lines: seq<string>)
      modifies this
      ensures lines == Popped(old(buffer) + data) && buffer == Pending(old(buffer) + data)
    {
      AppendBuffer(data);
      ghost var all := buffer;
      lines := [];
      var more, line := PopLine();
      while more
        invariant Popped(all) == (if more then lines + [line] else lines) + Popped(buffer)
        invariant Pending(all) == Pending(buffer)
        invariant !more ==> '\n' !in buffer
        decreases |buffer|, more
      {
        hide Popped, Pending;
        lines := lines + [line];
        more, line := PopLine();
        if more {
          Assoc(lines, [line], Popped(buffer));
        }
      }
    }

    /** Any number of recvs: only the bytes matter, not where the pieces were cut. */
    method ReceiveAll(pieces: seq<string>) returns (lines: seq<string>)
      requires '\n' !in buffer
      modifies this
      ensures lines == Popped(old(buffer) + Flatten(pieces)) && buffer == Pending(old(buffer) + Flatten(pieces))
    {
      lines := [];
      ghost var start, seen := buffer, "";
      var i := 0;
      assert start + "" == start;
      assert pieces[0..] == pieces;
      while i < |pieces|
        invariant 0 <= i <= |pieces| && Flatten(pieces) == seen + Flatten(pieces[i..])
        invariant lines == Popped(start + seen) && buffer == Pending(start + seen)
      {
        hide Popped, Pending;
        var more := Receive(pieces[i]);
        PoppedAppend(start + seen, pieces[i]);
        lines := lines + more;
        FlattenSplit(pieces, i);
        Assoc(seen, pieces[i], Flatten(pieces[i + 1..]));
        Assoc(start, seen, pieces[i]);
        seen := seen + pieces[i];
        i := i + 1;
      }
      assert Flatten(pieces[i..]) == "";
      assert seen + "" == seen;
    }
  }

  lemma FlattenSplit(pieces: seq<string>, i: nat)
    requires i < |pieces|
    ensures Flatten(pieces[i..]) == pieces[i] + Flatten(pieces[i + 1..])
  {
    assert pieces[i..][1..] == pieces[i + 1..];
  }

  /** Lines as they are sent, each ended by "\r\n" or by "\n" alone, and what follows the last one. */
  function Wire(lines: seq<string>, crlf: seq<bool>, rest: string): string
    requires |crlf| == |lines|
  {
    if lines == [] then rest
    else lines[0] + (if crlf[0] then "\r\n" else "\n") + Wire(lines[1..], crlf[1..], rest)
  }

  /** No newline inside, and no '\r' at the end that would be taken for part of the ending. */
  predicate Sendable(line: string, crlf: bool) {
    '\n' !in line && (!crlf && line != "" ==> line[|line| - 1] != '\r')
  }

  lemma FirstSent(line: string, crlf: bool, more: string)
    requires Sendable(line, crlf)
    ensures var s := line + (if crlf then "\r\n" else "\n") + more;
      '\n' in s && Bare(s[..LineEnd(s) - 1]) == line && AfterLine(s) == more
  {
    var first := line + (if crlf then "\r\n" else "\n");
    assert first[..|first| - 1] == line + (if crlf then "\r" else "");
    assert crlf ==> (line + "\r")[..|line|] == line;
    assert line + "" == line;
    LineEndAt(first, |first| - 1);
    FirstPopped(first, more);
    assert AfterLine(first) == "" && "" + more == more;
  }

  /** What was sent line by line arrives line by line, whichever way each line was ended. */
  lemma {:induction false} WireRoundTrip(lines: seq<string>, crlf: seq<bool>, rest: string)
    requires |crlf| == |lines| && forall i :: 0 <= i < |lines| ==> Sendable(lines[i], crlf[i])
    requires '\n' !in rest
    ensures Popped(Wire(lines, crlf, rest)) == lines && Pending(Wire(lines, crlf, rest)) == rest
  {
    if lines != [] {
      FirstSent(lines[0], crlf[0], Wire(lines[1..], crlf[1..], rest));
      hide Bare, AfterLine, LineEnd;
      WireRoundTrip(lines[1..], crlf[1..], rest);
    }
  }
}
