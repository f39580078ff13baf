// Splitting a line into command and parameters (irc/src/Server.cpp:304-351),
// after the message format of RFC 2812, section 2.3.1.

module IrcParse {
  import opened Collections
  import opened IrcText

  datatype Message = Message(command: string, params: seq<string>)

  /** The position of the first space, or the length. */
  function FindSpace(s: string): (p: nat)
    ensures p <= |s| && (p < |s| ==> s[p] == ' ') && forall i :: 0 <= i < p ==> s[i] != ' '
  {
    if s == "" || s[0] == ' ' then 0 else 1 + FindSpace(s[1..])
  }

  function SkipSpaces(s: string): (r: string)
    ensures |r| <= |s| && (r != "" ==> r[0] != ' ')
  {
    if s != "" && s[0] == ' ' then SkipSpaces(s[1..]) else s
  }

  /** The parameters in the rest of a line; a leading ':' takes all that is left. */
  function ParamsOf(s: string): (r: seq<string>)
    decreases |s|
  {
    if s == "" then []
    else if s[0] == ':' then [s[1..]]
    else
      var space := FindSpace(s);
      if space == |s| then [s] else [s[..space]] + ParamsOf(SkipSpaces(s[space + 1..]))
  }

  /** Drops a prefix ":..." up to its first space, when there is one. */
  function WithoutPrefix(s: string): string {
    if s != "" && s[0] == ':' && FindSpace(s) < |s| then s[FindSpace(s) + 1..] else s
  }

  function ParseTrimmed(s: string): Message {
    var body := SkipSpaces(WithoutPrefix(s));
    var space := FindSpace(body);
    if space == |body| then Message(ToUpper(body), [])
    else Message(ToUpper(body[..space]), ParamsOf(body[space + 1..]))
  }

  /** None for a line of white space only, which the server ignores. */
  function Parse(line: string): Option<Message> {
    if Trim(line) == "" then None else Some(ParseTrimmed(Trim(line)))
  }

  // The same by positions, as the program does it.

  method FindFrom(s: string, from: nat) returns (p: nat)
    requires from <= |s|
    ensures from <= p <= |s| && p == from + FindSpace(s[from..])
  {
    p := from;
    while p < |s| && s[p] != ' '
      invariant from <= p <= |s| && from + FindSpace(s[from..]) == p + FindSpace(s[p..])
    {
      assert s[p..][1..] == s[p + 1..];
      p := p + 1;
    }
  }

  method SkipFrom(s: string, from: nat) returns (p: nat)
    requires from <= |s|
    ensures from <= p <= |s| && s[p..] == SkipSpaces(s[from..])
  {
    p := from;
    while p < |s| && s[p] == ' '
      invariant from <= p <= |s| && SkipSpaces(s[p..]) == SkipSpaces(s[from..])
    {
      assert s[p..][1..] == s[p + 1..];
      p := p + 1;
    }
  }

  lemma ParamsUnfold(t: string, pos: nat, next: nat)
    requires pos < |t| && t[pos] != ':' && next == pos + FindSpace(t[pos..])
    ensures ParamsOf(t[pos..]) ==
      if next == |t| then [t[pos..]] else [t[pos..next]] + ParamsOf(SkipSpaces(t[next + 1..]))
  {
    hide SkipSpaces, ParamsOf;
    if next < |t| {
      SliceParts(t, pos, next);
    }
    ParamsHead(t[pos..]);
  }

  lemma SliceParts(t: string, pos: nat, next: nat)
    requires pos <= next < |t|
    ensures t[pos..][..next - pos] == t[pos..next] && t[pos..][next - pos + 1..] == t[next + 1..]
  {
  }

  lemma ParamsHead(s: string)
    requires s != "" && s[0] != ':'
    ensures var space := FindSpace(s);
      ParamsOf(s) == if space == |s| then [s] else [s[..space]] + ParamsOf(SkipSpaces(s[space + 1..]))
  {
  }

  lemma ParamsEnd(t: string, pos: nat)
    requires pos <= |t|
    ensures pos == |t| ==> ParamsOf(t[pos..]) == []
    ensures pos < |t| && t[pos] == ':' ==> ParamsOf(t[pos..]) == [t[pos + 1..]]
  {
    assert pos < |t| ==> t[pos..][1..] == t[pos + 1..];
  }

  method CollectParams(trimmed: string, start: nat) returns (params: seq<string>)
    requires start <= |trimmed|
    ensures params == ParamsOf(trimmed[start..])
  {
    hide ParamsOf, FindSpace, SkipSpaces;
    params := [];
    var pos := start;
    ghost var all := ParamsOf(trimmed[start..]);
    while pos < |trimmed|
      invariant start <= pos <= |trimmed|
      invariant params + ParamsOf(trimmed[pos..]) == all
      decreases |trimmed| - pos
    {
      ParamsEnd(trimmed, pos);
      if trimmed[pos] == ':' {
        return params + [trimmed[pos + 1..]];
      }
      var next := FindFrom(trimmed, pos);
      ParamsUnfold(trimmed, pos, next);
      if next == |trimmed| {
        return params + [trimmed[pos..]];
      }
      Assoc(params, [trimmed[pos..next]], ParamsOf(SkipSpaces(trimmed[next + 1..])));
      params := params + [trimmed[pos..next]];
      pos := SkipFrom(trimmed, next + 1);
    }
    ParamsEnd(trimmed, pos);
  }

  method ProcessLine(line: string) returns (m: Option<Message>)
    ensures m == Parse(line)
  {
    hide ParamsOf, SkipSpaces, ToUpper, Trim;
    var trimmed := BuildTrim(line);
    if trimmed == "" {
      return None;
    }
    var pos := 0;
    assert trimmed[0..] == trimmed;
    if trimmed[0] == ':' {
      var space := FindFrom(trimmed, 0);
      if space < |trimmed| {
        pos := space + 1;
      }
    }
    assert trimmed[pos..] == WithoutPrefix(trimmed);
    pos := SkipFrom(trimmed, pos);
    ghost var body := trimmed[pos..];
    var space := FindFrom(trimmed, pos);
    if space == |trimmed| {
      var command := BuildUpper(trimmed[pos..]);
      m := Some(Message(command, []));
    } else {
      var command := BuildUpper(trimmed[pos..space]);
      assert body[..space - pos] == trimmed[pos..space] && body[space - pos + 1..] == trimmed[space + 1..];
      var params := CollectParams(trimmed, space + 1);
      m := Some(Message(command, params));
    }
  }

  // Canonical messages parse back.

  predicate Word(s: string) {
    s != "" && s[0] != ':' && forall i :: 0 <= i < |s| ==> !IsSpace(s[i])
  }

  /** A trailing parameter the trim at the end of the line leaves alone. */
  predicate Trailing(s: string) {
    s == "" || !IsSpace(s[|s| - 1])
  }

  function RenderParams(middles: seq<string>, trailing: Option<string>): string {
    if middles == [] then
      (match trailing case None => "" case Some(t) => ":" + t)
    else if |middles| == 1 && trailing == None then middles[0]
    else middles[0] + " " + RenderParams(middles[1..], trailing)
  }

  function Render(command: string, middles: seq<string>, trailing: Option<string>): string {
    if middles == [] && trailing == None then command
    else command + " " + RenderParams(middles, trailing)
  }

  function AllParams(middles: seq<string>, trailing: Option<string>): seq<string> {
    match trailing case None => middles case Some(t) => middles + [t]
  }

  predicate Canonical(middles: seq<string>, trailing: Option<string>) {
    (forall i :: 0 <= i < |middles| ==> Word(middles[i])) && (trailing.Some? ==> Trailing(trailing.value))
  }

  lemma {:induction false} FindInWord(word: string, rest: string)
    requires forall i :: 0 <= i < |word| ==> word[i] != ' '
    ensures FindSpace(word + " " + rest) == |word| && FindSpace(word) == |word|
    decreases |word|
  {
    if word != "" {
      FindInWord(word[1..], rest);
      assert (word + " " + rest)[1..] == word[1..] + " " + rest;
    }
  }

  predicate Solid(s: string) {
    s != "" && s[0] != ' ' && !IsSpace(s[|s| - 1])
  }

  lemma ParamsOfWord(word: string)
    requires Word(word)
    ensures ParamsOf(word) == [word] && Solid(word)
  {
    FindInWord(word, "");
  }

  lemma ParamsOfWordAnd(word: string, rest: string)
    requires Word(word) && Solid(rest)
    ensures ParamsOf(word + " " + rest) == [word] + ParamsOf(rest) && Solid(word + " " + rest)
  {
    FindInWord(word, rest);
    var all := word + " " + rest;
    assert all[..|word|] == word && all[|word| + 1..] == rest;
    assert SkipSpaces(rest) == rest;
    assert all[|all| - 1] == rest[|rest| - 1];
  }

  lemma AllParamsCons(middles: seq<string>, trailing: Option<string>)
    requires middles != []
    ensures AllParams(middles, trailing) == [middles[0]] + AllParams(middles[1..], trailing)
  {
    assert middles == [middles[0]] + middles[1..];
    if trailing.Some? {
      Assoc([middles[0]], middles[1..], [trailing.value]);
    }
  }

  lemma RenderCons(middles: seq<string>, trailing: Option<string>)
    requires |middles| > 1 || (middles != [] && trailing.Some?)
    ensures RenderParams(middles, trailing) == middles[0] + " " + RenderParams(middles[1..], trailing)
  {
  }

  lemma {:induction false} ParamsRoundTrip(middles: seq<string>, trailing: Option<string>)
    requires Canonical(middles, trailing)
    ensures ParamsOf(RenderParams(middles, trailing)) == AllParams(middles, trailing)
    ensures middles != [] || trailing.Some? ==> Solid(RenderParams(middles, trailing))
    decreases |middles|
  {
    if middles == [] {
      if trailing.Some? {
        assert (":" + trailing.value)[1..] == trailing.value;
      }
    } else if |middles| == 1 && trailing == None {
      ParamsOfWord(middles[0]);
    } else {
      AllParamsCons(middles, trailing);
      RenderCons(middles, trailing);
      hide ParamsOf, Word, Trailing, Solid, IsSpace, RenderParams, AllParams;
      ParamsRoundTrip(middles[1..], trailing);
      ParamsOfWordAnd(middles[0], RenderParams(middles[1..], trailing));
    }
  }

  lemma ParseWord(command: string)
    requires Word(command)
    ensures Parse(command) == Some(Message(ToUpper(command), []))
  {
    TrimSame(command);
    FindInWord(command, "");
  }

  lemma ParseWordAnd(command: string, rest: string)
    requires Word(command) && Solid(rest)
    ensures Parse(command + " " + rest) == Some(Message(ToUpper(command), ParamsOf(rest)))
  {
    var line := command + " " + rest;
    assert line[|line| - 1] == rest[|rest| - 1];
    TrimSame(line);
    FindInWord(command, rest);
    assert line[..|command|] == command && line[|command| + 1..] == rest;
  }

  /** A canonical message tokenises back to its command, in upper case, and its parameters. */
  lemma RoundTrip(command: string, middles: seq<string>, trailing: Option<string>)
    requires Word(command) && Canonical(middles, trailing)
    ensures Parse(Render(command, middles, trailing)) == Some(Message(ToUpper(command), AllParams(middles, trailing)))
  {
    hide Parse, Word, Solid, ParamsOf, RenderParams, Canonical;
    if middles == [] && trailing == None {
      ParseWord(command);
    } else {
      ParamsRoundTrip(middles, trailing);
      ParseWordAnd(command, RenderParams(middles, trailing));
    }
  }
}
