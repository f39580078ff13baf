// The line the server announces for a MODE command: when there is one, and what it says.

module IrcAnnounce {
  import opened IrcText
  import opened IrcParse
  import opened IrcChannel
  import opened IrcMode
  import opened IrcNet
  import opened IrcInv
  import opened IrcRun

  function UserPrefix(c: Client): string {
    c.nick + "!" + c.user + "@" + c.host
  }

  function ModeMessage(c: Client, target: string, modes: string, args: seq<string>): string {
    ":" + UserPrefix(c) + " " + ("MODE" + " " + target + " " + modes + Spaced(args)) + "\r\n"
  }

  lemma MessageText(c: Client, target: string, modes: string, args: seq<string>)
    ensures ModeMessage(c, target, modes, args) ==
      ":" + c.nick + "!" + c.user + "@" + c.host + " MODE " + target + " " + modes + Spaced(args) + "\r\n"
  {
    var tail := " " + modes + Spaced(args) + "\r\n";
    assert "MODE" + " " + target == "MODE " + target;
    assert ModeMessage(c, target, modes, args) == ":" + UserPrefix(c) + " MODE " + target + tail;
    assert ":" + UserPrefix(c) == ":" + c.nick + "!" + c.user + "@" + c.host;
  }

  // When a change is announced.

  /**
   * Whether the handler, reading s behind a sign or not, meets a letter it does not
   * know before it runs out of its n arguments. Needs neither the channel nor the clients.
   */
  predicate MeetsUnknown(s: string, add: bool, seen: bool, n: nat) {
    if s == "" then false
    else if s[0] == '+' || s[0] == '-' then MeetsUnknown(s[1..], s[0] == '+', true, n)
    else if !seen then true
    else if TakesArg(add, s[0]) then n > 0 && MeetsUnknown(s[1..], add, seen, n - 1)
    else s[0] !in "itkl" || MeetsUnknown(s[1..], add, seen, n)
  }

  lemma PlainLetters(ch: Channel, add: bool, m: char)
    ensures Plain(ch, add, m).Some? <==> m in "itkl" && !TakesArg(add, m)
  {
  }

  /** What reading one letter does to the letters still unread. */
  lemma StepReads(look: Lookup, given: seq<string>, st: Mode, m: char)
    requires !st.halted && !st.unknown && st.arg <= |given|
    ensures var next := ModeStep(look, given, st, m);
      if m == '+' || m == '-'
      then !next.halted && next.add == (m == '+') && next.seen && next.arg == st.arg && !next.unknown
      else if !st.seen then next.unknown && next.halted
      else if TakesArg(st.add, m) then
        && !next.unknown && (next.halted <==> st.arg == |given|)
        && (!next.halted ==> next.arg == st.arg + 1 && next.add == st.add && next.seen)
      else if m in "itkl" then !next.halted && !next.unknown && next.arg == st.arg && next.add == st.add && next.seen
      else next.unknown && next.halted
  {
    PlainLetters(st.ch, st.add, m);
    hide Plain, WithArg, TakesArg;
  }

  lemma {:induction false} LoopMeets(look: Lookup, given: seq<string>, st: Mode, s: string)
    requires !st.halted && !st.unknown && st.arg <= |given|
    ensures ModeLoop(look, given, st, s).unknown <==> MeetsUnknown(s, st.add, st.seen, |given| - st.arg)
    decreases |s|
  {
    if s != "" {
      StepReads(look, given, st, s[0]);
      var next := ModeStep(look, given, st, s[0]);
      hide ModeStep, TakesArg;
      if !next.halted {
        LoopMeets(look, given, next, s[1..]);
      }
    }
  }

  /** A change is announced exactly when the mode string meets no unknown letter. */
  lemma AnnouncedExactly(look: Lookup, given: seq<string>, ch: Channel, s: string)
    ensures var st := ModeLoop(look, given, Start(ch), s);
      st.ch != ch ==> (Announced(st) <==> !MeetsUnknown(s, true, false, |given|))
  {
    NormalForm(look, given, ch, s);
    LoopMeets(look, given, Start(ch), s);
  }

  // What the announced line says when it is read as a command.

  predicate Letters(s: string) {
    forall i :: 0 <= i < |s| ==> s[i] in "+-itkol"
  }

  lemma NotedLetters(look: Lookup, given: seq<string>, st: Mode, m: char)
    requires Letters(st.modes) && forall a :: a in st.args ==> a in given
    ensures var next := ModeStep(look, given, st, m);
      Letters(next.modes) && forall a :: a in next.args ==> a in given
  {
    PlainLetters(st.ch, st.add, m);
    hide Plain, WithArg;
  }

  /** The noted modes are letters the handler knows, the noted arguments some of those given. */
  lemma {:induction false} LoopLetters(look: Lookup, given: seq<string>, st: Mode, s: string)
    requires Letters(st.modes) && forall a :: a in st.args ==> a in given
    ensures var end := ModeLoop(look, given, st, s);
      Letters(end.modes) && forall a :: a in end.args ==> a in given
    decreases |s|
  {
    if !st.halted && s != "" {
      NotedLetters(look, given, st, s[0]);
      hide ModeStep, Letters;
      LoopLetters(look, given, ModeStep(look, given, st, s[0]), s[1..]);
    }
  }

  lemma LettersWord(s: string)
    requires Letters(s) && s != ""
    ensures Word(s)
  {
    forall i | 0 <= i < |s| ensures !IsSpace(s[i]) {
      assert s[i] in "+-itkol";
    }
  }

  lemma TrimLine(line: string)
    requires Solid(line) && !IsSpace(line[0])
    ensures Trim(line + "\r\n") == line
  {
    var full := line + "\r\n";
    assert full[..|full| - 1] == line + "\r";
    assert (line + "\r")[..|line|] == line;
    assert TrimEnd(full) == TrimEnd(line + "\r") == TrimEnd(line) == line;
  }

  /** A prefix and the line ending do not change what a line says. */
  lemma PrefixIgnored(prefix: string, body: string)
    requires Solid(body) && body[0] != ':' && !IsSpace(body[0])
    requires forall i :: 0 <= i < |prefix| ==> prefix[i] != ' '
    ensures Parse(":" + prefix + " " + body + "\r\n") == Parse(body)
  {
    var line := ":" + prefix + " " + body;
    assert line[|line| - 1] == body[|body| - 1];
    TrimLine(line);
    TrimSame(body);
    FindInWord(":" + prefix, body);
    assert line[|":" + prefix| + 1..] == body;
    assert WithoutPrefix(line) == body && WithoutPrefix(body) == body;
    hide FindSpace, ParamsOf, Trim, WithoutPrefix, IsSpace;
  }

  /** Every argument of the command is a word: no white space, no leading colon, not empty. */
  predicate Plainspoken(params: seq<string>) {
    forall i :: 0 <= i < |params| ==> Word(params[i])
  }

  lemma NotedArgs(st: Mode, given: seq<string>)
    requires Plainspoken(given) && forall a :: a in st.args ==> a in given
    ensures forall i :: 0 <= i < |st.args| ==> Word(st.args[i])
  {
    forall i | 0 <= i < |st.args| ensures Word(st.args[i]) {
      assert st.args[i] in given;
    }
  }

  /** Read as text, the announced line is the MODE command with the noted modes and arguments. */
  lemma AnnouncedParses(net: Net, fd: int, params: seq<string>)
    requires fd in net.clients && ModeAllowed(net, fd, params) && Plainspoken(params[2..]) && Word(params[0])
    requires ' ' !in UserPrefix(net.clients[fd]) && Announced(ModeResult(net, params))
    ensures var st := ModeResult(net, params);
      Parse(ModeMessage(net.clients[fd], params[0], st.modes, st.args))
      == Some(Message("MODE", [params[0], st.modes] + st.args))
  {
    var st, target := ModeResult(net, params), params[0];
    LoopLetters(Look(net.clients), params[2..], Start(net.channels[target]), params[1]);
    LettersWord(st.modes);
    NotedArgs(st, params[2..]);
    hide ModeLoop, Word, Plainspoken, Parse, Solid, Spaced, UserPrefix;
    ModeCommandParses(target, st.modes, st.args);
    BodyStarts(target, st.modes, st.args);
    PrefixIgnored(UserPrefix(net.clients[fd]), "MODE" + " " + target + " " + st.modes + Spaced(st.args));
  }

  lemma BodyStarts(target: string, modes: string, args: seq<string>)
    ensures ("MODE" + " " + target + " " + modes + Spaced(args))[0] == 'M'
  {
  }

  /**
   * A client that sends the announced line itself gets what the original command did,
   * and the server announces the same line again.
   */
  lemma AnnouncedReplays(net: Net, fd: int, params: seq<string>, password: string)
    requires Sound(net) && fd in net.clients && ModeAllowed(net, fd, params)
    requires Plainspoken(params[2..]) && Word(params[0]) && ' ' !in UserPrefix(net.clients[fd])
    requires Announced(ModeResult(net, params))
    ensures var st := ModeResult(net, params);
      var line := ModeMessage(net.clients[fd], params[0], st.modes, st.args);
      var again := ModeResult(net, [params[0], st.modes] + st.args);
      && Happen(net, LineIn(fd, line), password) == DoMode(net, fd, params)
      && Announced(again) && again.modes == st.modes && again.args == st.args
  {
    var st := ModeResult(net, params);
    OperatorFacts(net, fd, params[0]);
    AnnouncedParses(net, fd, params);
    ModeReplays(net, fd, params);
    Dispatch(net, fd, Message("MODE", [params[0], st.modes] + st.args), password);
    hide Parse, Command, DoMode, ModeMessage, Close, ModeLoop, Inv, ModeAllowed;
    ModeKeepsClients(net, fd, params);
  }

  lemma ModeKeepsClients(net: Net, fd: int, params: seq<string>)
    requires fd in net.clients
    ensures DoMode(net, fd, params).clients == net.clients
  {
  }
}
