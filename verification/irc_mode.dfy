// The MODE mini-language on a channel (irc/src/CommandHandler.cpp:475-633,
// irc/src/Server.cpp:476-495), after RFC 2812, section 3.2.3.

module IrcMode {
  import opened Collections
  import opened Limits
  import opened IrcText
  import opened IrcParse
  import opened IrcChannel

  /** The client a nickname finds. */
  type Lookup = string -> Option<int>

  /** modes and args are what the handler would announce; arg counts the arguments consumed. */
  datatype Mode = Mode(
    ch: Channel, add: bool, applied: bool, seen: bool, arg: nat,
    modes: string, args: seq<string>, unknown: bool, halted: bool)
  {
    function Sign(): char {
      if add then '+' else '-'
    }

    /** Notes the letter, with the sign in front when none was noted since it was read. */
    function Note(m: char): Mode {
      this.(modes := modes + (if applied then [m] else [Sign(), m]), applied := true)
    }

    function NoteArg(m: char, a: string): Mode {
      Note(m).(args := args + [a], arg := arg + 1)
    }
  }

  function Start(ch: Channel): Mode {
    Mode(ch, true, false, false, 0, "", [], false, false)
  }

  /** The letters that take no argument: i, t, and k and l when taken away. */
  function Plain(ch: Channel, add: bool, m: char): Option<Channel> {
    if m == 'i' then Some(ch.(inviteOnly := add))
    else if m == 't' then Some(ch.(topicRestricted := add))
    else if m == 'k' && !add then Some(ch.RemoveKey())
    else if m == 'l' && !add then Some(ch.RemoveLimit())
    else None
  }

  predicate TakesArg(add: bool, m: char) {
    m == 'o' || ((m == 'k' || m == 'l') && add)
  }

  /** The letters on their argument; None when the handler skips letter and argument. */
  function WithArg(look: Lookup, ch: Channel, add: bool, m: char, a: string): Option<Channel> {
    if m == 'k' then Some(ch.SetKey(a))
    else if m == 'o' then
      (match look(a)
       case None => None
       case Some(fd) => if fd !in ch.members then None else Some(if add then ch.Grant(fd) else ch.Revoke(fd)))
    else if Atoi(a) > 0 then Some(ch.SetLimit(Atoi(a)))
    else None
  }

  /** One character of the mode string; given are the arguments behind it. */
  function ModeStep(look: Lookup, given: seq<string>, st: Mode, m: char): Mode {
    if m == '+' || m == '-' then st.(add := m == '+', seen := true, applied := false)
    else if !st.seen then st.(unknown := true, halted := true)
    else
      match Plain(st.ch, st.add, m)
      case Some(ch) => st.(ch := ch).Note(m)
      case None =>
        if !TakesArg(st.add, m) then st.(unknown := true, halted := true)
        else if st.arg >= |given| then st.(halted := true)
        else
          match WithArg(look, st.ch, st.add, m, given[st.arg])
          case Some(ch) => st.(ch := ch).NoteArg(m, given[st.arg])
          case None => st.(arg := st.arg + 1)
  }

  function ModeLoop(look: Lookup, given: seq<string>, st: Mode, s: string): Mode
    decreases |s|
  {
    if st.halted || s == "" then st
    else ModeLoop(look, given, ModeStep(look, given, st, s[0]), s[1..])
  }

  /** Whether the handler announces the change to the channel. */
  predicate Announced(st: Mode) {
    !st.unknown && st.modes != ""
  }

  lemma {:induction false} LoopAppend(look: Lookup, given: seq<string>, st: Mode, s: string, t: string)
    ensures ModeLoop(look, given, st, s + t) == ModeLoop(look, given, ModeLoop(look, given, st, s), t)
    decreases |s|
  {
    if s == "" {
      assert s + t == t;
    } else if !st.halted {
      assert (s + t)[1..] == s[1..] + t;
      LoopAppend(look, given, ModeStep(look, given, st, s[0]), s[1..], t);
    }
  }

  /** A step that does not halt is the same with more arguments behind. */
  lemma StepMoreArgs(look: Lookup, given: seq<string>, more: seq<string>, st: Mode, m: char)
    requires !ModeStep(look, given, st, m).halted
    ensures ModeStep(look, given + more, st, m) == ModeStep(look, given, st, m)
  {
  }

  lemma {:induction false} LoopMoreArgs(look: Lookup, given: seq<string>, more: seq<string>, st: Mode, s: string)
    requires !ModeLoop(look, given, st, s).halted
    ensures ModeLoop(look, given + more, st, s) == ModeLoop(look, given, st, s)
    decreases |s|
  {
    if !st.halted && s != "" {
      var next := ModeStep(look, given, st, s[0]);
      if !next.halted {
        StepMoreArgs(look, given, more, st, s[0]);
        LoopMoreArgs(look, given, more, next, s[1..]);
      }
    }
  }

  /** Replaying what st has noted, from the same channel, ends in the same place. */
  ghost predicate Mirrors(look: Lookup, ch: Channel, st: Mode) {
    var again := ModeLoop(look, st.args, Start(ch), st.modes);
    && again.ch == st.ch && again.modes == st.modes && again.args == st.args
    && again.arg == |st.args| && !again.unknown && !again.halted
    && (st.modes == "" ==> st.ch == ch && st.args == [])
    && (st.modes != "" ==> again.applied && again.seen)
    && (st.applied ==> st.modes != "" && again.add == st.add && st.seen)
    && (st.unknown ==> st.halted)
  }

  /** The sign still to be noted before the next letter. */
  function Owed(st: Mode): string {
    if st.applied then "" else [st.Sign()]
  }

  /** Where the replay stands when st is about to note a letter. */
  function Caught(st: Mode): Mode {
    st.(arg := |st.args|)
  }

  lemma ReplayCatchesUp(look: Lookup, ch: Channel, st: Mode, more: seq<string>)
    requires Mirrors(look, ch, st) && st.seen && !st.halted
    ensures ModeLoop(look, st.args + more, Start(ch), st.modes + Owed(st)) == Caught(st)
  {
    var given := st.args + more;
    var again := ModeLoop(look, st.args, Start(ch), st.modes);
    LoopMoreArgs(look, st.args, more, Start(ch), st.modes);
    LoopAppend(look, given, Start(ch), st.modes, Owed(st));
    if !st.applied {
      assert [st.Sign()][1..] == "";
      assert ModeLoop(look, given, again, [st.Sign()]) == ModeStep(look, given, again, st.Sign());
    }
  }

  /** Noting a letter does the same in the replay, where the argument lies last. */
  lemma NotedStep(look: Lookup, given: seq<string>, st: Mode, m: char)
    requires !st.halted && !st.unknown && ModeStep(look, given, st, m).modes != st.modes
    ensures var next := ModeStep(look, given, st, m);
      && next.modes == st.modes + Owed(st) + [m]
      && next.applied && next.seen && st.seen && !next.halted && !next.unknown
      && st.args <= next.args
      && ModeStep(look, next.args, Caught(st), m) == Caught(next)
  {
    hide Plain, WithArg, TakesArg;
  }

  lemma QuietStep(look: Lookup, given: seq<string>, st: Mode, m: char)
    requires !st.halted && !st.unknown && ModeStep(look, given, st, m).modes == st.modes
    ensures var next := ModeStep(look, given, st, m);
      && next.ch == st.ch && next.args == st.args
      && (next.applied ==> st.applied && next.add == st.add && next.seen == st.seen)
      && (next.unknown ==> next.halted)
  {
    hide Plain, WithArg, TakesArg;
  }

  lemma StepMirrors(look: Lookup, given: seq<string>, ch: Channel, st: Mode, m: char)
    requires Mirrors(look, ch, st) && !st.halted
    ensures Mirrors(look, ch, ModeStep(look, given, st, m))
  {
    var next := ModeStep(look, given, st, m);
    if next.modes == st.modes {
      QuietStep(look, given, st, m);
    } else {
      NotedStep(look, given, st, m);
      var more := next.args[|st.args|..];
      ReplayCatchesUp(look, ch, st, more);
      assert st.args + more == next.args;
      LoopAppend(look, next.args, Start(ch), st.modes + Owed(st), [m]);
      assert [m][1..] == "";
      assert ModeLoop(look, next.args, Caught(st), [m]) == Caught(next);
    }
  }

  lemma {:induction false} LoopMirrors(look: Lookup, given: seq<string>, ch: Channel, st: Mode, s: string)
    requires Mirrors(look, ch, st)
    ensures Mirrors(look, ch, ModeLoop(look, given, st, s))
    decreases |s|
  {
    if !st.halted && s != "" {
      StepMirrors(look, given, ch, st, s[0]);
      LoopMirrors(look, given, ch, ModeStep(look, given, st, s[0]), s[1..]);
    }
  }

  /**
   * What the handler notes is a normal form: on the same channel it has the same
   * effect, is noted again as it stands, uses every argument, and is announced
   * if it says anything. If it is empty the channel is unchanged.
   */
  lemma NormalForm(look: Lookup, given: seq<string>, ch: Channel, s: string)
    ensures var st := ModeLoop(look, given, Start(ch), s);
      var again := ModeLoop(look, st.args, Start(ch), st.modes);
      && again.ch == st.ch && again.modes == st.modes && again.args == st.args
      && again.arg == |st.args| && !again.halted
      && (Announced(again) <==> st.modes != "")
      && (st.modes == "" ==> st.ch == ch)
  {
    assert Mirrors(look, ch, Start(ch));
    LoopMirrors(look, given, ch, Start(ch), s);
  }

  /** A change can go unannounced: an unknown letter at the end suppresses the message. */
  lemma ChangeUnannounced(look: Lookup, ch: Channel)
    requires !ch.inviteOnly
    ensures var st := ModeLoop(look, [], Start(ch), "+ix");
      st.ch == ch.(inviteOnly := true) && !Announced(st)
  {
    var s := "+ix";
    assert s[1..] == "ix" && "ix"[1..] == "x" && "x"[1..] == "";
    var a := ModeStep(look, [], Start(ch), '+');
    var b := ModeStep(look, [], a, 'i');
    assert ModeLoop(look, [], a, "ix") == ModeLoop(look, [], b, "x");
  }

  // What MODE leaves alone, and the invariant it keeps.

  predicate KeepsMembership(was: Channel, now: Channel) {
    now.members == was.members && now.invited == was.invited && now.name == was.name && now.topic == was.topic
  }

  lemma PlainFits(ch: Channel, add: bool, m: char)
    requires Fits(ch) && Plain(ch, add, m).Some?
    ensures Fits(Plain(ch, add, m).value) && KeepsMembership(ch, Plain(ch, add, m).value)
  {
  }

  lemma WithArgFits(look: Lookup, ch: Channel, add: bool, m: char, a: string)
    requires Fits(ch) && WithArg(look, ch, add, m, a).Some?
    ensures Fits(WithArg(look, ch, add, m, a).value) && KeepsMembership(ch, WithArg(look, ch, add, m, a).value)
  {
    AtoiRange(a);
    hide Atoi;
  }

  lemma StepFits(look: Lookup, given: seq<string>, st: Mode, m: char)
    requires Fits(st.ch)
    ensures Fits(ModeStep(look, given, st, m).ch) && KeepsMembership(st.ch, ModeStep(look, given, st, m).ch)
  {
    if Plain(st.ch, st.add, m).Some? {
      PlainFits(st.ch, st.add, m);
    } else if st.arg < |given| && WithArg(look, st.ch, st.add, m, given[st.arg]).Some? {
      WithArgFits(look, st.ch, st.add, m, given[st.arg]);
    }
    hide WithArg, Plain, Fits, TakesArg;
  }

  lemma {:induction false} LoopFits(look: Lookup, given: seq<string>, st: Mode, s: string)
    requires Fits(st.ch)
    ensures Fits(ModeLoop(look, given, st, s).ch) && KeepsMembership(st.ch, ModeLoop(look, given, st, s).ch)
    decreases |s|
  {
    hide ModeStep, Fits;
    if !st.halted && s != "" {
      StepFits(look, given, st, s[0]);
      LoopFits(look, given, ModeStep(look, given, st, s[0]), s[1..]);
    }
  }

  lemma {:induction false} AtoiRange(s: string)
    ensures -INT_MAX - 1 <= Atoi(s) <= INT_MAX
  {
    if s != "" && IsSpace(s[0]) {
      AtoiRange(s[1..]);
    }
  }

  // The answer to a MODE query, fed back as a MODE command.

  function ModeLetters(ch: Channel): string {
    "+" + (if ch.inviteOnly then "i" else "") + (if ch.topicRestricted then "t" else "")
    + (if ch.hasKey then "k" else "") + (if ch.hasLimit then "l" else "")
  }

  function ModeArgs(ch: Channel): seq<string> {
    (if ch.hasKey then [ch.key] else []) + (if ch.hasLimit then [Itoa(ch.limit)] else [])
  }

  function Spaced(args: seq<string>): string {
    if args == [] then "" else " " + args[0] + Spaced(args[1..])
  }

  /** channelModeString. */
  function ModeString(ch: Channel): string {
    ModeLetters(ch) + Spaced(ModeArgs(ch))
  }

  function LikeModes(ch: Channel, of: Channel): Channel {
    ch.(inviteOnly := of.inviteOnly, topicRestricted := of.topicRestricted,
        hasKey := of.hasKey, key := of.key, hasLimit := of.hasLimit, limit := of.limit)
  }

  /** The modes of a channel just created, whoever is on it. */
  predicate Blank(ch: Channel) {
    !ch.inviteOnly && !ch.topicRestricted && !ch.hasKey && ch.key == "" && !ch.hasLimit && ch.limit == 0
  }

  // The five states the query's letters lead through.

  lemma {:induction false} Letter(look: Lookup, given: seq<string>, st: Mode,
                                  s: string, on: bool, m: char, rest: string)
    requires !st.halted && s == (if on then [m] else "") + rest
    ensures ModeLoop(look, given, st, s) == ModeLoop(look, given, if on then ModeStep(look, given, st, m) else st, rest)
  {
    if on {
      assert s[1..] == rest;
    } else {
      assert s == rest;
    }
  }

  lemma LoopNothing(look: Lookup, given: seq<string>, st: Mode)
    ensures ModeLoop(look, given, st, "") == st
  {
  }

  lemma RestoreFlags(look: Lookup, given: seq<string>, of: Channel, blank: Channel, rest: string) returns (st: Mode)
    requires Blank(blank)
    ensures var tail := (if of.topicRestricted then "t" else "") + rest;
      ModeLoop(look, given, Start(blank), "+" + ((if of.inviteOnly then "i" else "") + tail))
      == ModeLoop(look, given, st, rest)
    ensures st.ch == blank.(inviteOnly := of.inviteOnly, topicRestricted := of.topicRestricted)
    ensures st.add && st.seen && st.arg == 0 && !st.halted
  {
    hide ModeLoop;
    var tail := (if of.topicRestricted then "t" else "") + rest;
    var body := (if of.inviteOnly then "i" else "") + tail;
    st := ModeStep(look, given, Start(blank), '+');
    Letter(look, given, Start(blank), "+" + body, true, '+', body);
    Letter(look, given, st, body, of.inviteOnly, 'i', tail);
    if of.inviteOnly {
      st := ModeStep(look, given, st, 'i');
    }
    Letter(look, given, st, tail, of.topicRestricted, 't', rest);
    if of.topicRestricted {
      st := ModeStep(look, given, st, 't');
    }
  }

  lemma RestoreArgs(look: Lookup, of: Channel, st: Mode)
    requires Fits(of) && st.add && st.seen && st.arg == 0 && !st.halted
    requires st.ch.hasKey == false && st.ch.key == "" && st.ch.hasLimit == false && st.ch.limit == 0
    ensures var s := (if of.hasKey then "k" else "") + (if of.hasLimit then "l" else "");
      var end := ModeLoop(look, ModeArgs(of), st, s);
      && end.ch == st.ch.(hasKey := of.hasKey, key := of.key, hasLimit := of.hasLimit, limit := of.limit)
      && !end.halted && end.arg == |ModeArgs(of)|
  {
    var given := ModeArgs(of);
    if of.hasLimit {
      AtoiItoa(of.limit);
    }
    hide Itoa, Atoi, ModeLoop;
    var tail := if of.hasLimit then "l" else "";
    Letter(look, given, st, (if of.hasKey then "k" else "") + tail, of.hasKey, 'k', tail);
    var e := if of.hasKey then ModeStep(look, given, st, 'k') else st;
    assert tail + "" == tail;
    Letter(look, given, e, tail, of.hasLimit, 'l', "");
    LoopNothing(look, given, if of.hasLimit then ModeStep(look, given, e, 'l') else e);
  }

  /** The letters and arguments of a query set the same modes on a channel without any. */
  lemma ModesRestored(look: Lookup, of: Channel, blank: Channel)
    requires Fits(of) && Blank(blank)
    ensures var st := ModeLoop(look, ModeArgs(of), Start(blank), ModeLetters(of));
      st.ch == LikeModes(blank, of) && !st.halted && st.arg == |ModeArgs(of)|
  {
    var rest := (if of.hasKey then "k" else "") + (if of.hasLimit then "l" else "");
    assert ModeLetters(of) ==
      "+" + ((if of.inviteOnly then "i" else "") + ((if of.topicRestricted then "t" else "") + rest));
    hide ModeLoop, ModeArgs;
    var st := RestoreFlags(look, ModeArgs(of), of, blank, rest);
    RestoreArgs(look, of, st);
  }

  /** What a client sends back: MODE, the channel, and the text of the query's answer. */
  function ModeLine(ch: Channel): string {
    "MODE" + " " + ch.name + " " + ModeString(ch)
  }

  lemma {:induction false} SpacedRender(middles: seq<string>)
    requires middles != []
    ensures RenderParams(middles, None) == middles[0] + Spaced(middles[1..])
    decreases |middles|
  {
    if |middles| == 1 {
      assert Spaced(middles[1..]) == "";
      assert middles[0] + "" == middles[0];
    } else {
      var rest := middles[1..];
      SpacedRender(rest);
      RenderCons(middles, None);
      assert Spaced(rest) == " " + rest[0] + Spaced(rest[1..]);
      hide RenderParams, Spaced;
      Assoc(middles[0], " ", rest[0] + Spaced(rest[1..]));
      Assoc(" ", rest[0], Spaced(rest[1..]));
    }
  }

  lemma LettersAreWord(ch: Channel)
    ensures Word(ModeLetters(ch))
  {
  }

  lemma ArgsAreWords(ch: Channel)
    requires ch.hasKey ==> Word(ch.key)
    ensures forall i :: 0 <= i < |ModeArgs(ch)| ==> Word(ModeArgs(ch)[i])
  {
  }

  /** A command with its words, written with single spaces, is the canonical message. */
  lemma SpacedIsRender(command: string, target: string, letters: string, args: seq<string>)
    ensures command + " " + target + " " + letters + Spaced(args) == Render(command, [target, letters] + args, None)
  {
    var middles := [target, letters] + args;
    SpacedRender(middles);
    assert middles[1..] == [letters] + args && middles[1..][1..] == args;
    SpacedTwo(letters, args);
    hide RenderParams, Spaced;
    Assoc(command + " ", target, " " + letters + Spaced(args));
    Assoc(command + " " + target, " " + letters, Spaced(args));
    Assoc(command + " " + target, " ", letters);
  }

  lemma SpacedTwo(letters: string, args: seq<string>)
    ensures Spaced([letters] + args) == " " + letters + Spaced(args)
  {
    assert ([letters] + args)[1..] == args;
  }

  lemma WordsCanonical(target: string, letters: string, args: seq<string>)
    requires Word(target) && Word(letters) && forall i :: 0 <= i < |args| ==> Word(args[i])
    ensures Canonical([target, letters] + args, None)
    ensures AllParams([target, letters] + args, None) == [target, letters] + args
  {
  }

  lemma ModeIsWord()
    ensures Word("MODE") && ToUpper("MODE") == "MODE"
  {
    assert ToUpper("MODE") == "MODE";
  }

  /** A MODE line of words reads as the command MODE on its target, letters and arguments. */
  lemma ModeCommandParses(target: string, letters: string, args: seq<string>)
    requires Word(target) && Word(letters) && forall i :: 0 <= i < |args| ==> Word(args[i])
    ensures Parse("MODE" + " " + target + " " + letters + Spaced(args))
         == Some(Message("MODE", [target, letters] + args))
    ensures Solid("MODE" + " " + target + " " + letters + Spaced(args))
  {
    ModeIsWord();
    WordsCanonical(target, letters, args);
    hide Word, Canonical, AllParams, ToUpper, Parse, Solid, Render, Spaced;
    var command := "MODE";
    SpacedIsRender(command, target, letters, args);
    RoundTrip(command, [target, letters] + args, None);
    RenderSolid(command, [target, letters] + args);
  }

  lemma RenderSolid(command: string, middles: seq<string>)
    requires Word(command) && middles != [] && Canonical(middles, None)
    ensures Solid(Render(command, middles, None))
  {
    ParamsRoundTrip(middles, None);
    var rest := RenderParams(middles, None);
    var line := command + " " + rest;
    hide RenderParams;
    assert line[|line| - 1] == rest[|rest| - 1] && line[0] == command[0];
  }

  /** The line reads as the command MODE on the channel with the letters and arguments of the query. */
  lemma ModeLineParses(ch: Channel)
    requires Word(ch.name) && (ch.hasKey ==> Word(ch.key))
    ensures Parse(ModeLine(ch)) == Some(Message("MODE", [ch.name, ModeLetters(ch)] + ModeArgs(ch)))
  {
    LettersAreWord(ch);
    ArgsAreWords(ch);
    hide Parse, ModeLetters, ModeArgs, Word, Spaced;
    ModeCommandParses(ch.name, ModeLetters(ch), ModeArgs(ch));
    Assoc("MODE" + " " + ch.name + " ", ModeLetters(ch), Spaced(ModeArgs(ch)));
  }

  /** The answer to a MODE query, sent back for a blank channel of that name, restores every mode. */
  lemma QueryRestores(look: Lookup, ch: Channel, blank: Channel)
    requires Fits(ch) && Blank(blank) && Word(ch.name) && (ch.hasKey ==> Word(ch.key))
    ensures var m := Parse(ModeLine(ch));
      && m.Some? && m.value.command == "MODE" && |m.value.params| >= 2 && m.value.params[0] == ch.name
      && ModeLoop(look, m.value.params[2..], Start(blank), m.value.params[1]).ch == LikeModes(blank, ch)
  {
    ModeLineParses(ch);
    ModesRestored(look, ch, blank);
    var params := [ch.name, ModeLetters(ch)] + ModeArgs(ch);
    assert params[2..] == ModeArgs(ch);
  }
}
