// "Every channel has an operator": which commands keep it, and exactly which do not.

module IrcOperators {
  import opened IrcText
  import opened IrcParse
  import opened IrcChannel
  import opened IrcMode
  import opened IrcNet
  import opened IrcInv
  import opened IrcEffect
  import opened IrcRun
  import opened IrcAnnounce

  ghost predicate Operated(net: Net) {
    forall name :: name in net.channels ==> net.channels[name].operators != {}
  }

  // MODE, from its text.

  /** Whether fd operates the channel after the letter m, when it did (op) or did not before. */
  predicate OpStep(look: Lookup, members: set<int>, given: seq<string>, n: nat, m: char, add: bool, fd: int, op: bool) {
    if m == 'o' && n < |given| && look(given[n]) == Some(fd) && fd in members then add else op
  }

  /**
   * Whether fd operates a channel with these members once the mode string s has been read,
   * behind a sign or not, with n arguments consumed. Needs nothing else of the channel.
   */
  predicate OpAfter(
    look: Lookup, members: set<int>, given: seq<string>, n: nat, s: string, add: bool, seen: bool, fd: int, op: bool)
    decreases |s|
  {
    if s == "" then op
    else if s[0] == '+' || s[0] == '-' then OpAfter(look, members, given, n, s[1..], s[0] == '+', true, fd, op)
    else if !seen then op
    else if TakesArg(add, s[0]) then
      if n >= |given| then op
      else
        OpAfter(look, members, given, n + 1, s[1..], add, seen, fd,
                OpStep(look, members, given, n, s[0], add, fd, op))
    else if s[0] in "itkl" then OpAfter(look, members, given, n, s[1..], add, seen, fd, op)
    else op
  }

  lemma PlainKeepsOperators(ch: Channel, add: bool, m: char)
    requires Plain(ch, add, m).Some?
    ensures Plain(ch, add, m).value.operators == ch.operators && Plain(ch, add, m).value.members == ch.members
  {
  }

  lemma WithArgOperates(look: Lookup, ch: Channel, add: bool, m: char, given: seq<string>, n: nat, fd: int)
    requires n < |given| && TakesArg(add, m)
    ensures var e := WithArg(look, ch, add, m, given[n]);
      var now := if e.Some? then e.value else ch;
      && now.members == ch.members
      && (fd in now.operators <==> OpStep(look, ch.members, given, n, m, add, fd, fd in ch.operators))
  {
    hide Atoi;
  }

  lemma StepOperates(look: Lookup, given: seq<string>, st: Mode, m: char, fd: int)
    requires !st.halted && !st.unknown && st.arg <= |given|
    ensures var next := ModeStep(look, given, st, m);
      && next.ch.members == st.ch.members
      && (fd in next.ch.operators <==>
            if st.seen && TakesArg(st.add, m)
            then OpStep(look, st.ch.members, given, st.arg, m, st.add, fd, fd in st.ch.operators)
            else fd in st.ch.operators)
  {
    PlainLetters(st.ch, st.add, m);
    if Plain(st.ch, st.add, m).Some? {
      PlainKeepsOperators(st.ch, st.add, m);
    }
    if TakesArg(st.add, m) && st.arg < |given| {
      WithArgOperates(look, st.ch, st.add, m, given, st.arg, fd);
    }
    assert TakesArg(st.add, m) ==> m != '+' && m != '-';
    hide Plain, WithArg, TakesArg;
  }

  lemma {:induction false} LoopOperates(look: Lookup, given: seq<string>, st: Mode, s: string, fd: int)
    requires !st.halted && !st.unknown && st.arg <= |given|
    ensures fd in ModeLoop(look, given, st, s).ch.operators <==>
      OpAfter(look, st.ch.members, given, st.arg, s, st.add, st.seen, fd, fd in st.ch.operators)
    decreases |s|
  {
    if s != "" {
      StepReads(look, given, st, s[0]);
      StepOperates(look, given, st, s[0], fd);
      var next := ModeStep(look, given, st, s[0]);
      assert TakesArg(st.add, s[0]) ==> s[0] != '+' && s[0] != '-';
      hide ModeStep, TakesArg, OpStep;
      if !next.halted {
        LoopOperates(look, given, next, s[1..], fd);
      }
    }
  }

  /** Some member operates the channel after this MODE command. */
  ghost predicate LeavesOperator(net: Net, params: seq<string>)
    requires |params| >= 2 && params[0] in net.channels
  {
    var ch := net.channels[params[0]];
    exists f :: f in ch.members &&
      OpAfter(Look(net.clients), ch.members, params[2..], 0, params[1], true, false, f, f in ch.operators)
  }

  /** MODE keeps every channel operated exactly when its text leaves some member an operator. */
  lemma ModeOperatedExactly(net: Net, fd: int, params: seq<string>)
    requires Inv(net) && Operated(net) && fd in net.clients && ModeAllowed(net, fd, params)
    ensures Operated(DoMode(net, fd, params)) <==> LeavesOperator(net, params)
  {
    var ch, look := net.channels[params[0]], Look(net.clients);
    var now := ModeResult(net, params).ch;
    assert ChannelFits(params[0], ch);
    LoopFits(look, params[2..], Start(ch), params[1]);
    forall f ensures f in now.operators <==>
      OpAfter(look, ch.members, params[2..], 0, params[1], true, false, f, f in ch.operators)
    {
      LoopOperates(look, params[2..], Start(ch), params[1], f);
    }
    assert now.operators <= ch.members;
    hide ModeLoop, OpAfter, Inv;
    assert now.operators != {} <==> exists f :: f in now.operators;
    assert DoMode(net, fd, params).channels[params[0]] == now;
  }

  // The other commands.

  lemma LeaveOperated(net: Net, fd: int, name: string)
    requires Inv(net) && Operated(net) && In(net, fd, name) && fd in net.clients
    ensures Inv(Leave(net, fd, name)) && Operated(Leave(net, fd, name))
  {
    LeaveKeeps(net, fd, name);
  }

  lemma JoinOperated(net: Net, fd: int, name: string, key: string)
    requires Inv(net) && Operated(net) && fd in net.clients && net.clients[fd].registered
    ensures Inv(JoinOne(net, fd, name, key)) && Operated(JoinOne(net, fd, name, key))
    ensures fd in JoinOne(net, fd, name, key).clients && JoinOne(net, fd, name, key).clients[fd].registered
  {
    JoinKeeps(net, fd, name, key);
  }

  lemma {:induction false} JoinAllOperated(net: Net, fd: int, names: seq<string>, keys: seq<string>, i: nat)
    requires Inv(net) && Operated(net) && fd in net.clients && net.clients[fd].registered && i <= |names|
    ensures Operated(JoinFrom(net, fd, names, keys, i))
    decreases |names| - i
  {
    hide JoinOne, Inv, Operated;
    if i < |names| {
      var key := if i < |keys| then keys[i] else "";
      JoinOperated(net, fd, names[i], key);
      JoinAllOperated(JoinOne(net, fd, names[i], key), fd, names, keys, i + 1);
    }
  }

  lemma {:induction false} PartAllOperated(net: Net, fd: int, names: seq<string>, i: nat)
    requires Inv(net) && Operated(net) && fd in net.clients && i <= |names|
    ensures Operated(PartFrom(net, fd, names, i))
    decreases |names| - i
  {
    hide Leave, Inv, Operated;
    if i < |names| {
      if In(net, fd, names[i]) {
        LeaveOperated(net, fd, names[i]);
      }
      PartAllOperated(PartOne(net, fd, names[i]), fd, names, i + 1);
    }
  }

  lemma {:induction false} KickAllOperated(net: Net, fd: int, names: seq<string>, users: seq<string>, i: nat)
    requires Inv(net) && Operated(net) && fd in net.clients && i <= |names| && users != []
    ensures Operated(KickFrom(net, fd, names, users, i))
    decreases |names| - i
  {
    hide Leave, Inv, Operated;
    if i < |names| {
      var nick := if i < |users| then users[i] else users[0];
      var target := FindByNick(net.clients, nick);
      if target.Some? && In(net, target.value, names[i]) {
        LeaveOperated(net, target.value, names[i]);
      }
      KickAllOperated(KickOne(net, fd, names[i], nick), fd, names, users, i + 1);
    }
  }

  /** A MODE command that is carried out and leaves no member an operator. */
  ghost predicate Strips(net: Net, fd: int, m: Message)
    requires fd in net.clients
  {
    m.command == "MODE" && ModeAllowed(net, fd, m.params) && !LeavesOperator(net, m.params)
  }

  lemma JoiningOperated(net: Net, fd: int, params: seq<string>)
    requires Inv(net) && Operated(net) && fd in net.clients && net.clients[fd].registered
    ensures Operated(DoJoin(net, fd, params))
  {
    hide Inv, Operated, JoinFrom, Split;
    if params != [] {
      JoinAllOperated(net, fd, Split(params[0], ','), if |params| > 1 then Split(params[1], ',') else [], 0);
    }
  }

  lemma PartingOperated(net: Net, fd: int, params: seq<string>)
    requires Inv(net) && Operated(net) && fd in net.clients
    ensures Operated(DoPart(net, fd, params))
  {
    hide Inv, Operated, PartFrom, Split;
    if params != [] {
      PartAllOperated(net, fd, Split(params[0], ','), 0);
    }
  }

  lemma KickingOperated(net: Net, fd: int, params: seq<string>)
    requires Inv(net) && Operated(net) && fd in net.clients
    ensures Operated(DoKick(net, fd, params))
  {
    hide Inv, Operated, KickFrom;
    if |params| >= 2 {
      KickAllOperated(net, fd, Split(params[0], ','), Split(params[1], ','), 0);
    }
  }

  /** INVITE and TOPIC change no operators, the registration commands no channel. */
  lemma QuietOperated(net: Net, fd: int, m: Message, password: string)
    requires Inv(net) && Operated(net) && fd in net.clients
    ensures Operated(DoInvite(net, fd, m.params)) && Operated(DoTopic(net, fd, m.params))
    ensures Operated(DoPass(net, fd, m.params, password)) && Operated(DoNick(net, fd, m.params))
    ensures Operated(DoUser(net, fd, m.params)) && Operated(DoQuit(net, fd))
  {
    InviteExactly(net, fd, m.params);
    TopicExactly(net, fd, m.params);
    PassExactly(net, fd, m.params, password);
    NickExactly(net, fd, m.params);
    UserExactly(net, fd, m.params);
    QuitOnly(net, fd);
    hide DoInvite, DoTopic, DoPass, DoNick, DoUser, DoQuit, Inv, Invites;
  }

  lemma OtherOperated(net: Net, fd: int, m: Message, password: string)
    requires Inv(net) && Operated(net) && fd in net.clients && m.command != "MODE"
    ensures Operated(Command(net, fd, m, password))
  {
    hide DoPass, DoNick, DoUser, DoJoin, DoPart, DoQuit, DoKick, DoInvite, DoTopic, DoMode, Inv, Operated;
    QuietOperated(net, fd, m, password);
    PartingOperated(net, fd, m.params);
    KickingOperated(net, fd, m.params);
    if net.clients[fd].registered {
      JoiningOperated(net, fd, m.params);
    }
  }

  /** A command keeps every channel operated exactly when it does not strip one. */
  lemma CommandOperatedExactly(net: Net, fd: int, m: Message, password: string)
    requires Inv(net) && Operated(net) && fd in net.clients
    ensures Operated(Command(net, fd, m, password)) <==> !Strips(net, fd, m)
  {
    if m.command != "MODE" {
      OtherOperated(net, fd, m, password);
    } else if ModeAllowed(net, fd, m.params) {
      assert In(net, fd, m.params[0]);
      MembersLive(net, fd, m.params[0]);
      ModeOperatedExactly(net, fd, m.params);
    } else {
      ModeRefused(net, fd, m.params);
    }
    Dispatch(net, fd, m, password);
    hide Command, DoMode, Inv, Operated, ModeAllowed, LeavesOperator;
  }

  lemma ModeRefused(net: Net, fd: int, params: seq<string>)
    requires fd in net.clients && !ModeAllowed(net, fd, params)
    ensures DoMode(net, fd, params) == net
  {
  }

  /** Neither does a client going away. */
  lemma CloseOperated(net: Net, fd: int)
    requires Inv(net) && Operated(net) && fd in net.clients
    ensures Operated(Close(net, fd))
  {
    CloseKeeps(net, fd);
  }

  // Runs.

  ghost predicate EventStrips(net: Net, e: Event)
    requires Possible(net, e)
  {
    e.LineIn? && Parse(e.line).Some? && Strips(net, e.fd, Parse(e.line).value)
  }

  lemma EventOperatedExactly(net: Net, e: Event, password: string)
    requires Sound(net) && Operated(net) && Possible(net, e)
    ensures Operated(Happen(net, e, password)) <==> !EventStrips(net, e)
  {
    match e
    case Connect(_, _) =>
    case HangUp(fd) => CloseOperated(net, fd);
    case LineIn(fd, line) =>
      if Parse(line).Some? {
        LineOperated(net, fd, Parse(line).value, password);
      }
      hide Command, Close, Parse, Inv, Operated, Strips;
  }

  lemma LineOperated(net: Net, fd: int, m: Message, password: string)
    requires Sound(net) && Operated(net) && fd in net.clients
    ensures var next := Command(net, fd, m, password);
      Operated(if next.clients[fd].closing then Close(next, fd) else next) <==> !Strips(net, fd, m)
  {
    CommandOperatedExactly(net, fd, m, password);
    CommandKeeps(net, fd, m, password);
    var next := Command(net, fd, m, password);
    if m.command == "MODE" {
      ClosingExactly(net, fd, m, password);
    } else if next.clients[fd].closing {
      CloseOperated(next, fd);
    }
    hide Command, Close, Inv, Operated;
  }

  /** No event of the run is a MODE that strips a channel. */
  ghost predicate NeverStrips(net: Net, events: seq<Event>, password: string)
    decreases events
  {
    events == [] || (Possible(net, events[0]) ==>
      !EventStrips(net, events[0]) && NeverStrips(Happen(net, events[0], password), events[1..], password))
  }

  lemma {:induction false} AlwaysOperated(net: Net, events: seq<Event>, password: string, end: Net)
    requires Sound(net) && Operated(net) && Reaches(net, events, password, end) && NeverStrips(net, events, password)
    ensures Operated(end)
    decreases events
  {
    if events != [] {
      EventSound(net, events[0], password);
      EventOperatedExactly(net, events[0], password);
      hide Happen, Sound, Operated, EventStrips;
      AlwaysOperated(Happen(net, events[0], password), events[1..], password, end);
    }
  }

  /** From the empty server on, every channel has an operator as long as no MODE strips one. */
  lemma ServerOperated(events: seq<Event>, password: string, end: Net)
    requires Reaches(Net(map[], map[]), events, password, end) && NeverStrips(Net(map[], map[]), events, password)
    ensures Operated(end)
  {
    AlwaysOperated(Net(map[], map[]), events, password, end);
  }

  /** The stripping command, in the concrete: MODE -o when the only operator names itself. */
  lemma LastOperatorGoes(net: Net, fd: int, name: string, nick: string)
    requires Sound(net) && name in net.channels && net.channels[name].operators == {fd}
    requires fd in net.clients && net.clients[fd].nick == nick
    ensures Strips(net, fd, Message("MODE", [name, "-o", nick]))
  {
    var params, look, ch := [name, "-o", nick], Look(net.clients), net.channels[name];
    OperatorFacts(net, fd, name);
    assert ClientFits(fd, net.clients[fd]);
    var found := FindByNick(net.clients, nick);
    assert fd in Matching(net.clients, nick);
    assert SameNick(net, fd, found.value);
    assert params[2..] == [nick];
    forall f | f in ch.members ensures !OpAfter(look, ch.members, [nick], 0, "-o", true, false, f, f in ch.operators) {
      assert "-o"[1..] == "o" && "o"[1..] == "";
      assert OpAfter(look, ch.members, [nick], 0, "-o", true, false, f, f in ch.operators)
          == OpAfter(look, ch.members, [nick], 0, "o", false, true, f, f in ch.operators);
    }
  }
}
