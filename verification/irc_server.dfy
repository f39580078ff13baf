// The server object: its handlers change the two maps step by step
// (irc/src/CommandHandler.cpp, irc/src/Server.cpp) and are proved to do what IrcNet says.

module IrcServer {
  import opened Collections
  import opened IrcText
  import opened IrcParse
  import opened IrcChannel
  import opened IrcMode
  import opened IrcNet
  import opened IrcInv
  import opened IrcMembership
  import opened IrcEffect
  import opened IrcRun
  import opened IrcAnnounce
  import opened IrcModes

  class Server {
    const password: string
    var clients: map<int, Client>
    var channels: map<string, Channel>

    ghost function Now(): Net
      reads this
    {
      Net(clients, channels)
    }

    constructor (password: string)
      ensures this.password == password && Now() == Net(map[], map[])
    {
      this.password := password;
      clients, channels := map[], map[];
    }

    method FindClientByNick(nick: string) returns (r: Option<int>)
      ensures r == FindByNick(clients, nick)
      ensures FoundFirst(clients, nick, r)
    {
      FindExactly(clients, nick);
      hide FoundFirst;
      var rest := clients.Keys;
      ghost var matching := Matching(clients, nick);
      while rest != {}
        invariant rest <= clients.Keys && matching <= rest
      {
        ghost var least := MinOf(rest);
        var fd :| fd in rest && forall x :: x in rest ==> fd <= x;
        if ToUpper(clients[fd].nick) == ToUpper(nick) {
          assert fd in matching;
          return Some(fd);
        }
        rest := rest - {fd};
      }
      r := None;
    }

    method IsNicknameInUse(nick: string, except: int) returns (used: bool)
      ensures used <==> NickInUse(clients, nick, except)
    {
      var rest := clients.Keys;
      while rest != {}
        invariant rest <= clients.Keys
        invariant forall fd :: fd in clients && fd !in rest ==>
          fd == except || ToUpper(clients[fd].nick) != ToUpper(nick)
      {
        ghost var any := Any(rest);
        var fd :| fd in rest;
        rest := rest - {fd};
        if fd != except && ToUpper(clients[fd].nick) == ToUpper(nick) {
          return true;
        }
      }
      used := false;
    }

    method AuthenticateIfReady(fd: int)
      requires fd in clients
      modifies this`clients
      ensures fd in clients && clients == old(clients)[fd := old(clients)[fd].(registered := clients[fd].registered)]
      ensures var c := old(clients)[fd];
        clients[fd].registered <==> c.registered || (c.passOk && c.nick != "" && c.user != "")
      ensures clients == old(clients)[fd := Authenticate(old(clients)[fd])]
    {
      var c := clients[fd];
      assert clients == clients[fd := c];
      if !c.registered && c.passOk && c.nick != "" && c.user != "" {
        clients := clients[fd := c.(registered := true)];
      }
    }

    method HandlePass(fd: int, params: seq<string>)
      requires fd in clients
      modifies this`clients
      ensures Now() == DoPass(old(Now()), fd, params, password)
      ensures old(Inv(Now())) ==> PassEffect(old(Now()), Now(), fd, params, password)
    {
      if Inv(Now()) {
        PassExactly(Now(), fd, params, password);
      }
      if clients[fd].registered || params == [] {
        return;
      }
      if params[0] != password {
        clients := clients[fd := clients[fd].(closing := true)];
        return;
      }
      clients := clients[fd := clients[fd].(passOk := true)];
      AuthenticateIfReady(fd);
    }

    method HandleNick(fd: int, params: seq<string>)
      requires fd in clients
      modifies this`clients
      ensures Now() == DoNick(old(Now()), fd, params)
      ensures old(Inv(Now())) ==> NickEffect(old(Now()), Now(), fd, params)
    {
      if Inv(Now()) {
        NickExactly(Now(), fd, params);
      }
      hide NickEffect, Inv, IsValidNickname, ToUpper, NickInUse, Authenticate;
      if params == [] || !IsValidNickname(params[0]) {
        return;
      }
      var used := IsNicknameInUse(params[0], fd);
      if used {
        return;
      }
      clients := clients[fd := clients[fd].(nick := params[0])];
      AuthenticateIfReady(fd);
    }

    method HandleUser(fd: int, params: seq<string>)
      requires fd in clients
      modifies this`clients
      ensures Now() == DoUser(old(Now()), fd, params)
      ensures old(Inv(Now())) ==> UserEffect(old(Now()), Now(), fd, params)
    {
      if Inv(Now()) {
        UserExactly(Now(), fd, params);
      }
      if clients[fd].registered || |params| < 4 {
        return;
      }
      clients := clients[fd := clients[fd].(user := params[0], realname := params[3])];
      AuthenticateIfReady(fd);
    }

    method HandleQuit(fd: int)
      requires fd in clients
      modifies this`clients
      ensures Now() == DoQuit(old(Now()), fd)
    {
      clients := clients[fd := clients[fd].(closing := true)];
    }

    /** One iteration of handleJoin's loop. */
    method JoinChannel(fd: int, name: string, key: string)
      requires fd in clients
      modifies this
      ensures Now() == JoinOne(old(Now()), fd, name, key)
      ensures clients.Keys == old(clients.Keys)
    {
      if !IsChannelName(name) {
        return;
      }
      if name !in channels {
        channels := channels[name := Fresh(name)];
      }
      var ch := channels[name];
      assert channels == channels[name := ch];
      if fd in ch.members {
        return;
      }
      if ch.inviteOnly && fd !in ch.invited {
        return;
      }
      if ch.hasKey && ch.key != key {
        return;
      }
      if ch.hasLimit && |ch.members| >= ch.limit {
        return;
      }
      var op := ch.members == {};
      channels := channels[name := ch.AddMember(fd, op).RemoveInvite(fd)];
      clients := clients[fd := clients[fd].(channels := clients[fd].channels + {name})];
    }

    method HandleJoin(fd: int, params: seq<string>)
      requires fd in clients
      modifies this
      ensures Now() == DoJoin(old(Now()), fd, params)
      ensures old(Inv(Now())) ==> JoinOutcome(old(Now()), Now(), fd, params)
    {
      if Inv(Now()) {
        JoinListExactly(Now(), fd, params);
      }
      hide JoinOutcome;
      if params == [] {
        return;
      }
      hide JoinOne;
      var names := BuildSplit(params[0], ',');
      var keys: seq<string> := [];
      if |params| > 1 {
        keys := BuildSplit(params[1], ',');
      }
      ghost var end := DoJoin(Now(), fd, params);
      var i := 0;
      while i < |names|
        invariant 0 <= i <= |names| && fd in clients
        invariant JoinFrom(Now(), fd, names, keys, i) == end
      {
        JoinChannel(fd, names[i], if i < |keys| then keys[i] else "");
        i := i + 1;
      }
    }

    method EnsureChannelHasOperator(ch: Channel) returns (r: Channel)
      ensures r == EnsureOperator(ch) && r == Handed(ch, {})
    {
      HandedOn(ch, {}, 0);
      assert Without(ch, {}) == ch;
      if ch.members == {} || ch.operators != {} {
        return ch;
      }
      ghost var least := MinOf(ch.members);
      var newOp :| newOp in ch.members && forall x :: x in ch.members ==> newOp <= x;
      r := ch.Grant(newOp);
    }

    /** What PART and KICK do once their checks have passed. */
    method LeaveChannel(fd: int, name: string)
      requires fd in clients && name in channels
      modifies this
      ensures Now() == Leave(old(Now()), fd, name)
    {
      var ch := channels[name].RemoveMember(fd);
      clients := clients[fd := clients[fd].(channels := clients[fd].channels - {name})];
      if ch.members == {} {
        channels := channels - {name};
      } else {
        var kept := EnsureChannelHasOperator(ch);
        channels := channels[name := kept];
      }
    }

    method HandlePart(fd: int, params: seq<string>)
      requires fd in clients
      modifies this
      ensures Now() == DoPart(old(Now()), fd, params)
      ensures PartOutcome(old(Now()), Now(), fd, params)
    {
      PartListExactly(Now(), fd, params);
      hide PartOutcome, EnsureOperator;
      if params == [] {
        return;
      }
      hide Leave;
      var names := BuildSplit(params[0], ',');
      ghost var end := DoPart(Now(), fd, params);
      var i := 0;
      while i < |names|
        invariant 0 <= i <= |names| && fd in clients
        invariant PartFrom(Now(), fd, names, i) == end
      {
        if names[i] in channels && fd in channels[names[i]].members {
          LeaveChannel(fd, names[i]);
        }
        i := i + 1;
      }
    }

    /** One iteration of handleKick's loop. */
    method KickFromChannel(fd: int, name: string, nick: string)
      requires fd in clients
      modifies this
      ensures Now() == KickOne(old(Now()), fd, name, nick)
    {
      hide Leave;
      if name !in channels {
        return;
      }
      if fd !in channels[name].members {
        return;
      }
      if fd !in channels[name].operators {
        return;
      }
      var target := FindClientByNick(nick);
      if target == None || target.value !in channels[name].members {
        return;
      }
      LeaveChannel(target.value, name);
    }

    method HandleKick(fd: int, params: seq<string>)
      requires fd in clients
      modifies this
      ensures Now() == DoKick(old(Now()), fd, params)
      ensures KickOutcome(old(Now()), Now(), fd, params)
    {
      KickListExactly(Now(), fd, params);
      hide KickOutcome;
      if |params| < 2 {
        return;
      }
      hide Leave, KickOne;
      var names := BuildSplit(params[0], ',');
      var users := BuildSplit(params[1], ',');
      ghost var end := DoKick(Now(), fd, params);
      var i := 0;
      while i < |names|
        invariant 0 <= i <= |names| && fd in clients
        invariant KickFrom(Now(), fd, names, users, i) == end
      {
        KickFromChannel(fd, names[i], if i < |users| then users[i] else users[0]);
        i := i + 1;
      }
    }

    method HandleInvite(fd: int, params: seq<string>)
      requires fd in clients
      modifies this`channels
      ensures Now() == DoInvite(old(Now()), fd, params)
      ensures old(Inv(Now())) ==> InviteOutcome(old(Now()), Now(), fd, params)
    {
      if Inv(Now()) {
        InviteExactly(Now(), fd, params);
      }
      if |params| < 2 {
        return;
      }
      var target := FindClientByNick(params[0]);
      var name := params[1];
      if target == None || name !in channels {
        return;
      }
      if fd !in channels[name].members || fd !in channels[name].operators || target.value in channels[name].members {
        return;
      }
      channels := channels[name := channels[name].Invite(target.value)];
    }

    method HandleTopic(fd: int, params: seq<string>)
      requires fd in clients
      modifies this`channels
      ensures Now() == DoTopic(old(Now()), fd, params)
      ensures TopicOutcome(old(Now()), Now(), fd, params)
    {
      TopicExactly(Now(), fd, params);
      if params == [] || params[0] !in channels {
        return;
      }
      var ch := channels[params[0]];
      if fd !in ch.members || |params| == 1 {
        return;
      }
      if ch.topicRestricted && fd !in ch.operators {
        return;
      }
      channels := channels[params[0] := ch.(topic := params[1])];
    }

    /** The letter noted with its sign in front, when that is still owed. */
    method NoteLetter(modes: string, applied: bool, add: bool, m: char) returns (r: string)
      ensures r == modes + (if applied then [m] else [if add then '+' else '-', m])
    {
      r := modes;
      if !applied {
        r := r + [if add then '+' else '-'];
      }
      r := r + [m];
    }

    /** 'o' on its argument: the target operates the channel or no longer does, or nothing happens. */
    method ApplyOperator(target: string, add: bool, nick: string) returns (done: bool)
      requires target in channels
      modifies this`channels
      ensures var e := WithArg(Look(clients), old(channels)[target], add, 'o', nick);
        done == e.Some? && channels == if e.Some? then old(channels)[target := e.value] else old(channels)
    {
      var who := FindClientByNick(nick);
      if who == None || who.value !in channels[target].members {
        return false;
      }
      if add {
        channels := channels[target := channels[target].Grant(who.value)];
      } else {
        channels := channels[target := channels[target].Revoke(who.value)];
      }
      done := true;
    }

    /** i, t, and k and l when taken away. */
    method ApplyPlain(target: string, add: bool, m: char) returns (done: bool)
      requires target in channels
      modifies this`channels
      ensures var e := Plain(old(channels)[target], add, m);
        done == e.Some? && channels == old(channels)[target := if e.Some? then e.value else old(channels)[target]]
    {
      assert channels == channels[target := channels[target]];
      done := true;
      if m == 'i' {
        channels := channels[target := channels[target].(inviteOnly := add)];
      } else if m == 't' {
        channels := channels[target := channels[target].(topicRestricted := add)];
      } else if m == 'k' && !add {
        channels := channels[target := channels[target].RemoveKey()];
      } else if m == 'l' && !add {
        channels := channels[target := channels[target].RemoveLimit()];
      } else {
        done := false;
      }
    }

    /** k and l when set, and o, on their argument. */
    method ApplyArgument(target: string, add: bool, m: char, arg: string) returns (done: bool)
      requires target in channels && TakesArg(add, m)
      modifies this`channels
      ensures var e := WithArg(Look(clients), old(channels)[target], add, m, arg);
        done == e.Some? && channels == old(channels)[target := if e.Some? then e.value else old(channels)[target]]
    {
      assert channels == channels[target := channels[target]];
      done := true;
      if m == 'k' {
        channels := channels[target := channels[target].SetKey(arg)];
      } else if m == 'o' {
        done := ApplyOperator(target, add, arg);
      } else {
        var limit := Atoi(arg);
        if limit > 0 {
          channels := channels[target := channels[target].SetLimit(limit)];
        } else {
          done := false;
        }
      }
    }

    /** One letter behind a sign, with what the loop carries from one letter to the next. */
    method ApplyLetter(target: string, m: char, given: seq<string>, add: bool, signApplied: bool, argIndex: nat,
                       modes: string, args: seq<string>, ghost st: Mode)
      returns (signApplied': bool, argIndex': nat, modes': string, args': seq<string>, invalid: bool, halted: bool)
      requires target in channels && m != '+' && m != '-'
      requires st == Mode(channels[target], add, signApplied, true, argIndex, modes, args, false, false)
      modifies this`channels
      ensures var next := ModeStep(Look(clients), given, st, m);
        && channels == old(channels)[target := next.ch]
        && next == Mode(next.ch, add, signApplied', true, argIndex', modes', args', invalid, halted)
    {
      StepFields(Look(clients), given, st, m);
      hide ModeStep, WithArg, Plain, TakesArg;
      signApplied', argIndex', modes', args', invalid, halted := signApplied, argIndex, modes, args, false, false;
      var done := ApplyPlain(target, add, m);
      if done {
        modes' := NoteLetter(modes, signApplied, add, m);
        signApplied' := true;
      } else if !TakesArg(add, m) {
        invalid, halted := true, true;
      } else if argIndex >= |given| {
        halted := true;
      } else {
        done := ApplyArgument(target, add, m, given[argIndex]);
        if done {
          modes' := NoteLetter(modes, signApplied, add, m);
          signApplied' := true;
          args' := args + [given[argIndex]];
        }
        argIndex' := argIndex + 1;
      }
    }

    /** The loop of handleMode over the characters of the mode string. */
    method ApplyModes(target: string, modeStr: string, given: seq<string>)
      returns (appliedModes: string, appliedArgs: seq<string>, invalidMode: bool)
      requires target in channels
      modifies this`channels
      ensures var st := ModeLoop(Look(clients), given, Start(old(channels)[target]), modeStr);
        && channels == old(channels)[target := st.ch]
        && appliedModes == st.modes && appliedArgs == st.args && invalidMode == st.unknown
    {
      hide ModeLoop, ModeStep;
      var add, signApplied, signSeen, halted := true, false, false, false;
      var argIndex, i := 0, 0;
      appliedModes, appliedArgs, invalidMode := "", [], false;
      ghost var look, was := Look(clients), channels;
      ghost var end := ModeLoop(look, given, Start(was[target]), modeStr);
      ghost var st := Start(was[target]);
      assert modeStr[0..] == modeStr;
      while i < |modeStr| && !halted
        invariant 0 <= i <= |modeStr| && channels == was[target := st.ch] && (invalidMode ==> halted)
        invariant st ==
          Mode(st.ch, add, signApplied, signSeen, argIndex, appliedModes, appliedArgs, invalidMode, halted)
        invariant ModeLoop(look, given, st, modeStr[i..]) == end
        decreases |modeStr| - i
      {
        var m := modeStr[i];
        LoopUnfold(look, given, st, modeStr, i);
        StepFields(look, given, st, m);
        i := i + 1;
        if m == '+' || m == '-' {
          add, signSeen, signApplied := m == '+', true, false;
        } else if !signSeen {
          invalidMode, halted := true, true;
        } else {
          signApplied, argIndex, appliedModes, appliedArgs, invalidMode, halted :=
            ApplyLetter(target, m, given, add, signApplied, argIndex, appliedModes, appliedArgs, st);
        }
        st := ModeStep(look, given, st, m);
      }
      LoopEnd(look, given, st, modeStr[i..]);
    }

    /** Returns the line announced to the channel, when there is one. */
    method HandleMode(fd: int, params: seq<string>) returns (message: Option<string>)
      requires fd in clients
      modifies this`channels
      ensures Now() == DoMode(old(Now()), fd, params)
      ensures if ModeAllowed(old(Now()), fd, params) && Announced(ModeResult(old(Now()), params))
        then
          var st := ModeResult(old(Now()), params);
          message == Some(":" + clients[fd].nick + "!" + clients[fd].user + "@" + clients[fd].host + " MODE "
                          + params[0] + " " + st.modes + Spaced(st.args) + "\r\n")
        else message == None
      ensures old(Inv(Now())) ==> ModeRead(old(Now()), Now(), fd, params)
      ensures channels != old(channels) ==>
        |params| >= 2 && (message.Some? <==> !MeetsUnknown(params[1], true, false, |params| - 2))
    {
      if Inv(Now()) {
        ModeCommandExactly(Now(), fd, params);
      }
      if ModeAllowed(Now(), fd, params) {
        AnnouncedExactly(Look(clients), params[2..], channels[params[0]], params[1]);
        assert channels == channels[params[0] := channels[params[0]]];
      }
      hide ModeLoop, MeetsUnknown, ModeRead, Inv;
      message := None;
      if params == [] || params[0] == clients[fd].nick || !IsChannelName(params[0]) {
        return;
      }
      var target := params[0];
      if target !in channels || |params| == 1 {
        return;
      }
      if fd !in channels[target].members || fd !in channels[target].operators {
        return;
      }
      var modes, args, invalid := ApplyModes(target, params[1], params[2..]);
      if !invalid && modes != "" {
        MessageText(clients[fd], target, modes, args);
        message := Some(ModeMessage(clients[fd], target, modes, args));
      }
    }

    method RemoveClientFromChannels(fd: int)
      requires fd in clients
      modifies this`channels
      ensures channels == Close(old(Now()), fd).channels
    {
      hide EnsureOperator;
      var joined := clients[fd].channels;
      ghost var was := channels;
      var rest := joined;
      while rest != {}
        invariant rest <= joined
        invariant forall name :: name in channels <==>
          name in was && (name in joined && name !in rest ==> Remains(was[name], fd).Some?)
        invariant forall name :: name in channels ==>
          channels[name] == if name in joined && name !in rest then Remains(was[name], fd).value else was[name]
      {
        ghost var any := Any(rest);
        var name :| name in rest;
        rest := rest - {name};
        if name in channels {
          var ch := channels[name].RemoveMember(fd);
          EnsureMembers(ch);
          var kept := EnsureChannelHasOperator(ch);
          if kept.members == {} {
            channels := channels - {name};
          } else {
            channels := channels[name := kept];
          }
        }
      }
    }

    method CloseClient(fd: int)
      modifies this
      ensures Now() == Close(old(Now()), fd)
      ensures old(Inv(Now()) && fd in clients) ==> Gone(old(Now()), Now(), fd)
    {
      if Inv(Now()) && fd in clients {
        CloseExactly(Now(), fd);
      }
      if fd !in clients {
        return;
      }
      RemoveClientFromChannels(fd);
      clients := clients - {fd};
    }

    method HandleCommand(fd: int, m: Message)
      requires fd in clients
      modifies this
      ensures Now() == Command(old(Now()), fd, m, password)
      ensures old(Inv(Now())) ==> Rightful(old(Now()), Now(), fd, m.command)
    {
      if Inv(Now()) {
        CommandRightful(Now(), fd, m, password);
      }
      hide Rightful, Inv;
      hide DoPass, DoNick, DoUser, DoJoin, DoPart, DoQuit, DoKick, DoInvite, DoTopic, DoMode;
      if !MayUse(clients[fd], m.command) {
        return;
      }
      if m.command == "PASS" {
        HandlePass(fd, m.params);
      } else if m.command == "NICK" {
        HandleNick(fd, m.params);
      } else if m.command == "USER" {
        HandleUser(fd, m.params);
      } else if m.command == "JOIN" {
        HandleJoin(fd, m.params);
      } else if m.command == "PART" {
        HandlePart(fd, m.params);
      } else if m.command == "QUIT" {
        HandleQuit(fd);
      } else if m.command == "KICK" {
        HandleKick(fd, m.params);
      } else if m.command == "INVITE" {
        HandleInvite(fd, m.params);
      } else if m.command == "TOPIC" {
        HandleTopic(fd, m.params);
      } else if m.command == "MODE" {
        var message := HandleMode(fd, m.params);
      }
    }

    /** A connection accepted, a line read, or a connection gone. */
    method Handle(e: Event)
      requires Possible(Now(), e)
      modifies this
      ensures Now() == Happen(old(Now()), e, password)
    {
      hide Close, Command;
      match e
      case Connect(fd, host) =>
        clients := clients[fd := Client(fd, host, "", "", "", false, false, false, {})];
      case HangUp(fd) =>
        CloseClient(fd);
      case LineIn(fd, line) =>
        var m := ProcessLine(line);
        if m.Some? {
          HandleCommand(fd, m.value);
        }
        if clients[fd].closing {
          CloseClient(fd);
        }
    }

    /** Serving events from the start keeps the server sound. */
    method Serve(events: seq<Event>) returns (served: nat)
      requires Sound(Now())
      modifies this
      ensures Sound(Now()) && served <= |events| && Reaches(old(Now()), events[..served], password, Now())
      ensures served < |events| ==> !Possible(Now(), events[served])
    {
      hide Sound, Happen;
      served := 0;
      while served < |events|
        invariant 0 <= served <= |events| && Sound(Now())
        invariant Reaches(old(Now()), events[..served], password, Now())
      {
        var e := events[served];
        var possible := match e
          case Connect(fd, _) => fd !in clients
          case LineIn(fd, _) => fd in clients
          case HangUp(fd) => fd in clients;
        if !possible {
          return;
        }
        ReachesNext(old(Now()), events[..served], password, Now(), e);
        assert events[..served + 1] == events[..served] + [e];
        EventSound(Now(), e, password);
        Handle(e);
        served := served + 1;
      }
    }
  }

  /** A step of the specification, by the branches of the loop. */
  lemma StepFields(look: Lookup, given: seq<string>, st: Mode, m: char)
    requires !st.halted
    ensures var next := ModeStep(look, given, st, m);
      var plain := Plain(st.ch, st.add, m);
      var noted := st.modes + (if st.applied then [m] else [if st.add then '+' else '-', m]);
      next ==
        if m == '+' || m == '-' then st.(add := m == '+', seen := true, applied := false)
        else if !st.seen then st.(unknown := true, halted := true)
        else if plain.Some? then st.(ch := plain.value, modes := noted, applied := true)
        else if !TakesArg(st.add, m) then st.(unknown := true, halted := true)
        else if st.arg >= |given| then st.(halted := true)
        else
          var effect := WithArg(look, st.ch, st.add, m, given[st.arg]);
          if effect.None? then st.(arg := st.arg + 1)
          else
            st.(ch := effect.value, modes := noted, applied := true,
                args := st.args + [given[st.arg]], arg := st.arg + 1)
  {
    hide Plain, WithArg, TakesArg;
  }

  lemma LoopUnfold(look: Lookup, given: seq<string>, st: Mode, s: string, i: nat)
    requires i < |s| && !st.halted
    ensures ModeLoop(look, given, st, s[i..]) == ModeLoop(look, given, ModeStep(look, given, st, s[i]), s[i + 1..])
  {
    assert s[i..][1..] == s[i + 1..];
  }

  lemma LoopEnd(look: Lookup, given: seq<string>, st: Mode, s: string)
    requires st.halted || s == ""
    ensures ModeLoop(look, given, st, s) == st
  {
  }
}
