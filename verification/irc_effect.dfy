// What each command may change, said of the state before and after, and who may change it.

module IrcEffect {
  import opened IrcText
  import opened IrcParse
  import opened IrcChannel
  import opened IrcMode
  import opened IrcNet
  import opened IrcInv
  import opened IrcMembership

  // Registration: only the client itself changes.

  predicate OnlyClient(was: Net, now: Net, fd: int)
    requires fd in was.clients
  {
    && now.channels == was.channels && now.clients.Keys == was.clients.Keys
    && (forall f :: f in was.clients && f != fd ==> now.clients[f] == was.clients[f])
    && now.clients[fd].fd == was.clients[fd].fd && now.clients[fd].channels == was.clients[fd].channels
    && now.clients[fd].host == was.clients[fd].host
  }

  /** A client is registered exactly when it gave the password, a nickname and a user name. */
  predicate RegisteredFits(c: Client) {
    c.registered <==> c.passOk && c.nick != "" && c.user != ""
  }

  predicate PassEffect(was: Net, now: Net, fd: int, params: seq<string>, password: string)
    requires fd in was.clients
  {
    && OnlyClient(was, now, fd)
    && var c, d := was.clients[fd], now.clients[fd];
    && (d.passOk <==> c.passOk || (params != [] && params[0] == password && !c.registered))
    && (d.closing <==> c.closing || (params != [] && params[0] != password && !c.registered))
    && d.nick == c.nick && d.user == c.user && d.realname == c.realname && RegisteredFits(d)
  }

  predicate UserEffect(was: Net, now: Net, fd: int, params: seq<string>)
    requires fd in was.clients
  {
    && OnlyClient(was, now, fd)
    && var c, d := was.clients[fd], now.clients[fd];
    && (if !c.registered && |params| >= 4 then d.user == params[0] && d.realname == params[3]
        else d.user == c.user && d.realname == c.realname)
    && d.nick == c.nick && d.passOk == c.passOk && d.closing == c.closing && RegisteredFits(d)
  }

  ghost predicate NickFree(was: Net, fd: int, nick: string) {
    forall f :: f in was.clients && f != fd ==> ToUpper(was.clients[f].nick) != ToUpper(nick)
  }

  ghost predicate NickEffect(was: Net, now: Net, fd: int, params: seq<string>)
    requires fd in was.clients
  {
    && OnlyClient(was, now, fd)
    && var c, d := was.clients[fd], now.clients[fd];
    && (if params != [] && IsValidNickname(params[0]) && NickFree(was, fd, params[0]) then d.nick == params[0]
        else d.nick == c.nick)
    && d.user == c.user && d.realname == c.realname && d.passOk == c.passOk && d.closing == c.closing
    && RegisteredFits(d)
  }

  /** PASS: accepted exactly on the server's password, the connection doomed exactly on another. */
  lemma PassExactly(net: Net, fd: int, params: seq<string>, password: string)
    requires Inv(net) && fd in net.clients
    ensures PassEffect(net, DoPass(net, fd, params, password), fd, params, password)
  {
    assert ClientFits(fd, net.clients[fd]);
    hide Inv;
  }

  /** USER: the names are taken exactly before registration and with four parameters. */
  lemma UserExactly(net: Net, fd: int, params: seq<string>)
    requires Inv(net) && fd in net.clients
    ensures UserEffect(net, DoUser(net, fd, params), fd, params)
  {
    assert ClientFits(fd, net.clients[fd]);
    hide Inv;
  }

  /** NICK: the nickname is taken exactly when it is valid and no other client has it in any case. */
  lemma NickExactly(net: Net, fd: int, params: seq<string>)
    requires Inv(net) && fd in net.clients
    ensures NickEffect(net, DoNick(net, fd, params), fd, params)
  {
    assert ClientFits(fd, net.clients[fd]);
    hide Inv;
  }

  /** QUIT ends like a hang-up: everything the client had is gone with it. */
  lemma QuitCloses(net: Net, fd: int, line: string, password: string)
    requires fd in net.clients && Parse(line).Some? && Parse(line).value.command == "QUIT"
    ensures Happen(net, LineIn(fd, line), password) == Happen(net, HangUp(fd), password)
  {
    CloseMarked(net, fd);
    Dispatch(net, fd, Parse(line).value, password);
    hide Close, Command, Parse;
  }

  /** So does a wrong password. */
  lemma WrongPasswordCloses(net: Net, fd: int, line: string, password: string)
    requires fd in net.clients && !net.clients[fd].registered && Parse(line).Some?
    requires var m := Parse(line).value; m.command == "PASS" && m.params != [] && m.params[0] != password
    ensures Happen(net, LineIn(fd, line), password) == Happen(net, HangUp(fd), password)
  {
    CloseMarked(net, fd);
    Dispatch(net, fd, Parse(line).value, password);
    hide Close, Command, Parse;
  }

  lemma CloseMarked(net: Net, fd: int)
    requires fd in net.clients
    ensures Close(SetClient(net, fd, net.clients[fd].(closing := true)), fd) == Close(net, fd)
  {
    var marked := SetClient(net, fd, net.clients[fd].(closing := true));
    assert marked.clients - {fd} == net.clients - {fd};
  }

  // INVITE, TOPIC and MODE touch one channel and no client.

  ghost predicate InviteOutcome(was: Net, now: Net, fd: int, params: seq<string>) {
    && now.clients == was.clients && now.channels.Keys == was.channels.Keys
    && forall n :: n in was.channels ==>
         && now.channels[n] == was.channels[n].(invited := now.channels[n].invited)
         && forall f :: f in now.channels[n].invited <==> f in was.channels[n].invited || Invites(was, fd, params, n, f)
  }

  /** An operator invites, by nickname, a client that is not on the channel. */
  ghost predicate Invites(net: Net, fd: int, params: seq<string>, n: string, f: int)
    requires n in net.channels
  {
    && |params| >= 2 && params[1] == n && fd in net.channels[n].operators
    && f in net.clients && FindByNick(net.clients, params[0]) == Some(f) && f !in net.channels[n].members
  }

  lemma InviteExactly(net: Net, fd: int, params: seq<string>)
    requires Inv(net) && fd in net.clients
    ensures InviteOutcome(net, DoInvite(net, fd, params), fd, params)
  {
    var next := DoInvite(net, fd, params);
    assert next.clients == net.clients && next.channels.Keys == net.channels.Keys;
    forall n | n in net.channels
      ensures n in next.channels && next.channels[n] == net.channels[n].(invited := next.channels[n].invited)
      ensures forall f ::
        f in next.channels[n].invited <==> f in net.channels[n].invited || Invites(net, fd, params, n, f)
    {
      InviteOne(net, fd, params, n);
    }
    hide DoInvite, Inv, Invites;
  }

  lemma InviteOne(net: Net, fd: int, params: seq<string>, n: string)
    requires Inv(net) && fd in net.clients && n in net.channels
    ensures var next := DoInvite(net, fd, params);
      && next.clients == net.clients && next.channels.Keys == net.channels.Keys
      && next.channels[n] == net.channels[n].(invited := next.channels[n].invited)
      && forall f :: f in next.channels[n].invited <==> f in net.channels[n].invited || Invites(net, fd, params, n, f)
  {
    assert ChannelFits(n, net.channels[n]);
    hide Inv, FindByNick;
  }

  predicate MaySetTopic(ch: Channel, fd: int) {
    fd in ch.members && (ch.topicRestricted ==> fd in ch.operators)
  }

  ghost predicate TopicOutcome(was: Net, now: Net, fd: int, params: seq<string>) {
    && now.clients == was.clients && now.channels.Keys == was.channels.Keys
    && forall n :: n in was.channels ==>
         now.channels[n] == if |params| >= 2 && params[0] == n && MaySetTopic(was.channels[n], fd)
                            then was.channels[n].(topic := params[1]) else was.channels[n]
  }

  lemma TopicExactly(net: Net, fd: int, params: seq<string>)
    requires fd in net.clients
    ensures TopicOutcome(net, DoTopic(net, fd, params), fd, params)
  {
  }

  ghost predicate ModeOutcome(was: Net, now: Net, fd: int) {
    && now.clients == was.clients && now.channels.Keys == was.channels.Keys
    && forall n :: n in was.channels && !Same(was, now, n) ==>
         fd in was.channels[n].operators && KeepsMembership(was.channels[n], now.channels[n])
  }

  lemma ModeEffect(net: Net, fd: int, params: seq<string>)
    requires Inv(net) && fd in net.clients
    ensures ModeOutcome(net, DoMode(net, fd, params), fd)
  {
    if ModeAllowed(net, fd, params) {
      assert ChannelFits(params[0], net.channels[params[0]]);
      LoopFits(Look(net.clients), params[2..], Start(net.channels[params[0]]), params[1]);
    }
    hide Inv, ModeLoop;
  }

  // Who may do what.

  predicate SameModes(a: Channel, b: Channel) {
    && b.inviteOnly == a.inviteOnly && b.topicRestricted == a.topicRestricted
    && b.hasKey == a.hasKey && b.key == a.key && b.hasLimit == a.hasLimit && b.limit == a.limit
  }

  /** What a command of fd may do to a channel it finds and leaves in place. */
  ghost predicate Lawful(a: Channel, b: Channel, fd: int, cmd: string) {
    && b.name == a.name
    && (SameModes(a, b) || (cmd == "MODE" && fd in a.operators))
    && (b.invited <= a.invited || (cmd == "INVITE" && fd in a.operators))
    && (b.topic == a.topic || (cmd == "TOPIC" && MaySetTopic(a, fd)))
    && (forall f :: f in b.members && f !in a.members ==> cmd == "JOIN" && f == fd)
    && (forall f :: f in a.members && f !in b.members ==>
          (cmd == "PART" && f == fd) || (cmd == "KICK" && fd in a.operators))
    && (b.operators <= a.operators || fd in a.operators || (cmd == "PART" && fd in a.members && fd !in b.members))
    && (a.operators <= b.operators || fd in a.operators)
  }

  ghost predicate Kept(was: Net, now: Net, fd: int, cmd: string, n: string) {
    if n in was.channels then
      if n in now.channels then Lawful(was.channels[n], now.channels[n], fd, cmd)
      else (cmd == "PART" && was.channels[n].members == {fd}) || (cmd == "KICK" && fd in was.channels[n].operators)
    else n in now.channels ==> cmd == "JOIN" && now.channels[n] == Fresh(n).AddMember(fd, true)
  }

  /** Everything a command of fd may do to the server. */
  ghost predicate Rightful(was: Net, now: Net, fd: int, cmd: string)
    requires fd in was.clients
  {
    && (!was.clients[fd].registered ==> now.channels == was.channels)
    && (forall n :: Kept(was, now, fd, cmd, n))
    && now.clients.Keys == was.clients.Keys
    && (forall f :: f in was.clients && (f != fd || cmd !in {"PASS", "NICK", "USER", "QUIT"}) ==>
          now.clients[f] == was.clients[f].(channels := now.clients[f].channels))
  }

  lemma SameKept(was: Net, now: Net, fd: int, cmd: string, n: string)
    requires Same(was, now, n)
    ensures Kept(was, now, fd, cmd, n)
  {
  }

  lemma JoinKept(was: Net, now: Net, fd: int, params: seq<string>, n: string)
    requires Inv(was) && JoinOutcome(was, now, fd, params)
    ensures Kept(was, now, fd, "JOIN", n)
  {
    hide LetIn;
    assert JoinEffect(was, now, fd, ListAt(params, 0), ListAt(params, 1), |ListAt(params, 0)|, n);
  }

  lemma PartKept(was: Net, now: Net, fd: int, params: seq<string>, n: string)
    requires Inv(was) && PartOutcome(was, now, fd, params)
    ensures Kept(was, now, fd, "PART", n)
  {
    assert PartEffect(was, now, fd, ListAt(params, 0), |ListAt(params, 0)|, n);
    hide PartOutcome;
    if !Same(was, now, n) && n in now.channels {
      var a := was.channels[n];
      assert ChannelFits(n, a);
      EnsureMembers(a.RemoveMember(fd));
    }
  }

  lemma KickKept(was: Net, now: Net, fd: int, params: seq<string>, n: string)
    requires KickOutcome(was, now, fd, params)
    ensures Kept(was, now, fd, "KICK", n)
  {
    assert KickEffect(was, now, fd, ListAt(params, 0), ListAt(params, 1), |ListAt(params, 0)|, n);
    hide KickOutcome, Kicked;
  }

  lemma JoinRightful(net: Net, fd: int, params: seq<string>)
    requires Inv(net) && fd in net.clients && net.clients[fd].registered
    ensures Rightful(net, DoJoin(net, fd, params), fd, "JOIN")
  {
    var next := DoJoin(net, fd, params);
    JoinListExactly(net, fd, params);
    hide DoJoin, Inv, Kept, JoinEffect;
    forall n ensures Kept(net, next, fd, "JOIN", n) {
      JoinKept(net, next, fd, params, n);
    }
  }

  lemma PartRightful(net: Net, fd: int, params: seq<string>)
    requires Inv(net) && fd in net.clients && net.clients[fd].registered
    ensures Rightful(net, DoPart(net, fd, params), fd, "PART")
  {
    var next := DoPart(net, fd, params);
    PartListExactly(net, fd, params);
    hide DoPart, Inv, Kept, PartEffect;
    forall n ensures Kept(net, next, fd, "PART", n) {
      PartKept(net, next, fd, params, n);
    }
  }

  lemma KickRightful(net: Net, fd: int, params: seq<string>)
    requires Inv(net) && fd in net.clients && net.clients[fd].registered
    ensures Rightful(net, DoKick(net, fd, params), fd, "KICK")
  {
    var next := DoKick(net, fd, params);
    KickListExactly(net, fd, params);
    hide DoKick, Inv, Kept, KickEffect;
    forall n ensures Kept(net, next, fd, "KICK", n) {
      KickKept(net, next, fd, params, n);
    }
  }

  lemma InviteRightful(net: Net, fd: int, params: seq<string>)
    requires Inv(net) && fd in net.clients && net.clients[fd].registered
    ensures Rightful(net, DoInvite(net, fd, params), fd, "INVITE")
  {
    InviteExactly(net, fd, params);
    hide DoInvite, Inv, FindByNick;
    var next := DoInvite(net, fd, params);
    forall n ensures Kept(net, next, fd, "INVITE", n) {
      if n in net.channels && fd !in net.channels[n].operators {
        assert forall f :: !Invites(net, fd, params, n, f);
      }
    }
  }

  lemma TopicRightful(net: Net, fd: int, params: seq<string>)
    requires fd in net.clients && net.clients[fd].registered
    ensures Rightful(net, DoTopic(net, fd, params), fd, "TOPIC")
  {
    TopicExactly(net, fd, params);
    hide DoTopic;
    var next := DoTopic(net, fd, params);
    forall n ensures Kept(net, next, fd, "TOPIC", n) {
    }
  }

  lemma ModeRightful(net: Net, fd: int, params: seq<string>)
    requires Inv(net) && fd in net.clients && net.clients[fd].registered
    ensures Rightful(net, DoMode(net, fd, params), fd, "MODE")
  {
    ModeEffect(net, fd, params);
    hide DoMode, Inv;
    var next := DoMode(net, fd, params);
    forall n ensures Kept(net, next, fd, "MODE", n) {
      if n in net.channels && Same(net, next, n) {
        SameKept(net, next, fd, "MODE", n);
      }
    }
  }

  lemma ClientRightful(was: Net, now: Net, fd: int, cmd: string)
    requires fd in was.clients && OnlyClient(was, now, fd) && (cmd in {"PASS", "NICK", "USER", "QUIT"} || now == was)
    ensures Rightful(was, now, fd, cmd)
  {
    forall n ensures Kept(was, now, fd, cmd, n) {
      SameKept(was, now, fd, cmd, n);
    }
  }

  /**
   * No command oversteps: modes and invitations are an operator's, the topic a member's where
   * it is not restricted, membership one's own unless an operator kicks, and a client that is
   * not registered changes no channel.
   */
  lemma CommandRightful(net: Net, fd: int, m: Message, password: string)
    requires Inv(net) && fd in net.clients
    ensures Rightful(net, Command(net, fd, m, password), fd, m.command)
  {
    ClientRightful(net, net, fd, m.command);
    hide Rightful, Inv, OnlyClient;
    hide DoPass, DoNick, DoUser, DoJoin, DoPart, DoQuit, DoKick, DoInvite, DoTopic, DoMode;
    if MayUse(net.clients[fd], m.command) {
      if m.command == "PASS" {
        PassExactly(net, fd, m.params, password);
        ClientRightful(net, DoPass(net, fd, m.params, password), fd, m.command);
      } else if m.command == "NICK" {
        NickExactly(net, fd, m.params);
        ClientRightful(net, DoNick(net, fd, m.params), fd, m.command);
      } else if m.command == "USER" {
        UserExactly(net, fd, m.params);
        ClientRightful(net, DoUser(net, fd, m.params), fd, m.command);
      } else if m.command == "QUIT" {
        QuitOnly(net, fd);
        ClientRightful(net, DoQuit(net, fd), fd, m.command);
      } else if m.command == "JOIN" {
        JoinRightful(net, fd, m.params);
      } else if m.command == "PART" {
        PartRightful(net, fd, m.params);
      } else if m.command == "KICK" {
        KickRightful(net, fd, m.params);
      } else if m.command == "INVITE" {
        InviteRightful(net, fd, m.params);
      } else if m.command == "TOPIC" {
        TopicRightful(net, fd, m.params);
      } else if m.command == "MODE" {
        ModeRightful(net, fd, m.params);
      }
    }
  }

  lemma QuitOnly(net: Net, fd: int)
    requires fd in net.clients
    ensures OnlyClient(net, DoQuit(net, fd), fd)
  {
  }
}
