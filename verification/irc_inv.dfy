// What every sequence of connections, lines and disconnections keeps.

module IrcInv {
  import opened IrcText
  import opened IrcParse
  import opened IrcChannel
  import opened IrcMode
  import opened IrcNet

  predicate ClientFits(fd: int, c: Client) {
    && c.fd == fd
    && (c.registered <==> c.passOk && c.nick != "" && c.user != "")
    && (c.nick != "" ==> IsValidNickname(c.nick))
    && (c.channels != {} ==> c.registered)
  }

  predicate ChannelFits(name: string, ch: Channel) {
    ch.name == name && IsChannelName(name) && Fits(ch) && ch.members != {}
  }

  predicate In(net: Net, fd: int, name: string) {
    name in net.channels && fd in net.channels[name].members
  }

  predicate Knows(net: Net, fd: int, name: string) {
    fd in net.clients && name in net.clients[fd].channels
  }

  /** fd is in a channel's members exactly when the channel is in that client's set. */
  ghost predicate Linked(net: Net) {
    forall fd, name :: In(net, fd, name) <==> Knows(net, fd, name)
  }

  predicate SameNick(net: Net, a: int, b: int) {
    && a in net.clients && b in net.clients && net.clients[a].nick != ""
    && ToUpper(net.clients[a].nick) == ToUpper(net.clients[b].nick)
  }

  ghost predicate NicksUnique(net: Net) {
    forall a, b :: SameNick(net, a, b) ==> a == b
  }

  ghost predicate Inv(net: Net) {
    && (forall fd :: fd in net.clients ==> ClientFits(fd, net.clients[fd]))
    && (forall name :: name in net.channels ==> ChannelFits(name, net.channels[name]))
    && Linked(net) && NicksUnique(net)
  }

  /** Members are live, registered clients with the right password; no channel is empty. */
  lemma MembersLive(net: Net, fd: int, name: string)
    requires Inv(net) && In(net, fd, name)
    ensures fd in net.clients && net.clients[fd].registered && net.clients[fd].passOk
  {
    assert Knows(net, fd, name);
  }

  // Three kinds of change.

  lemma ClientChanges(net: Net, fd: int, c: Client)
    requires Inv(net) && fd in net.clients && ClientFits(fd, c) && c.channels == net.clients[fd].channels
    requires c.nick == net.clients[fd].nick || c.nick == "" || !NickInUse(net.clients, c.nick, fd)
    ensures Inv(SetClient(net, fd, c))
  {
    var next := SetClient(net, fd, c);
    forall a, b | SameNick(next, a, b) ensures a == b {
      if c.nick == net.clients[fd].nick {
        assert SameNick(net, a, b);
      } else if a != b && a != fd && b != fd {
        assert SameNick(net, a, b);
      }
    }
    forall f, name ensures In(next, f, name) <==> Knows(next, f, name) {
      assert In(net, f, name) <==> Knows(net, f, name);
    }
  }

  lemma ChannelChanges(net: Net, name: string, ch: Channel)
    requires Inv(net) && name in net.channels && ChannelFits(name, ch) && ch.members == net.channels[name].members
    ensures Inv(SetChannel(net, name, ch))
  {
    var next := SetChannel(net, name, ch);
    forall f, n ensures In(next, f, n) <==> Knows(next, f, n) {
      assert In(net, f, n) <==> Knows(net, f, n);
    }
    forall a, b | SameNick(next, a, b) ensures a == b {
      assert SameNick(net, a, b);
    }
  }

  lemma EnsuredFits(ch: Channel)
    requires Fits(ch) && ch.members != {}
    ensures Fits(EnsureOperator(ch)) && EnsureOperator(ch).members == ch.members && EnsureOperator(ch).name == ch.name
    ensures EnsureOperator(ch).operators != {}
  {
    if ch.operators == {} {
      assert MinOf(ch.members) in EnsureOperator(ch).operators;
    }
  }

  // Commands on channels.

  lemma AdmitKeeps(net: Net, fd: int, name: string, ch: Channel, op: bool)
    requires Inv(net) && fd in net.clients && net.clients[fd].registered && IsChannelName(name)
    requires ch == if name in net.channels then net.channels[name] else Fresh(name)
    ensures var c := net.clients[fd];
      Inv(SetClient(SetChannel(net, name, ch.AddMember(fd, op).RemoveInvite(fd)),
                    fd, c.(channels := c.channels + {name})))
  {
    var c := net.clients[fd];
    var now := ch.AddMember(fd, op).RemoveInvite(fd);
    var next := SetClient(SetChannel(net, name, now), fd, c.(channels := c.channels + {name}));
    assert ChannelFits(name, now);
    hide ChannelFits, Fits;
    forall f, n ensures In(next, f, n) <==> Knows(next, f, n) {
      assert In(net, f, n) <==> Knows(net, f, n);
    }
    forall a, b | SameNick(next, a, b) ensures a == b {
      assert SameNick(net, a, b);
    }
  }

  lemma JoinKeeps(net: Net, fd: int, name: string, key: string)
    requires Inv(net) && fd in net.clients && net.clients[fd].registered
    ensures Inv(JoinOne(net, fd, name, key))
    ensures JoinOne(net, fd, name, key).clients.Keys == net.clients.Keys
    ensures JoinOne(net, fd, name, key).clients[fd].registered
  {
    var ch := if name in net.channels then net.channels[name] else Fresh(name);
    if IsChannelName(name) {
      AdmitKeeps(net, fd, name, ch, ch.members == {});
    }
    if name in net.channels {
      assert SetChannel(net, name, ch) == net;
    }
    hide Inv;
  }

  /** Whoever creates a channel operates it. */
  lemma CreatorOperates(net: Net, fd: int, name: string, key: string)
    requires fd in net.clients && IsChannelName(name) && name !in net.channels
    ensures name in JoinOne(net, fd, name, key).channels
    ensures JoinOne(net, fd, name, key).channels[name].members == {fd}
    ensures JoinOne(net, fd, name, key).channels[name].operators == {fd}
  {
  }

  predicate Admits(ch: Channel, fd: int, key: string) {
    && (ch.inviteOnly ==> fd in ch.invited)
    && (ch.hasKey ==> key == ch.key)
    && (ch.hasLimit ==> |ch.members| < ch.limit)
  }

  /** Joining an existing channel: let in exactly when its modes allow, as a plain member, the invitation used up. */
  lemma JoinExactly(net: Net, fd: int, name: string, key: string)
    requires Inv(net) && fd in net.clients && name in net.channels && fd !in net.channels[name].members
    ensures var ch, now := net.channels[name], JoinOne(net, fd, name, key).channels[name];
      && now.members == (if Admits(ch, fd, key) then ch.members + {fd} else ch.members)
      && now.invited == (if Admits(ch, fd, key) then ch.invited - {fd} else ch.invited)
      && now.operators == ch.operators
      && (fd in now.members <==>
            && (ch.inviteOnly ==> fd in ch.invited) && (ch.hasKey ==> key == ch.key)
            && (ch.hasLimit ==> |ch.members| < ch.limit))
      && (ch.hasLimit && |ch.members| <= ch.limit ==> |now.members| <= ch.limit)
    ensures JoinOne(net, fd, name, key).channels - {name} == net.channels - {name}
  {
    assert ChannelFits(name, net.channels[name]);
    JoinedChannel(net, fd, name, key);
    hide Inv, JoinOne;
  }

  lemma JoinedChannel(net: Net, fd: int, name: string, key: string)
    requires fd in net.clients && name in net.channels && fd !in net.channels[name].members
    requires net.channels[name].members != {}
    ensures var ch, next := net.channels[name], JoinOne(net, fd, name, key);
      IsChannelName(name) ==>
        && name in next.channels && next.channels - {name} == net.channels - {name}
        && next.channels[name] == if Admits(ch, fd, key) then ch.AddMember(fd, false).RemoveInvite(fd) else ch
  {
  }

  lemma {:induction false} JoinAllKeeps(net: Net, fd: int, names: seq<string>, keys: seq<string>, i: nat)
    requires Inv(net) && fd in net.clients && net.clients[fd].registered && i <= |names|
    ensures Inv(JoinFrom(net, fd, names, keys, i))
    decreases |names| - i
  {
    if i < |names| {
      var key := if i < |keys| then keys[i] else "";
      JoinKeeps(net, fd, names[i], key);
      JoinAllKeeps(JoinOne(net, fd, names[i], key), fd, names, keys, i + 1);
    }
  }

  /** Leaving keeps the state sound, and the channel left is erased or has an operator. */
  lemma LeaveKeeps(net: Net, fd: int, name: string)
    requires Inv(net) && In(net, fd, name) && fd in net.clients
    ensures Inv(Leave(net, fd, name))
    ensures name in Leave(net, fd, name).channels ==> Leave(net, fd, name).channels[name].operators != {}
  {
    var next := Leave(net, fd, name);
    var ch := net.channels[name].RemoveMember(fd);
    assert Fits(ch);
    if ch.members != {} {
      EnsuredFits(ch);
    }
    forall f, n ensures In(next, f, n) <==> Knows(next, f, n) {
      assert In(net, f, n) <==> Knows(net, f, n);
    }
    forall a, b | SameNick(next, a, b) ensures a == b {
      assert SameNick(net, a, b);
    }
  }

  lemma {:induction false} PartAllKeeps(net: Net, fd: int, names: seq<string>, i: nat)
    requires Inv(net) && fd in net.clients && i <= |names|
    ensures Inv(PartFrom(net, fd, names, i))
    decreases |names| - i
  {
    if i < |names| {
      if In(net, fd, names[i]) {
        LeaveKeeps(net, fd, names[i]);
      }
      PartAllKeeps(PartOne(net, fd, names[i]), fd, names, i + 1);
    }
  }

  lemma KickKeeps(net: Net, fd: int, name: string, nick: string)
    requires Inv(net) && fd in net.clients
    ensures Inv(KickOne(net, fd, name, nick)) && fd in KickOne(net, fd, name, nick).clients
  {
    var target := FindByNick(net.clients, nick);
    if target.Some? && In(net, target.value, name) {
      LeaveKeeps(net, target.value, name);
    }
    hide Leave, Inv;
  }

  lemma {:induction false} KickAllKeeps(net: Net, fd: int, names: seq<string>, users: seq<string>, i: nat)
    requires Inv(net) && fd in net.clients && i <= |names| && users != []
    ensures Inv(KickFrom(net, fd, names, users, i))
    decreases |names| - i
  {
    hide KickOne, Inv;
    if i < |names| {
      var nick := if i < |users| then users[i] else users[0];
      KickKeeps(net, fd, names[i], nick);
      KickAllKeeps(KickOne(net, fd, names[i], nick), fd, names, users, i + 1);
    }
  }

  lemma InviteKeeps(net: Net, fd: int, params: seq<string>)
    requires Inv(net) && fd in net.clients
    ensures Inv(DoInvite(net, fd, params))
  {
    if |params| >= 2 && params[1] in net.channels {
      var target := FindByNick(net.clients, params[0]);
      var ch := net.channels[params[1]];
      if target.Some? && target.value !in ch.members {
        ChannelChanges(net, params[1], ch.Invite(target.value));
      }
    }
  }

  lemma TopicKeeps(net: Net, fd: int, params: seq<string>)
    requires Inv(net) && fd in net.clients
    ensures Inv(DoTopic(net, fd, params))
  {
    if |params| >= 2 && params[0] in net.channels {
      ChannelChanges(net, params[0], net.channels[params[0]].(topic := params[1]));
    }
  }

  lemma ModeKeeps(net: Net, fd: int, params: seq<string>)
    requires Inv(net) && fd in net.clients
    ensures Inv(DoMode(net, fd, params))
  {
    if ModeAllowed(net, fd, params) {
      var ch := net.channels[params[0]];
      LoopFits(Look(net.clients), params[2..], Start(ch), params[1]);
      ChannelChanges(net, params[0], ModeResult(net, params).ch);
    }
  }

  // Closing.

  lemma ClosedChannels(net: Net, fd: int, name: string)
    requires Inv(net) && fd in net.clients && name in Close(net, fd).channels
    ensures ChannelFits(name, Close(net, fd).channels[name])
    ensures Close(net, fd).channels[name].members == net.channels[name].members - {fd}
    ensures name in net.clients[fd].channels ==> Close(net, fd).channels[name].operators != {}
  {
    assert In(net, fd, name) <==> Knows(net, fd, name);
    if name in net.clients[fd].channels {
      var ch := net.channels[name].RemoveMember(fd);
      assert Fits(ch);
      EnsuredFits(ch);
    }
  }

  /** Closing takes the client out of all its channels, each erased or left with an operator. */
  lemma CloseKeeps(net: Net, fd: int)
    requires Inv(net) && fd in net.clients
    ensures Inv(Close(net, fd))
    ensures forall name :: name in net.clients[fd].channels && name in Close(net, fd).channels ==>
      Close(net, fd).channels[name].operators != {}
    ensures forall name :: name in Close(net, fd).channels ==> fd !in Close(net, fd).channels[name].members
  {
    var next := Close(net, fd);
    forall name | name in next.channels
      ensures ChannelFits(name, next.channels[name]) && next.channels[name].members == net.channels[name].members - {fd}
      ensures name in net.clients[fd].channels ==> next.channels[name].operators != {}
    {
      ClosedChannels(net, fd, name);
    }
    forall f, n ensures In(next, f, n) <==> Knows(next, f, n) {
      assert In(net, f, n) <==> Knows(net, f, n);
      if n in net.channels && n !in next.channels {
        assert net.channels[n].members - {fd} == {};
      }
    }
    forall a, b | SameNick(next, a, b) ensures a == b {
      assert SameNick(net, a, b);
    }
  }

  // Registration.

  lemma NickKeeps(net: Net, fd: int, params: seq<string>)
    requires Inv(net) && fd in net.clients
    ensures Inv(DoNick(net, fd, params))
  {
    if !(params == [] || !IsValidNickname(params[0]) || NickInUse(net.clients, params[0], fd)) {
      ClientChanges(net, fd, Authenticate(net.clients[fd].(nick := params[0])));
    }
  }

  lemma PassKeeps(net: Net, fd: int, params: seq<string>, password: string)
    requires Inv(net) && fd in net.clients
    ensures Inv(DoPass(net, fd, params, password))
  {
    var c := net.clients[fd];
    ClientChanges(net, fd, c.(closing := true));
    if !c.registered {
      ClientChanges(net, fd, Authenticate(c.(passOk := true)));
    }
  }

  lemma UserKeeps(net: Net, fd: int, params: seq<string>)
    requires Inv(net) && fd in net.clients
    ensures Inv(DoUser(net, fd, params))
  {
    var c := net.clients[fd];
    if !c.registered && |params| >= 4 {
      ClientChanges(net, fd, Authenticate(c.(user := params[0], realname := params[3])));
    }
  }

  lemma CommandKeeps(net: Net, fd: int, m: Message, password: string)
    requires Inv(net) && fd in net.clients
    ensures Inv(Command(net, fd, m, password))
  {
    hide Inv;
    if MayUse(net.clients[fd], m.command) {
      if m.command == "PASS" { PassKeeps(net, fd, m.params, password); }
      else if m.command == "NICK" { NickKeeps(net, fd, m.params); }
      else if m.command == "USER" { UserKeeps(net, fd, m.params); }
      else if m.command == "JOIN" {
        if m.params != [] {
          JoinAllKeeps(net, fd, Split(m.params[0], ','), if |m.params| > 1 then Split(m.params[1], ',') else [], 0);
        }
      }
      else if m.command == "PART" {
        if m.params != [] { PartAllKeeps(net, fd, Split(m.params[0], ','), 0); }
      }
      else if m.command == "QUIT" { QuitKeeps(net, fd); }
      else if m.command == "KICK" {
        if |m.params| >= 2 { KickAllKeeps(net, fd, Split(m.params[0], ','), Split(m.params[1], ','), 0); }
      }
      else if m.command == "INVITE" { InviteKeeps(net, fd, m.params); }
      else if m.command == "TOPIC" { TopicKeeps(net, fd, m.params); }
      else if m.command == "MODE" { ModeKeeps(net, fd, m.params); }
    }
  }

  lemma QuitKeeps(net: Net, fd: int)
    requires Inv(net) && fd in net.clients
    ensures Inv(DoQuit(net, fd))
  {
    ClientChanges(net, fd, net.clients[fd].(closing := true));
  }

  lemma ConnectKeeps(net: Net, fd: int, host: string)
    requires Inv(net) && fd !in net.clients
    ensures Inv(SetClient(net, fd, Client(fd, host, "", "", "", false, false, false, {})))
  {
    var next := SetClient(net, fd, Client(fd, host, "", "", "", false, false, false, {}));
    forall f, n ensures In(next, f, n) <==> Knows(next, f, n) {
      assert In(net, f, n) <==> Knows(net, f, n);
    }
    forall a, b | SameNick(next, a, b) ensures a == b {
      assert SameNick(net, a, b);
    }
  }

  lemma EventKeeps(net: Net, e: Event, password: string)
    requires Inv(net) && Possible(net, e)
    ensures Inv(Happen(net, e, password))
  {
    hide Inv, Close, Command;
    match e
    case Connect(fd, host) => ConnectKeeps(net, fd, host);
    case HangUp(fd) => CloseKeeps(net, fd);
    case LineIn(fd, line) =>
      match Parse(line)
      case None => CloseKeeps(net, fd);
      case Some(m) =>
        CommandKeeps(net, fd, m, password);
        CloseKeeps(Command(net, fd, m, password), fd);
  }

  /** Sending the announced modes as a command of their own would have done the same. */
  lemma ModeReplays(net: Net, fd: int, params: seq<string>)
    requires fd in net.clients && ModeAllowed(net, fd, params)
    ensures var st := ModeResult(net, params);
      && DoMode(net, fd, [params[0], st.modes] + st.args) == DoMode(net, fd, params)
      && var again := ModeResult(net, [params[0], st.modes] + st.args);
         again.modes == st.modes && again.args == st.args && (Announced(again) <==> st.modes != "")
    ensures ModeResult(net, params).modes == "" ==> DoMode(net, fd, params) == net
  {
    var look, ch := Look(net.clients), net.channels[params[0]];
    var st := ModeResult(net, params);
    NormalForm(look, params[2..], ch, params[1]);
    var again := [params[0], st.modes] + st.args;
    assert again[2..] == st.args;
    hide ModeLoop;
    assert ModeAllowed(net, fd, again);
  }
}
