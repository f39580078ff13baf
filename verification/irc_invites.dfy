// "Whoever is invited is connected": kept by everything but the end of an invited connection.
// Invitations name descriptors, and descriptors come again.

module IrcInvites {
  import opened IrcText
  import opened IrcParse
  import opened IrcChannel
  import opened IrcMode
  import opened IrcNet
  import opened IrcInv
  import opened IrcEffect
  import opened IrcRun

  ghost predicate InvitedLive(net: Net) {
    forall name, f :: name in net.channels && f in net.channels[name].invited ==> f in net.clients
  }

  ghost predicate Uninvited(net: Net, fd: int) {
    forall name :: name in net.channels ==> fd !in net.channels[name].invited
  }

  /** Closing a connection withdraws none of its invitations. */
  lemma InvitesOutliveClients(net: Net, fd: int, name: string)
    requires Inv(net) && fd in net.clients && name in Close(net, fd).channels
    ensures Close(net, fd).channels[name].invited == net.channels[name].invited
  {
    assert In(net, fd, name) <==> Knows(net, fd, name);
    if name in net.clients[fd].channels {
      assert fd !in net.channels[name].invited;
    }
  }

  lemma InvitedStays(net: Net, fd: int, name: string)
    requires Inv(net) && fd in net.clients && name in net.channels && fd in net.channels[name].invited
    ensures name in Close(net, fd).channels
  {
    assert In(net, fd, name) <==> Knows(net, fd, name);
    assert ChannelFits(name, net.channels[name]);
  }

  /** Closing keeps every invited descriptor connected exactly when the client was invited nowhere. */
  lemma CloseInvitedExactly(net: Net, fd: int)
    requires Inv(net) && InvitedLive(net) && fd in net.clients
    ensures InvitedLive(Close(net, fd)) <==> Uninvited(net, fd)
  {
    var next := Close(net, fd);
    forall name | name in next.channels ensures next.channels[name].invited == net.channels[name].invited {
      InvitesOutliveClients(net, fd, name);
    }
    forall name | name in net.channels && fd in net.channels[name].invited ensures name in next.channels {
      InvitedStays(net, fd, name);
    }
    assert fd !in next.clients && next.clients.Keys == net.clients.Keys - {fd};
    hide Close, Inv;
  }

  /** Every command keeps it: only INVITE adds to the invited, and it adds a connected client. */
  lemma CommandInvited(net: Net, fd: int, m: Message, password: string)
    requires Inv(net) && InvitedLive(net) && fd in net.clients
    ensures InvitedLive(Command(net, fd, m, password))
  {
    CommandRightful(net, fd, m, password);
    if m.command == "INVITE" {
      InviteExactly(net, fd, m.params);
      Dispatch(net, fd, m, password);
    }
    var next := Command(net, fd, m, password);
    forall n, f | n in next.channels && f in next.channels[n].invited ensures f in next.clients {
      assert Kept(net, next, fd, m.command, n);
    }
    hide Command, DoInvite, Inv;
  }

  /** The events that end a connection. */
  predicate Ends(net: Net, e: Event, password: string)
    requires Possible(net, e)
  {
    e.HangUp? || (e.LineIn? && Parse(e.line).Some? && Dooms(net, e.fd, Parse(e.line).value, password))
  }

  /** An event keeps it exactly when it does not end the connection of an invited client. */
  lemma EventInvitedExactly(net: Net, e: Event, password: string)
    requires Sound(net) && InvitedLive(net) && Possible(net, e)
    ensures InvitedLive(Happen(net, e, password)) <==> !(Ends(net, e, password) && !Uninvited(net, e.fd))
  {
    match e
    case Connect(_, _) =>
    case HangUp(fd) =>
      CloseInvitedExactly(net, fd);
      hide Close, InvitedLive, Uninvited;
    case LineIn(fd, line) =>
      if Parse(line).Some? {
        var m := Parse(line).value;
        ClosingExactly(net, fd, m, password);
        CommandInvited(net, fd, m, password);
        if m.command == "QUIT" {
          QuitCloses(net, fd, line, password);
          CloseInvitedExactly(net, fd);
        } else if Dooms(net, fd, m, password) {
          WrongPasswordCloses(net, fd, line, password);
          CloseInvitedExactly(net, fd);
        }
      }
      hide Close, Command, Parse, Inv, InvitedLive, Uninvited;
  }

  // A run that breaks it. First, lines as events.

  function Said(fd: int, command: string, params: seq<string>): Event {
    LineIn(fd, Render(command, params, None))
  }

  /** What a line of words does. */
  lemma SaidHappens(net: Net, fd: int, command: string, params: seq<string>, password: string)
    requires fd in net.clients && Word(command) && Canonical(params, None)
    ensures Happen(net, Said(fd, command, params), password) ==
      var next := Command(net, fd, Message(ToUpper(command), params), password);
      if next.clients[fd].closing then Close(next, fd) else next
  {
    RoundTrip(command, params, None);
    hide Parse, Command, Close, Render;
  }

  lemma CommandWords()
    ensures Word("PASS") && Word("NICK") && Word("USER") && Word("JOIN") && Word("MODE") && Word("INVITE")
    ensures ToUpper("PASS") == "PASS" && ToUpper("NICK") == "NICK" && ToUpper("USER") == "USER"
    ensures ToUpper("JOIN") == "JOIN" && ToUpper("MODE") == "MODE" && ToUpper("INVITE") == "INVITE"
  {
    assert ToUpper("PASS") == "PASS" && ToUpper("NICK") == "NICK" && ToUpper("USER") == "USER";
    assert ToUpper("JOIN") == "JOIN" && ToUpper("MODE") == "MODE" && ToUpper("INVITE") == "INVITE";
  }

  function Newcomer(fd: int, host: string, nick: string, user: string): Client {
    Client(fd, host, nick, user, "r", true, true, false, {})
  }

  /** A connection is made and registers. */
  function Arrival(fd: int, host: string, nick: string, user: string, password: string): seq<Event> {
    [Connect(fd, host), Said(fd, "PASS", [password]), Said(fd, "NICK", [nick]), Said(fd, "USER", [user, "0", "*", "r"])]
  }

  lemma NickIsWord(nick: string)
    requires IsValidNickname(nick)
    ensures Word(nick)
  {
  }

  lemma AllWords(words: seq<string>)
    requires forall i :: 0 <= i < |words| ==> Word(words[i])
    ensures Canonical(words, None)
  {
  }

  lemma SetTwice(net: Net, fd: int, c: Client, d: Client)
    ensures SetClient(SetClient(net, fd, c), fd, d) == SetClient(net, fd, d)
  {
  }

  lemma PassStep(net: Net, fd: int, password: string)
    requires fd in net.clients && !net.clients[fd].registered && !net.clients[fd].closing && net.clients[fd].nick == ""
    requires Word(password)
    ensures Happen(net, Said(fd, "PASS", [password]), password) == SetClient(net, fd, net.clients[fd].(passOk := true))
  {
    CommandWords();
    AllWords([password]);
    SaidHappens(net, fd, "PASS", [password], password);
    Dispatch(net, fd, Message("PASS", [password]), password);
    hide Command, Close, Word, ToUpper, Said;
  }

  lemma NickStep(net: Net, fd: int, nick: string, password: string)
    requires fd in net.clients && !net.clients[fd].closing && net.clients[fd].user == ""
    requires IsValidNickname(nick) && NickFree(net, fd, nick)
    ensures Happen(net, Said(fd, "NICK", [nick]), password) == SetClient(net, fd, net.clients[fd].(nick := nick))
  {
    CommandWords();
    NickIsWord(nick);
    AllWords([nick]);
    SaidHappens(net, fd, "NICK", [nick], password);
    Dispatch(net, fd, Message("NICK", [nick]), password);
    hide Command, Close, Word, ToUpper, Said, IsValidNickname;
  }

  lemma UserStep(net: Net, fd: int, user: string, password: string)
    requires fd in net.clients && !net.clients[fd].registered && !net.clients[fd].closing
    requires net.clients[fd].passOk && net.clients[fd].nick != "" && Word(user)
    ensures Happen(net, Said(fd, "USER", [user, "0", "*", "r"]), password)
         == SetClient(net, fd, net.clients[fd].(user := user, realname := "r", registered := true))
  {
    CommandWords();
    AllWords([user, "0", "*", "r"]);
    assert user != "";
    SaidHappens(net, fd, "USER", [user, "0", "*", "r"], password);
    Dispatch(net, fd, Message("USER", [user, "0", "*", "r"]), password);
    hide Command, Close, Word, ToUpper, Said;
  }

  /** Connect and PASS. */
  lemma ArrivesAllowed(net: Net, fd: int, host: string, password: string)
    requires fd !in net.clients && Word(password)
    ensures Reaches(net, [Connect(fd, host), Said(fd, "PASS", [password])], password,
                    SetClient(net, fd, Client(fd, host, "", "", "", true, false, false, {})))
  {
    var c := Client(fd, host, "", "", "", false, false, false, {});
    var s := SetClient(net, fd, c);
    PassStep(s, fd, password);
    SetTwice(net, fd, c, c.(passOk := true));
    assert Happen(net, Connect(fd, host), password) == s;
    assert Possible(s, Said(fd, "PASS", [password]));
    hide Happen, Said;
    ReachesOne(net, Connect(fd, host), password);
    ReachesOne(s, Said(fd, "PASS", [password]), password);
    ReachesOn(net, [Connect(fd, host)], password, s,
              [Said(fd, "PASS", [password])], Happen(s, Said(fd, "PASS", [password]), password));
    assert [Connect(fd, host)] + [Said(fd, "PASS", [password])] == [Connect(fd, host), Said(fd, "PASS", [password])];
  }

  /** NICK and USER. */
  lemma ArrivesNamed(net: Net, fd: int, host: string, nick: string, user: string, password: string)
    requires Word(user) && IsValidNickname(nick) && NickFree(net, fd, nick)
    ensures Reaches(SetClient(net, fd, Client(fd, host, "", "", "", true, false, false, {})),
                    [Said(fd, "NICK", [nick]), Said(fd, "USER", [user, "0", "*", "r"])], password,
                    SetClient(net, fd, Newcomer(fd, host, nick, user)))
  {
    var c := Client(fd, host, "", "", "", true, false, false, {});
    var d := c.(nick := nick);
    var s, t := SetClient(net, fd, c), SetClient(net, fd, d);
    assert nick != "" && NickFree(s, fd, nick);
    NickStep(s, fd, nick, password);
    SetTwice(net, fd, c, d);
    UserStep(t, fd, user, password);
    SetTwice(net, fd, d, Newcomer(fd, host, nick, user));
    var e1, e2 := Said(fd, "NICK", [nick]), Said(fd, "USER", [user, "0", "*", "r"]);
    assert Possible(s, e1) && Possible(t, e2);
    hide Happen, Said, Word, IsValidNickname, NickFree;
    ReachesOne(s, e1, password);
    ReachesOne(t, e2, password);
    ReachesOn(s, [e1], password, t, [e2], Happen(t, e2, password));
    assert [e1] + [e2] == [e1, e2];
  }

  lemma Arrives(net: Net, fd: int, host: string, nick: string, user: string, password: string)
    requires fd !in net.clients && Word(password) && Word(user) && IsValidNickname(nick) && NickFree(net, fd, nick)
    ensures Reaches(net, Arrival(fd, host, nick, user, password), password,
                    SetClient(net, fd, Newcomer(fd, host, nick, user)))
  {
    ArrivesAllowed(net, fd, host, password);
    ArrivesNamed(net, fd, host, nick, user, password);
    var first := [Connect(fd, host), Said(fd, "PASS", [password])];
    var next := [Said(fd, "NICK", [nick]), Said(fd, "USER", [user, "0", "*", "r"])];
    assert first + next == Arrival(fd, host, nick, user, password);
    hide Reaches, Said, Word, IsValidNickname, NickFree;
    ReachesOn(net, first, password, SetClient(net, fd, Client(fd, host, "", "", "", true, false, false, {})), next,
              SetClient(net, fd, Newcomer(fd, host, nick, user)));
  }

  /** A JOIN of one channel, without a key. */
  lemma JoinStepOne(net: Net, fd: int, name: string, password: string)
    requires Sound(net) && fd in net.clients && net.clients[fd].registered && Word(name) && ',' !in name
    ensures Happen(net, Said(fd, "JOIN", [name]), password) == JoinOne(net, fd, name, "")
  {
    CommandWords();
    AllWords([name]);
    SplitOne(name, ',');
    SaidHappens(net, fd, "JOIN", [name], password);
    var m := Message("JOIN", [name]);
    assert !Dooms(net, fd, m, password);
    ClosingExactly(net, fd, m, password);
    Dispatch(net, fd, m, password);
    hide Command, Close, Word, ToUpper, Said, Inv, JoinOne, Split;
    assert JoinFrom(JoinOne(net, fd, name, ""), fd, [name], [], 1) == JoinOne(net, fd, name, "");
  }

  /** The invited client hangs up, its descriptor comes again, and whoever has it now joins. */
  function Takeover(fd: int, name: string, host: string, nick: string, user: string, password: string): seq<Event> {
    [HangUp(fd)] + Arrival(fd, host, nick, user, password) + [Said(fd, "JOIN", [name])]
  }

  /**
   * An invitation-only channel lets in a client nobody invited: the descriptor of an invited
   * client that hung up is used again, by any host and under any free nickname.
   */
  lemma StrangerEnters(net: Net, fd: int, name: string, host: string, nick: string, user: string, password: string)
    returns (end: Net)
    requires Sound(net) && fd in net.clients && name in net.channels && fd in net.channels[name].invited
    requires net.channels[name].inviteOnly && Admits(net.channels[name], fd, "")
    requires Word(name) && ',' !in name && Word(password) && Word(user)
    requires IsValidNickname(nick) && NickFree(net, fd, nick)
    ensures Reaches(net, Takeover(fd, name, host, nick, user, password), password, end)
    ensures name in end.channels && end.channels[name].inviteOnly && fd in end.channels[name].members
    ensures fd in end.clients && end.clients[fd].host == host && end.clients[fd].nick == nick
  {
    var gone := Close(net, fd);
    var back := SetClient(gone, fd, Newcomer(fd, host, nick, user));
    GoneFacts(net, fd, name, nick);
    Arrives(gone, fd, host, nick, user, password);
    EventSound(net, HangUp(fd), password);
    AlwaysSound(gone, Arrival(fd, host, nick, user, password), password, back);
    JoinStepOne(back, fd, name, password);
    end := JoinOne(back, fd, name, "");
    InvitedJoins(back, fd, name);
    assert Happen(net, HangUp(fd), password) == gone;
    hide Happen, Close, JoinOne, Said, Arrival, Inv, Word, IsValidNickname, NickFree, Admits;
    var arrival := Arrival(fd, host, nick, user, password);
    assert Reaches(net, [], password, net);
    ReachesNext(net, [], password, net, HangUp(fd));
    assert [] + [HangUp(fd)] == [HangUp(fd)];
    ReachesOn(net, [HangUp(fd)], password, gone, arrival, back);
    ReachesNext(net, [HangUp(fd)] + arrival, password, back, Said(fd, "JOIN", [name]));
  }

  lemma InvitedJoins(net: Net, fd: int, name: string)
    requires fd in net.clients && name in net.channels && IsChannelName(name)
    requires fd !in net.channels[name].members && Admits(net.channels[name], fd, "")
    ensures var next := JoinOne(net, fd, name, "");
      && name in next.channels && next.channels[name].inviteOnly == net.channels[name].inviteOnly
      && fd in next.channels[name].members && fd in next.clients
      && next.clients[fd].host == net.clients[fd].host && next.clients[fd].nick == net.clients[fd].nick
  {
  }

  lemma GoneFacts(net: Net, fd: int, name: string, nick: string)
    requires Inv(net) && fd in net.clients && name in net.channels && fd in net.channels[name].invited
    requires NickFree(net, fd, nick)
    ensures var gone := Close(net, fd);
      && fd !in gone.clients && NickFree(gone, fd, nick)
      && name in gone.channels && gone.channels[name] == net.channels[name]
      && IsChannelName(name) && fd !in net.channels[name].members
  {
    InvitedStays(net, fd, name);
    assert In(net, fd, name) <==> Knows(net, fd, name);
    assert ChannelFits(name, net.channels[name]);
  }

  // The whole run, from the empty server on.

  lemma DoorShut(look: Lookup, ch: Channel)
    ensures ModeLoop(look, [], Start(ch), "+i").ch == ch.(inviteOnly := true)
  {
    var a := ModeStep(look, [], Start(ch), '+');
    assert "+i"[1..] == "i" && "i"[1..] == "";
    assert ModeLoop(look, [], Start(ch), "+i") == ModeLoop(look, [], a, "i");
    assert ModeLoop(look, [], a, "i") == ModeStep(look, [], a, 'i');
  }

  /** MODE +i by an operator. */
  lemma CloseDoor(net: Net, fd: int, name: string, password: string)
    requires Sound(net) && name in net.channels && fd in net.channels[name].operators && Word(name)
    ensures fd in net.clients
    ensures Happen(net, Said(fd, "MODE", [name, "+i"]), password)
         == SetChannel(net, name, net.channels[name].(inviteOnly := true))
  {
    OperatorFacts(net, fd, name);
    CommandWords();
    AllWords([name, "+i"]);
    var params := [name, "+i"];
    SaidHappens(net, fd, "MODE", params, password);
    Dispatch(net, fd, Message("MODE", params), password);
    DoorShut(Look(net.clients), net.channels[name]);
    assert params[2..] == [];
    hide Command, Close, Word, ToUpper, Said, Inv, ModeLoop;
  }

  /** INVITE by an operator, of a client that is not on the channel. */
  lemma AskIn(net: Net, fd: int, nick: string, target: int, name: string, password: string)
    requires Sound(net) && name in net.channels && fd in net.channels[name].operators && Word(name)
    requires target in net.clients && net.clients[target].nick == nick && nick != ""
    requires target !in net.channels[name].members
    ensures fd in net.clients
    ensures Happen(net, Said(fd, "INVITE", [nick, name]), password)
         == SetChannel(net, name, net.channels[name].Invite(target))
  {
    OperatorFacts(net, fd, name);
    CommandWords();
    assert ClientFits(target, net.clients[target]);
    NickIsWord(nick);
    AllWords([nick, name]);
    SaidHappens(net, fd, "INVITE", [nick, name], password);
    Dispatch(net, fd, Message("INVITE", [nick, name]), password);
    assert target in Matching(net.clients, nick);
    assert SameNick(net, target, FindByNick(net.clients, nick).value);
    hide Command, Close, Word, ToUpper, Said, Inv, FindByNick;
  }

  /** One client founds "#c" and closes it to the uninvited. */
  function Founding(password: string): seq<Event> {
    Arrival(1, "home", "ann", "a", password) + [Said(1, "JOIN", ["#c"])] + [Said(1, "MODE", ["#c", "+i"])]
  }

  function Founded(): Net {
    Net(map[1 := Newcomer(1, "home", "ann", "a").(channels := {"#c"})],
        map["#c" := Fresh("#c").AddMember(1, true).(inviteOnly := true)])
  }

  function Ann(): Net {
    SetClient(Net(map[], map[]), 1, Newcomer(1, "home", "ann", "a"))
  }

  lemma FoundingStates()
    ensures 1 in Ann().clients && Ann().clients[1].registered && Word("#c") && ',' !in "#c"
    ensures var open := JoinOne(Ann(), 1, "#c", "");
      && "#c" in open.channels && 1 in open.channels["#c"].operators
      && SetChannel(open, "#c", open.channels["#c"].(inviteOnly := true)) == Founded()
  {
  }

  lemma FoundingArrival(password: string)
    requires Word(password)
    ensures Reaches(Net(map[], map[]), Arrival(1, "home", "ann", "a", password), password, Ann()) && Sound(Ann())
  {
    Arrives(Net(map[], map[]), 1, "home", "ann", "a", password);
    ServerSound(Arrival(1, "home", "ann", "a", password), password, Ann());
  }

  lemma FoundingRuns(password: string)
    requires Word(password)
    ensures Reaches(Net(map[], map[]), Founding(password), password, Founded())
  {
    hide Happen, Reaches, Said, Arrival, Sound, Inv, Word, Ann, Founded, JoinOne;
    EmptySound();
    FoundingStates();
    FoundingArrival(password);
    JoinStepOne(Ann(), 1, "#c", password);
    var open := JoinOne(Ann(), 1, "#c", "");
    var arrival := Arrival(1, "home", "ann", "a", password);
    Speaks(Net(map[], map[]), arrival, Ann(), 1, "JOIN", ["#c"], password);
    CloseDoor(open, 1, "#c", password);
    Speaks(Net(map[], map[]), arrival + [Said(1, "JOIN", ["#c"])], open, 1, "MODE", ["#c", "+i"], password);
  }

  /** One more line at the end of a run. */
  lemma Speaks(net: Net, events: seq<Event>, mid: Net, fd: int, command: string, params: seq<string>, password: string)
    requires Sound(net) && Reaches(net, events, password, mid) && fd in mid.clients
    ensures Reaches(net, events + [Said(fd, command, params)], password,
                    Happen(mid, Said(fd, command, params), password))
    ensures Sound(Happen(mid, Said(fd, command, params), password))
  {
    hide Sound, Happen, Reaches;
    AlwaysSound(net, events, password, mid);
    EventSound(mid, Said(fd, command, params), password);
    ReachesNext(net, events, password, mid, Said(fd, command, params));
  }

  lemma EmptySound()
    ensures Sound(Net(map[], map[]))
  {
  }

  /** A second client comes and is invited. */
  function Inviting(password: string): seq<Event> {
    Arrival(2, "home", "bob", "b", password) + [Said(1, "INVITE", ["bob", "#c"])]
  }

  function Invited(): Net {
    Net(Founded().clients[2 := Newcomer(2, "home", "bob", "b")], map["#c" := Founded().channels["#c"].Invite(2)])
  }

  lemma OtherNick(nick: string)
    requires nick != "" && Upper(nick[0]) != 'A'
    ensures ToUpper(nick) != ToUpper("ann")
  {
    assert ToUpper("ann")[0] == 'A';
  }

  function Both(): Net {
    SetClient(Founded(), 2, Newcomer(2, "home", "bob", "b"))
  }

  lemma InvitingStates()
    ensures 2 !in Founded().clients && 1 in Both().clients && 2 in Both().clients && Both().clients[2].nick == "bob"
    ensures "#c" in Both().channels && 1 in Both().channels["#c"].operators && 2 !in Both().channels["#c"].members
    ensures SetChannel(Both(), "#c", Both().channels["#c"].Invite(2)) == Invited()
  {
  }

  /** A nickname that does not start as ann's does is free where only she and the client itself are. */
  lemma FreeBeside(net: Net, nick: string)
    requires net.clients.Keys <= {1, 2} && (1 in net.clients ==> net.clients[1].nick == "ann")
    requires nick != "" && Upper(nick[0]) != 'A'
    ensures NickFree(net, 2, nick)
  {
    OtherNick(nick);
  }

  lemma NewWords()
    ensures Word("b") && Word("e") && IsValidNickname("bob") && IsValidNickname("eve") && Word("#c")
  {
  }

  lemma InvitingRuns(password: string)
    requires Word(password) && Sound(Founded())
    ensures Reaches(Founded(), Inviting(password), password, Invited())
  {
    FreeBeside(Founded(), "bob");
    NewWords();
    hide Happen, Reaches, Said, Arrival, Sound, Inv, Word, Founded, Both, Invited, IsValidNickname, NickFree;
    InvitingStates();
    Arrives(Founded(), 2, "home", "bob", "b", password);
    AlwaysSound(Founded(), Arrival(2, "home", "bob", "b", password), password, Both());
    AskIn(Both(), 1, "bob", 2, "#c", password);
    Speaks(Founded(), Arrival(2, "home", "bob", "b", password), Both(), 1, "INVITE", ["bob", "#c"], password);
  }

  lemma InvitedRuns(password: string)
    requires Word(password)
    ensures Reaches(Net(map[], map[]), Founding(password) + Inviting(password), password, Invited()) && Sound(Invited())
  {
    FoundingRuns(password);
    ServerSound(Founding(password), password, Founded());
    InvitingRuns(password);
    hide Reaches, Founding, Inviting, Sound;
    ReachesOn(Net(map[], map[]), Founding(password), password, Founded(), Inviting(password), Invited());
    ServerSound(Founding(password) + Inviting(password), password, Invited());
  }

  /** A reachable state in which nobody is behind an invited descriptor. */
  lemma InvitedGone(password: string)
    requires Word(password)
    ensures var events := Founding(password) + Inviting(password) + [HangUp(2)];
      Reaches(Net(map[], map[]), events, password, Close(Invited(), 2)) && !InvitedLive(Close(Invited(), 2))
  {
    InvitedRuns(password);
    var net := Invited();
    InvitesOutliveClients(net, 2, "#c");
    assert 2 in Close(net, 2).channels["#c"].invited && 2 !in Close(net, 2).clients;
    assert Happen(net, HangUp(2), password) == Close(net, 2);
    hide Happen, Founding, Inviting, Close, Invited;
    ReachesNext(Net(map[], map[]), Founding(password) + Inviting(password), password, net, HangUp(2));
  }

  lemma StrangerReady()
    ensures 2 in Invited().clients && "#c" in Invited().channels && ',' !in "#c"
    ensures var ch := Invited().channels["#c"]; 2 in ch.invited && ch.inviteOnly && Admits(ch, 2, "")
  {
  }

  /** And one in which a client nobody invited is on the channel for the invited. */
  lemma StrangerInside(password: string) returns (end: Net)
    requires Word(password)
    ensures var takeover := Takeover(2, "#c", "elsewhere", "eve", "e", password);
      var events := Founding(password) + Inviting(password) + takeover;
      Reaches(Net(map[], map[]), events, password, end)
    ensures "#c" in end.channels && end.channels["#c"].inviteOnly && 2 in end.channels["#c"].members
    ensures 2 in end.clients && end.clients[2].host == "elsewhere" && end.clients[2].nick == "eve"
  {
    var net := Invited();
    FreeBeside(net, "eve");
    NewWords();
    StrangerReady();
    hide Reaches, Founding, Inviting, Takeover, Invited, Sound, Inv, Word, IsValidNickname, NickFree, Admits;
    InvitedRuns(password);
    end := StrangerEnters(net, 2, "#c", "elsewhere", "eve", "e", password);
    ReachesOn(Net(map[], map[]), Founding(password) + Inviting(password), password, net,
              Takeover(2, "#c", "elsewhere", "eve", "e", password), end);
  }
}
