// Who stands behind an invitation: "whoever is invited is registered" and "whoever holds an
// invitation is whom it was given to", with the events that break them
// (irc/src/CommandHandler.cpp:350-390, irc/src/Server.cpp:209-256).

module IrcGuests {
  import opened IrcText
  import opened IrcParse
  import opened IrcChannel
  import opened IrcNet
  import opened IrcInv
  import opened IrcEffect
  import opened IrcRun
  import opened IrcInvites

  predicate Invited(net: Net, name: string, f: int) {
    name in net.channels && f in net.channels[name].invited
  }

  // Registered guests.

  ghost predicate GuestsRegistered(net: Net) {
    forall name, f :: Invited(net, name, f) && f in net.clients ==> net.clients[f].registered
  }

  /** An INVITE by an operator that finds a client which is not registered. */
  ghost predicate AsksUnregistered(net: Net, fd: int, m: Message) {
    && m.command == "INVITE" && |m.params| >= 2 && m.params[1] in net.channels
    && fd in net.channels[m.params[1]].operators
    && var f := FindByNick(net.clients, m.params[0]); f.Some? && !net.clients[f.value].registered
  }

  /** What a command adds to the invited, it adds by INVITE. */
  lemma CommandInvites(net: Net, fd: int, m: Message, password: string, name: string, f: int)
    requires Inv(net) && fd in net.clients
    ensures Invited(Command(net, fd, m, password), name, f) && !Invited(net, name, f) ==>
      m.command == "INVITE" && name in net.channels && Invites(net, fd, m.params, name, f)
  {
    CommandRightful(net, fd, m, password);
    var next := Command(net, fd, m, password);
    assert Kept(net, next, fd, m.command, name);
    if m.command == "INVITE" {
      Dispatch(net, fd, m, password);
      InviteExactly(net, fd, m.params);
    }
    hide Command, Inv, DoInvite, Invites;
  }

  /** Nobody is unregistered again. */
  lemma CommandRegistered(net: Net, fd: int, m: Message, password: string, f: int)
    requires Inv(net) && fd in net.clients && f in net.clients && net.clients[f].registered
    ensures f in Command(net, fd, m, password).clients && Command(net, fd, m, password).clients[f].registered
  {
    CommandRightful(net, fd, m, password);
    assert ClientFits(f, net.clients[f]);
    if m.command == "PASS" {
      PassExactly(net, fd, m.params, password);
    } else if m.command == "NICK" {
      NickExactly(net, fd, m.params);
    } else if m.command == "USER" {
      UserExactly(net, fd, m.params);
    }
    Dispatch(net, fd, m, password);
    hide Command, Inv, Kept, DoPass, DoNick, DoUser, DoJoin, DoInvite, DoMode;
  }

  lemma AskedUnregistered(net: Net, fd: int, m: Message, password: string)
    requires Inv(net) && fd in net.clients && AsksUnregistered(net, fd, m)
    ensures !GuestsRegistered(Command(net, fd, m, password))
  {
    var n, f := m.params[1], FindByNick(net.clients, m.params[0]).value;
    if In(net, f, n) {
      MembersLive(net, f, n);
    }
    assert ChannelFits(n, net.channels[n]);
    MembersLive(net, fd, n);
    Dispatch(net, fd, m, password);
    InviteExactly(net, fd, m.params);
    assert Invites(net, fd, m.params, n, f);
    hide Command, Inv, DoInvite, FindByNick;
    assert Invited(Command(net, fd, m, password), n, f);
  }

  /** A command keeps every guest registered exactly when it is not such an INVITE. */
  lemma CommandGuestsExactly(net: Net, fd: int, m: Message, password: string)
    requires Inv(net) && GuestsRegistered(net) && fd in net.clients
    ensures GuestsRegistered(Command(net, fd, m, password)) <==> !AsksUnregistered(net, fd, m)
  {
    var next := Command(net, fd, m, password);
    if AsksUnregistered(net, fd, m) {
      AskedUnregistered(net, fd, m, password);
    } else {
      hide Command, Inv, FindByNick;
      forall name, f | Invited(next, name, f) && f in next.clients ensures next.clients[f].registered {
        CommandInvites(net, fd, m, password, name, f);
        if net.clients[f].registered {
          CommandRegistered(net, fd, m, password, f);
        }
      }
    }
  }

  /** An empty nickname finds only clients that never gave one, so none that is registered. */
  lemma EmptyNickUnregistered(net: Net, fd: int)
    requires Inv(net) && FindByNick(net.clients, "") == Some(fd)
    ensures net.clients[fd].nick == "" && !net.clients[fd].registered
  {
    assert ClientFits(fd, net.clients[fd]);
  }

  lemma CloseGuests(net: Net, fd: int)
    requires fd in net.clients
    ensures forall name, f :: Invited(Close(net, fd), name, f) ==> Invited(net, name, f)
    ensures forall f :: f in Close(net, fd).clients ==> f in net.clients && Close(net, fd).clients[f] == net.clients[f]
    ensures GuestsRegistered(net) ==> GuestsRegistered(Close(net, fd))
  {
    var next := Close(net, fd);
    forall name, f | Invited(next, name, f) ensures Invited(net, name, f) {
      if name in net.clients[fd].channels {
        var ch := net.channels[name].RemoveMember(fd);
        assert EnsureOperator(ch).invited == ch.invited;
      }
    }
  }

  /** The events that leave an unregistered guest: such an INVITE, and a descriptor invited before it came again. */
  ghost predicate Unregisters(net: Net, e: Event) {
    match e
    case Connect(fd, _) => !Uninvited(net, fd)
    case HangUp(_) => false
    case LineIn(fd, line) => Parse(line).Some? && AsksUnregistered(net, fd, Parse(line).value)
  }

  lemma ConnectGuests(net: Net, fd: int, host: string, password: string)
    requires GuestsRegistered(net) && fd !in net.clients
    ensures GuestsRegistered(Happen(net, Connect(fd, host), password)) <==> Uninvited(net, fd)
  {
    var next := Happen(net, Connect(fd, host), password);
    if !Uninvited(net, fd) {
      var name :| name in net.channels && fd in net.channels[name].invited;
      assert Invited(next, name, fd);
    } else {
      forall name, f | Invited(next, name, f) && f in next.clients ensures next.clients[f].registered {
        assert Invited(net, name, f);
      }
    }
  }

  lemma AsksByInvite(net: Net, fd: int, m: Message)
    ensures AsksUnregistered(net, fd, m) ==> m.command == "INVITE"
  {
  }

  /** An event keeps every guest registered exactly when it is none of those. */
  lemma EventGuestsExactly(net: Net, e: Event, password: string)
    requires Sound(net) && GuestsRegistered(net) && Possible(net, e)
    ensures GuestsRegistered(Happen(net, e, password)) <==> !Unregisters(net, e)
  {
    hide Inv, GuestsRegistered, AsksUnregistered, Close, Command, Parse;
    match e
    case Connect(fd, host) => ConnectGuests(net, fd, host, password);
    case HangUp(fd) => CloseGuests(net, fd);
    case LineIn(fd, line) =>
      if Parse(line).Some? {
        var m := Parse(line).value;
        CommandGuestsExactly(net, fd, m, password);
        ClosingExactly(net, fd, m, password);
        if m.command == "INVITE" {
          assert !Dooms(net, fd, m, password);
        } else {
          AsksByInvite(net, fd, m);
          CloseGuests(Command(net, fd, m, password), fd);
        }
      }
  }

  // The input: two spaces between INVITE and the channel.

  lemma ParamsOfGap(word: string)
    requires Word(word)
    ensures ParamsOf(" " + word) == ["", word]
  {
    var rest := " " + word;
    ParamsOfWord(word);
    assert rest[..0] == "" && rest[1..] == word && SkipSpaces(word) == word;
    assert FindSpace(rest) == 0;
    hide Word;
    assert ParamsOf(rest) == [rest[..0]] + ParamsOf(word);
  }

  lemma ParseGap(command: string, word: string)
    requires Word(command) && Word(word)
    ensures Parse(command + " " + (" " + word)) == Some(Message(ToUpper(command), ["", word]))
  {
    var rest := " " + word;
    var line := command + " " + rest;
    assert line[|line| - 1] == word[|word| - 1];
    TrimSame(line);
    FindInWord(command, rest);
    assert line[..|command|] == command && line[|command| + 1..] == rest;
    ParamsOfGap(word);
    hide Trim, ToUpper, Word, ParamsOf;
    assert WithoutPrefix(line) == line && SkipSpaces(line) == line;
  }

  lemma LineDoes(net: Net, fd: int, line: string, m: Message, password: string)
    requires fd in net.clients && Parse(line) == Some(m) && !Command(net, fd, m, password).clients[fd].closing
    ensures Happen(net, LineIn(fd, line), password) == Command(net, fd, m, password)
  {
    hide Command, Parse, Close;
  }

  lemma InviteFound(net: Net, fd: int, nick: string, name: string, f: int)
    requires fd in net.clients && name in net.channels && FindByNick(net.clients, nick) == Some(f)
    requires fd in net.channels[name].members && fd in net.channels[name].operators && f !in net.channels[name].members
    ensures DoInvite(net, fd, [nick, name]) == SetChannel(net, name, net.channels[name].Invite(f))
  {
    hide FindByNick;
  }

  /** Such a line by an operator invites the first client without a nickname. */
  lemma GapInvites(net: Net, fd: int, name: string, f: int, password: string)
    requires Sound(net) && name in net.channels && fd in net.channels[name].operators && Word(name)
    requires FindByNick(net.clients, "") == Some(f)
    ensures fd in net.clients && f in net.clients && !net.clients[f].registered
    ensures Happen(net, LineIn(fd, "INVITE" + " " + (" " + name)), password)
         == SetChannel(net, name, net.channels[name].Invite(f))
  {
    OperatorFacts(net, fd, name);
    CommandWords();
    ParseGap("INVITE", name);
    EmptyNickUnregistered(net, f);
    if In(net, f, name) {
      MembersLive(net, f, name);
    }
    Dispatch(net, fd, Message("INVITE", ["", name]), password);
    InviteFound(net, fd, "", name, f);
    var line := "INVITE" + " " + (" " + name);
    assert Parse(line) == Some(Message("INVITE", ["", name]));
    hide Command, DoInvite, Close, Word, ToUpper, Parse, Sound, FindByNick;
    LineDoes(net, fd, line, Message("INVITE", ["", name]), password);
  }

  function Half(): Net {
    SetClient(Founded(), 2, Client(2, "home", "", "", "", false, false, false, {}))
  }

  lemma HalfFacts()
    ensures 2 !in Founded().clients && "#c" in Half().channels && 1 in Half().channels["#c"].operators && Word("#c")
    ensures FindByNick(Half().clients, "") == Some(2)
  {
    assert ToUpper("ann")[0] == 'A';
    assert Matching(Half().clients, "") == {2};
  }

  /** A run from the empty server into a state with an invited client that never registered. */
  lemma UnregisteredInvited(password: string) returns (end: Net)
    requires Word(password)
    ensures var events := Founding(password) + [Connect(2, "home")] + [LineIn(1, "INVITE" + " " + (" " + "#c"))];
      Reaches(Net(map[], map[]), events, password, end)
    ensures Invited(end, "#c", 2) && 2 in end.clients && !end.clients[2].registered
  {
    var start, line := Net(map[], map[]), LineIn(1, "INVITE" + " " + (" " + "#c"));
    HalfFacts();
    FoundingRuns(password);
    assert Happen(Founded(), Connect(2, "home"), password) == Half();
    hide Happen, Reaches, Founding, Founded, Half, Sound, Inv, Word, FindByNick;
    ReachesNext(start, Founding(password), password, Founded(), Connect(2, "home"));
    var events := Founding(password) + [Connect(2, "home")];
    ServerSound(events, password, Half());
    GapInvites(Half(), 1, "#c", 2, password);
    ReachesNext(start, events, password, Half(), line);
    end := Happen(Half(), line, password);
  }

  /** A nickname that is not empty is no safeguard: a client that has sent NICK alone is found by it too. */
  lemma NickIsNotEnough(password: string)
    ensures 2 in Half().clients
    ensures var net := SetClient(Half(), 2, Half().clients[2].(nick := "bob"));
      && Happen(Half(), Said(2, "NICK", ["bob"]), password) == net
      && AsksUnregistered(net, 1, Message("INVITE", ["bob", "#c"]))
  {
    var net := SetClient(Half(), 2, Half().clients[2].(nick := "bob"));
    FreeBeside(Half(), "bob");
    NewWords();
    HalfFacts();
    hide IsValidNickname, NickFree;
    NickStep(Half(), 2, "bob", password);
    hide Happen, Said;
    OtherNick("bob");
    assert Matching(net.clients, "bob") == {2};
    assert FindByNick(net.clients, "bob") == Some(2);
  }

  // Whom an invitation was given to.

  /** Event i leads from its state to the next one. */
  ghost predicate Leads(states: seq<Net>, events: seq<Event>, password: string, i: nat)
    requires i < |events| && |states| == |events| + 1
  {
    Possible(states[i], events[i]) && states[i + 1] == Happen(states[i], events[i], password)
  }

  /** The states passed through and the events between them, from the empty server on. */
  ghost predicate Trace(states: seq<Net>, events: seq<Event>, password: string) {
    && |states| == |events| + 1 && states[0] == Net(map[], map[])
    && forall i :: 0 <= i < |events| ==> Leads(states, events, password, i)
  }

  lemma TraceStep(states: seq<Net>, events: seq<Event>, password: string, i: nat)
    requires Trace(states, events, password) && i < |events|
    ensures |states| == |events| + 1
    ensures Possible(states[i], events[i]) && states[i + 1] == Happen(states[i], events[i], password)
  {
    assert Leads(states, events, password, i);
  }

  lemma {:induction false} TraceSound(states: seq<Net>, events: seq<Event>, password: string, k: nat)
    requires Trace(states, events, password) && k <= |events|
    ensures |states| == |events| + 1 && Sound(states[k])
  {
    if k == 0 {
      EmptySound();
    } else {
      TraceSound(states, events, password, k - 1);
      TraceStep(states, events, password, k - 1);
      hide Trace, Happen, Sound;
      EventSound(states[k - 1], events[k - 1], password);
    }
  }

  /** The event is an INVITE of f to the channel by one of its operators. */
  ghost predicate Gives(net: Net, e: Event, name: string, f: int) {
    && e.LineIn? && Parse(e.line).Some? && Parse(e.line).value.command == "INVITE"
    && name in net.channels && Invites(net, e.fd, Parse(e.line).value.params, name, f)
  }

  lemma EventGives(net: Net, e: Event, password: string, name: string, f: int)
    requires Sound(net) && Possible(net, e)
    ensures Invited(Happen(net, e, password), name, f) && !Invited(net, name, f) ==> Gives(net, e, name, f)
  {
    hide Inv, Close, Command, Parse, Invites;
    match e
    case Connect(_, _) =>
    case HangUp(fd) => CloseGuests(net, fd);
    case LineIn(fd, line) =>
      CloseGuests(net, fd);
      if Parse(line).Some? {
        var m := Parse(line).value;
        CommandInvites(net, fd, m, password, name, f);
        CloseGuests(Command(net, fd, m, password), fd);
      }
  }

  lemma SameHost(net: Net, fd: int, m: Message, password: string, f: int)
    requires Inv(net) && fd in net.clients && f in net.clients
    ensures f in Command(net, fd, m, password).clients
    ensures Command(net, fd, m, password).clients[f].host == net.clients[f].host
  {
    CommandRightful(net, fd, m, password);
    if m.command == "PASS" {
      PassExactly(net, fd, m.params, password);
    } else if m.command == "NICK" {
      NickExactly(net, fd, m.params);
    } else if m.command == "USER" {
      UserExactly(net, fd, m.params);
    }
    Dispatch(net, fd, m, password);
    hide Command, Inv, Kept, DoPass, DoNick, DoUser, DoJoin, DoInvite, DoMode;
  }

  /** Only a new connection puts a client behind a descriptor, and a client's host never changes. */
  lemma EventStays(net: Net, e: Event, password: string, f: int)
    requires Sound(net) && Possible(net, e) && !(e.Connect? && e.fd == f) && f in Happen(net, e, password).clients
    ensures f in net.clients && Happen(net, e, password).clients[f].host == net.clients[f].host
  {
    hide Inv, Close, Command, Parse;
    match e
    case Connect(_, _) =>
    case HangUp(fd) => CloseGuests(net, fd);
    case LineIn(fd, line) =>
      CloseGuests(net, fd);
      if Parse(line).Some? {
        var m := Parse(line).value;
        CloseGuests(Command(net, fd, m, password), fd);
        assert f in Command(net, fd, m, password).clients;
        SameHost(net, fd, m, password, f);
      }
  }

  /** No connection gets descriptor f from event i on, up to state k. */
  predicate Unrenewed(events: seq<Event>, i: nat, k: nat, f: int)
    requires k <= |events|
  {
    forall j :: i <= j < k ==> !(events[j].Connect? && events[j].fd == f)
  }

  /**
   * In state k the invitation of f to the channel is one that an operator gave, and whoever is
   * behind f, if anyone, is the client it was given to.
   */
  ghost predicate Held(states: seq<Net>, events: seq<Event>, k: nat, name: string, f: int)
    requires k <= |events| && |states| == |events| + 1
  {
    exists i: nat :: HeldSince(states, events, i, k, name, f)
  }

  ghost predicate HeldSince(states: seq<Net>, events: seq<Event>, i: nat, k: nat, name: string, f: int)
    requires k <= |events| && |states| == |events| + 1
  {
    && i < k && Gives(states[i], events[i], name, f) && Unrenewed(events, i, k, f)
    && (f in states[k].clients ==> SameClient(states[i], states[k], f))
  }

  predicate SameClient(was: Net, now: Net, f: int) {
    f in was.clients && f in now.clients && now.clients[f].host == was.clients[f].host
  }

  ghost predicate AllHeld(states: seq<Net>, events: seq<Event>)
    requires |states| == |events| + 1
  {
    forall k: nat, name, f :: k <= |events| && Invited(states[k], name, f) ==> Held(states, events, k, name, f)
  }

  /** No connection is given a descriptor that is invited somewhere. */
  ghost predicate NoneReused(states: seq<Net>, events: seq<Event>)
    requires |states| == |events| + 1
  {
    forall i :: 0 <= i < |events| && events[i].Connect? ==> Uninvited(states[i], events[i].fd)
  }

  /** One more event, which is no connection on f and leaves the client behind it in place, if any is left. */
  lemma HeldLonger(states: seq<Net>, events: seq<Event>, k: nat, name: string, f: int)
    requires |states| == |events| + 1 && k < |events| && Held(states, events, k, name, f)
    requires !(events[k].Connect? && events[k].fd == f)
    requires f in states[k + 1].clients ==> SameClient(states[k], states[k + 1], f)
    ensures Held(states, events, k + 1, name, f)
  {
    hide Gives;
    var i: nat :| HeldSince(states, events, i, k, name, f);
    assert Unrenewed(events, i, k + 1, f);
    assert HeldSince(states, events, i, k + 1, name, f);
  }

  lemma TraceStays(states: seq<Net>, events: seq<Event>, password: string, k: nat, f: int)
    requires Trace(states, events, password) && k < |events| && !(events[k].Connect? && events[k].fd == f)
    ensures |states| == |events| + 1 && (f in states[k + 1].clients ==> SameClient(states[k], states[k + 1], f))
  {
    TraceStep(states, events, password, k);
    TraceSound(states, events, password, k);
    hide Trace, Happen, Sound, Possible;
    if f in Happen(states[k], events[k], password).clients {
      EventStays(states[k], events[k], password, f);
    }
  }

  lemma HeldNext(states: seq<Net>, events: seq<Event>, password: string, k: nat, name: string, f: int)
    requires Trace(states, events, password) && k < |events| && Held(states, events, k, name, f)
    requires !(events[k].Connect? && events[k].fd == f)
    ensures Held(states, events, k + 1, name, f)
  {
    hide Trace, Held, SameClient;
    TraceStays(states, events, password, k, f);
    HeldLonger(states, events, k, name, f);
  }

  lemma NotRenewed(states: seq<Net>, events: seq<Event>, k: nat, name: string, f: int)
    requires |states| == |events| + 1 && NoneReused(states, events) && k < |events| && Invited(states[k], name, f)
    ensures !(events[k].Connect? && events[k].fd == f)
  {
  }

  lemma HeldAtOnce(states: seq<Net>, events: seq<Event>, i: nat, name: string, f: int)
    requires |states| == |events| + 1 && i < |events| && Gives(states[i], events[i], name, f)
    requires f in states[i + 1].clients ==> SameClient(states[i], states[i + 1], f)
    ensures Held(states, events, i + 1, name, f)
  {
    assert !events[i].Connect?;
    hide Gives, SameClient;
    assert Unrenewed(events, i, i + 1, f);
    assert HeldSince(states, events, i, i + 1, name, f);
  }

  lemma GivenNow(states: seq<Net>, events: seq<Event>, password: string, i: nat, name: string, f: int)
    requires Trace(states, events, password) && i < |events| && Gives(states[i], events[i], name, f)
    ensures Held(states, events, i + 1, name, f)
  {
    assert !events[i].Connect?;
    hide *;
    TraceStays(states, events, password, i, f);
    HeldAtOnce(states, events, i, name, f);
  }

  lemma HeldStep(states: seq<Net>, events: seq<Event>, password: string, k: nat, name: string, f: int)
    requires Trace(states, events, password) && NoneReused(states, events) && k < |events|
    requires Invited(states[k + 1], name, f)
    requires Invited(states[k], name, f) ==> Held(states, events, k, name, f)
    ensures Held(states, events, k + 1, name, f)
  {
    TraceStep(states, events, password, k);
    TraceSound(states, events, password, k);
    hide Trace, Happen, Sound, Gives, Held, NoneReused, Invited, Possible;
    if Invited(states[k], name, f) {
      NotRenewed(states, events, k, name, f);
      HeldNext(states, events, password, k, name, f);
    } else {
      EventGives(states[k], events[k], password, name, f);
      GivenNow(states, events, password, k, name, f);
    }
  }

  lemma NothingAtFirst(states: seq<Net>, events: seq<Event>, password: string, name: string, f: int)
    requires Trace(states, events, password)
    ensures !Invited(states[0], name, f)
  {
  }

  lemma {:induction false} InvitationHeld(states: seq<Net>, events: seq<Event>, password: string,
                                          k: nat, name: string, f: int)
    requires Trace(states, events, password) && NoneReused(states, events) && k <= |events|
    requires Invited(states[k], name, f)
    ensures Held(states, events, k, name, f)
    decreases k
  {
    NothingAtFirst(states, events, password, name, f);
    hide *;
    if k > 0 {
      if Invited(states[k - 1], name, f) {
        InvitationHeld(states, events, password, k - 1, name, f);
      }
      HeldStep(states, events, password, k - 1, name, f);
    }
  }

  lemma ConnectGivesNothing(net: Net, e: Event, name: string, f: int)
    requires e.Connect?
    ensures !Gives(net, e, name, f)
  {
  }

  /** A reused descriptor holds an invitation that was given to somebody else. */
  lemma ReusedNotHeld(states: seq<Net>, events: seq<Event>, password: string, i: nat, name: string)
    requires Trace(states, events, password) && i < |events| && events[i].Connect?
    requires Invited(states[i], name, events[i].fd)
    ensures Invited(states[i + 1], name, events[i].fd) && !Held(states, events, i + 1, name, events[i].fd)
  {
    TraceStep(states, events, password, i);
    hide Trace, Gives;
    var f := events[i].fd;
    forall j: nat | j < i + 1 ensures !(Gives(states[j], events[j], name, f) && Unrenewed(events, j, i + 1, f)) {
      if j == i {
        assert !Gives(states[j], events[j], name, f) by { ConnectGivesNothing(states[j], events[j], name, f); }
      }
    }
  }

  /**
   * Along a run, every invitation is one an operator gave to the client that holds it, exactly
   * when no connection is given a descriptor invited somewhere.
   */
  lemma HeldExactly(states: seq<Net>, events: seq<Event>, password: string)
    requires Trace(states, events, password)
    ensures |states| == |events| + 1 && (AllHeld(states, events) <==> NoneReused(states, events))
  {
    if NoneReused(states, events) {
      forall k: nat, name, f | k <= |events| && Invited(states[k], name, f) ensures Held(states, events, k, name, f) {
        InvitationHeld(states, events, password, k, name, f);
      }
    } else {
      var i :| 0 <= i < |events| && events[i].Connect? && !Uninvited(states[i], events[i].fd);
      var name :| name in states[i].channels && events[i].fd in states[i].channels[name].invited;
      ReusedNotHeld(states, events, password, i, name);
    }
  }
}
