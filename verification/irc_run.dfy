// Whole runs of the server: what every reachable state satisfies.

module IrcRun {
  import opened IrcText
  import opened IrcParse
  import opened IrcChannel
  import opened IrcMode
  import opened IrcNet
  import opened IrcInv
  import opened IrcEffect

  /** Between events no connection is waiting to be closed. */
  ghost predicate NoneClosing(net: Net) {
    forall fd :: fd in net.clients ==> !net.clients[fd].closing
  }

  ghost predicate Sound(net: Net) {
    Inv(net) && NoneClosing(net)
  }

  /** The commands that end the connection of the client that sends them. */
  predicate Dooms(net: Net, fd: int, m: Message, password: string)
    requires fd in net.clients
  {
    m.command == "QUIT" ||
    (m.command == "PASS" && !net.clients[fd].registered && m.params != [] && m.params[0] != password)
  }

  /** A command marks its own client, if any, and does so exactly when it is a QUIT or a wrong PASS. */
  lemma ClosingExactly(net: Net, fd: int, m: Message, password: string)
    requires Sound(net) && fd in net.clients
    ensures var next := Command(net, fd, m, password);
      && (next.clients[fd].closing <==> Dooms(net, fd, m, password))
      && (forall f :: f in next.clients && f != fd ==> !next.clients[f].closing)
  {
    CommandRightful(net, fd, m, password);
    if m.command == "PASS" {
      PassExactly(net, fd, m.params, password);
    } else if m.command == "NICK" {
      NickExactly(net, fd, m.params);
    } else if m.command == "USER" {
      UserExactly(net, fd, m.params);
    }
    Dispatch(net, fd, m, password);
    hide Command, Inv, Kept;
    hide DoPass, DoNick, DoUser, DoJoin, DoInvite, DoMode;
  }

  lemma EventSound(net: Net, e: Event, password: string)
    requires Sound(net) && Possible(net, e)
    ensures Sound(Happen(net, e, password))
  {
    EventKeeps(net, e, password);
    if e.LineIn? && Parse(e.line).Some? {
      ClosingExactly(net, e.fd, Parse(e.line).value, password);
    }
    hide Inv, Command, Parse;
  }

  lemma {:induction false} AlwaysSound(net: Net, events: seq<Event>, password: string, end: Net)
    requires Sound(net) && Reaches(net, events, password, end)
    ensures Sound(end)
    decreases events
  {
    if events != [] {
      EventSound(net, events[0], password);
      AlwaysSound(Happen(net, events[0], password), events[1..], password, end);
    }
  }

  /** Every state the server ever reaches is sound. */
  lemma ServerSound(events: seq<Event>, password: string, end: Net)
    requires Reaches(Net(map[], map[]), events, password, end)
    ensures Sound(end)
  {
    AlwaysSound(Net(map[], map[]), events, password, end);
  }

  lemma {:induction false} ReachesNext(net: Net, events: seq<Event>, password: string, mid: Net, e: Event)
    requires Reaches(net, events, password, mid) && Possible(mid, e)
    ensures Reaches(net, events + [e], password, Happen(mid, e, password))
    decreases events
  {
    hide Happen;
    if events == [] {
      assert ([e])[1..] == [];
      assert events + [e] == [e];
    } else {
      ReachesNext(Happen(net, events[0], password), events[1..], password, mid, e);
      assert (events + [e])[1..] == events[1..] + [e];
    }
  }

  lemma {:induction false} ReachesOn(net: Net, j: seq<Event>, password: string, mid: Net, k: seq<Event>, end: Net)
    requires Reaches(net, j, password, mid) && Reaches(mid, k, password, end)
    ensures Reaches(net, j + k, password, end)
    decreases j
  {
    hide Happen;
    if j == [] {
      assert j + k == k;
    } else {
      ReachesOn(Happen(net, j[0], password), j[1..], password, mid, k, end);
      assert (j + k)[1..] == j[1..] + k;
    }
  }

  lemma ReachesOne(net: Net, e: Event, password: string)
    requires Possible(net, e)
    ensures Reaches(net, [e], password, Happen(net, e, password))
  {
    hide Happen;
    assert Reaches(Happen(net, e, password), [e][1..], password, Happen(net, e, password));
  }

  // The answer to a MODE query, fed back to the server.

  /**
   * The whole way round: an operator of a channel without modes sends the line made of the
   * answer to a MODE query on ch, and the channel gets the modes of ch; nothing else changes.
   */
  lemma ServerRestores(net: Net, fd: int, ch: Channel, password: string)
    requires Sound(net) && ch.name in net.channels && fd in net.channels[ch.name].operators
    requires Blank(net.channels[ch.name]) && Fits(ch) && Word(ch.name) && (ch.hasKey ==> Word(ch.key))
    ensures fd in net.clients
    ensures Happen(net, LineIn(fd, ModeLine(ch)), password)
         == SetChannel(net, ch.name, LikeModes(net.channels[ch.name], ch))
  {
    OperatorFacts(net, fd, ch.name);
    hide Inv, Fits, Word, Blank;
    ModeLineParses(ch);
    ModeSets(net, fd, ch);
    Dispatch(net, fd, Message("MODE", [ch.name, ModeLetters(ch)] + ModeArgs(ch)), password);
    hide Parse, Command, DoMode, ModeLine, ModeLetters, ModeArgs, Close;
  }

  lemma OperatorFacts(net: Net, fd: int, name: string)
    requires Sound(net) && name in net.channels && fd in net.channels[name].operators
    ensures In(net, fd, name) && fd in net.clients && net.clients[fd].registered && !net.clients[fd].closing
    ensures IsChannelName(name) && net.clients[fd].nick != name
  {
    assert ChannelFits(name, net.channels[name]);
    MembersLive(net, fd, name);
    assert ClientFits(fd, net.clients[fd]);
  }

  lemma ModeSets(net: Net, fd: int, ch: Channel)
    requires fd in net.clients && In(net, fd, ch.name) && fd in net.channels[ch.name].operators
    requires IsChannelName(ch.name) && net.clients[fd].nick != ch.name
    requires Blank(net.channels[ch.name]) && Fits(ch)
    ensures DoMode(net, fd, [ch.name, ModeLetters(ch)] + ModeArgs(ch))
         == SetChannel(net, ch.name, LikeModes(net.channels[ch.name], ch))
  {
    hide ModeLoop, ModeLetters, ModeArgs, Fits, Blank;
    var params := [ch.name, ModeLetters(ch)] + ModeArgs(ch);
    ModesRestored(Look(net.clients), ch, net.channels[ch.name]);
    assert params[2..] == ModeArgs(ch);
  }
}
