// What JOIN, PART and KICK do over all the names they are given: which channels change and how,
// said of the state before and after (irc/src/CommandHandler.cpp:137-210, 255-348).

module IrcMembership {
  import opened IrcText
  import opened IrcChannel
  import opened IrcNet
  import opened IrcInv

  // Channels: of the clients only the sets of channels change.

  predicate OnlyChannels(was: Net, now: Net) {
    && now.clients.Keys == was.clients.Keys
    && (forall f :: f in was.clients ==> now.clients[f] == was.clients[f].(channels := now.clients[f].channels))
  }

  predicate Same(was: Net, now: Net, n: string) {
    if n in was.channels then n in now.channels && now.channels[n] == was.channels[n] else n !in now.channels
  }

  /** The names, keys or users in parameter k of a command; none when it is not given. */
  function ListAt(params: seq<string>, k: nat): seq<string> {
    if k < |params| then Split(params[k], ',') else []
  }

  // JOIN.

  function KeyAt(keys: seq<string>, i: nat): string {
    if i < |keys| then keys[i] else ""
  }

  /** One of the first i names, with the key beside it, lets fd into a channel that exists. */
  predicate LetIn(was: Net, fd: int, names: seq<string>, keys: seq<string>, i: nat, n: string)
    requires n in was.channels && i <= |names|
  {
    exists p :: 0 <= p < i && names[p] == n && Admits(was.channels[n], fd, KeyAt(keys, p))
  }

  /** One plain member more, its invitation used up. */
  function Entered(ch: Channel, fd: int): Channel {
    ch.(members := ch.members + {fd}, invited := ch.invited - {fd})
  }

  /** A new channel: no topic, no modes, its founder the only member and the operator. */
  function Begun(name: string, fd: int): Channel {
    Channel(name, "", false, false, false, "", false, 0, {fd}, {fd}, {})
  }

  lemma EntersAs(ch: Channel, name: string, fd: int)
    ensures ch.AddMember(fd, false).RemoveInvite(fd) == Entered(ch, fd)
    ensures Fresh(name).AddMember(fd, true).RemoveInvite(fd) == Begun(name, fd)
  {
    assert Fresh(name).AddMember(fd, true).RemoveInvite(fd).invited == {};
  }

  /** What the first i names of a JOIN do to channel n. */
  predicate JoinEffect(was: Net, now: Net, fd: int, names: seq<string>, keys: seq<string>, i: nat, n: string)
    requires i <= |names|
  {
    if n in was.channels then
      && n in now.channels
      && now.channels[n] == (if fd !in was.channels[n].members && LetIn(was, fd, names, keys, i, n)
                             then Entered(was.channels[n], fd) else was.channels[n])
    else if n in names[..i] && IsChannelName(n) then n in now.channels && now.channels[n] == Begun(n, fd)
    else n !in now.channels
  }

  ghost predicate JoinedTo(was: Net, now: Net, fd: int, names: seq<string>, keys: seq<string>, i: nat)
    requires i <= |names|
  {
    OnlyChannels(was, now) && forall n :: JoinEffect(was, now, fd, names, keys, i, n)
  }

  ghost predicate JoinOutcome(was: Net, now: Net, fd: int, params: seq<string>) {
    JoinedTo(was, now, fd, ListAt(params, 0), ListAt(params, 1), |ListAt(params, 0)|)
  }

  /** Channels as JOIN finds them: named as channels are, and not empty. */
  ghost predicate Established(net: Net) {
    forall n :: n in net.channels ==> IsChannelName(n) && net.channels[n].members != {}
  }

  /** One more name, on the channel it names. */
  lemma JoinHere(was: Net, now: Net, fd: int, names: seq<string>, keys: seq<string>, i: nat)
    requires fd in now.clients && i < |names| && Established(was) && JoinEffect(was, now, fd, names, keys, i, names[i])
    ensures JoinEffect(was, JoinOne(now, fd, names[i], KeyAt(keys, i)), fd, names, keys, i + 1, names[i])
  {
    var n := names[i];
    assert names[..i + 1] == names[..i] + [n];
    EntersAs(if n in was.channels then was.channels[n] else Fresh(n), n, fd);
    if n in was.channels {
      assert LetIn(was, fd, names, keys, i + 1, n) <==>
        LetIn(was, fd, names, keys, i, n) || Admits(was.channels[n], fd, KeyAt(keys, i));
    }
    hide LetIn, KeyAt;
  }

  lemma JoinElsewhere(was: Net, now: Net, fd: int, names: seq<string>, keys: seq<string>, i: nat, n: string)
    requires fd in now.clients && i < |names| && n != names[i] && JoinEffect(was, now, fd, names, keys, i, n)
    ensures JoinEffect(was, JoinOne(now, fd, names[i], KeyAt(keys, i)), fd, names, keys, i + 1, n)
  {
    assert names[..i + 1] == names[..i] + [names[i]];
    assert n in was.channels ==> (LetIn(was, fd, names, keys, i + 1, n) <==> LetIn(was, fd, names, keys, i, n));
    hide LetIn, KeyAt;
  }

  lemma JoinStep(was: Net, now: Net, fd: int, names: seq<string>, keys: seq<string>, i: nat)
    requires fd in was.clients && i < |names| && Established(was) && JoinedTo(was, now, fd, names, keys, i)
    ensures fd in now.clients && fd in JoinOne(now, fd, names[i], KeyAt(keys, i)).clients
    ensures JoinedTo(was, JoinOne(now, fd, names[i], KeyAt(keys, i)), fd, names, keys, i + 1)
  {
    hide JoinEffect, KeyAt;
    var next := JoinOne(now, fd, names[i], KeyAt(keys, i));
    assert OnlyChannels(was, next);
    hide JoinOne;
    var m := i + 1;
    forall n ensures JoinEffect(was, next, fd, names, keys, m, n) {
      assert JoinEffect(was, now, fd, names, keys, i, n);
      if n == names[i] {
        JoinHere(was, now, fd, names, keys, i);
      } else {
        JoinElsewhere(was, now, fd, names, keys, i, n);
      }
    }
  }

  lemma {:induction false} JoinAll(was: Net, now: Net, fd: int, names: seq<string>, keys: seq<string>, i: nat)
    requires fd in was.clients && fd in now.clients && i <= |names| && Established(was)
    requires JoinedTo(was, now, fd, names, keys, i)
    ensures JoinedTo(was, JoinFrom(now, fd, names, keys, i), fd, names, keys, |names|)
    decreases |names| - i
  {
    hide JoinOne, JoinedTo, Established;
    if i < |names| {
      var key := if i < |keys| then keys[i] else "";
      assert key == KeyAt(keys, i);
      JoinStep(was, now, fd, names, keys, i);
      JoinAll(was, JoinOne(now, fd, names[i], key), fd, names, keys, i + 1);
    }
  }

  /**
   * JOIN: of the channels named, those that exist are joined exactly when one of the keys given
   * beside the name, the invitation and the limit let the client in, and as a plain member;
   * those that do not exist are founded, with the client as operator; no other one changes.
   */
  lemma JoinListExactly(net: Net, fd: int, params: seq<string>)
    requires Inv(net) && fd in net.clients
    ensures JoinOutcome(net, DoJoin(net, fd, params), fd, params)
  {
    assert Established(net) by {
      assert forall n :: n in net.channels ==> ChannelFits(n, net.channels[n]);
    }
    assert JoinedTo(net, net, fd, ListAt(params, 0), ListAt(params, 1), 0);
    hide Inv, Established, JoinedTo;
    JoinAll(net, net, fd, ListAt(params, 0), ListAt(params, 1), 0);
  }

  /** A name without a key beside it is tried without one. */
  lemma JoinShortKeys(net: Net, fd: int, a: string, b: string, key: string)
    requires Inv(net) && fd in net.clients && a != b && ',' !in a && ',' !in b && ',' !in key
    requires a in net.channels && b in net.channels
    requires fd !in net.channels[a].members && fd !in net.channels[b].members
    ensures var next := DoJoin(net, fd, [a + [','] + b, key]);
      && a in next.channels && b in next.channels
      && (if Admits(net.channels[a], fd, key) then next.channels[a] == Entered(net.channels[a], fd)
          else next.channels[a] == net.channels[a])
      && (if Admits(net.channels[b], fd, "") then next.channels[b] == Entered(net.channels[b], fd)
          else next.channels[b] == net.channels[b])
  {
    var params := [a + [','] + b, key];
    JoinListExactly(net, fd, params);
    SplitTwo(a, b, ',');
    SplitOne(key, ',');
    var next := DoJoin(net, fd, params);
    hide DoJoin, Inv, Split, Admits, Entered;
    var names, keys := [a, b], [key];
    assert JoinEffect(net, next, fd, names, keys, 2, a) && JoinEffect(net, next, fd, names, keys, 2, b);
    assert LetIn(net, fd, names, keys, 2, a) <==> Admits(net.channels[a], fd, KeyAt(keys, 0));
    assert LetIn(net, fd, names, keys, 2, b) <==> Admits(net.channels[b], fd, KeyAt(keys, 1));
  }

  // PART.

  /** The channel without the members out; the lowest one left takes over when no operator is. */
  ghost function Handed(ch: Channel, out: set<int>): Channel {
    var members, operators := ch.members - out, ch.operators - out;
    ch.(members := members, invited := ch.invited - out,
        operators := if operators != {} || members == {} then operators else {MinOf(members)})
  }

  /** Channel n once the members out have left it: gone when that empties it. */
  ghost predicate Left(ch: Channel, out: set<int>, now: Net, n: string) {
    if ch.members - out == {} then n !in now.channels else n in now.channels && now.channels[n] == Handed(ch, out)
  }

  function Without(ch: Channel, out: set<int>): Channel {
    ch.(members := ch.members - out, operators := ch.operators - out, invited := ch.invited - out)
  }

  lemma HandedOn(ch: Channel, out: set<int>, f: int)
    ensures EnsureOperator(Without(ch, out)) == Handed(ch, out)
    ensures ch.RemoveMember(f) == Without(ch, {f})
    ensures Handed(ch, out).members == ch.members - out
    ensures ch.members - out != {} ==> Handed(ch, out).operators != {}
  {
    var rest := Without(ch, out);
    if rest.members != {} && rest.operators == {} {
      assert rest.operators + {MinOf(rest.members)} == {MinOf(rest.members)};
    }
  }

  /** What the first i names of a PART do to channel n. */
  ghost predicate PartEffect(was: Net, now: Net, fd: int, names: seq<string>, i: nat, n: string)
    requires i <= |names|
  {
    if n in was.channels && fd in was.channels[n].members && n in names[..i] then
      Left(was.channels[n], {fd}, now, n)
    else Same(was, now, n)
  }

  ghost predicate PartedTo(was: Net, now: Net, fd: int, names: seq<string>, i: nat)
    requires i <= |names|
  {
    OnlyChannels(was, now) && forall n :: PartEffect(was, now, fd, names, i, n)
  }

  ghost predicate PartOutcome(was: Net, now: Net, fd: int, params: seq<string>) {
    PartedTo(was, now, fd, ListAt(params, 0), |ListAt(params, 0)|)
  }

  lemma LeaveFacts(net: Net, fd: int, name: string)
    requires fd in net.clients && name in net.channels
    ensures OnlyChannels(net, Leave(net, fd, name))
    ensures forall n :: n != name ==> Same(net, Leave(net, fd, name), n)
    ensures Left(net.channels[name], {fd}, Leave(net, fd, name), name)
  {
    HandedOn(net.channels[name], {fd}, fd);
    hide EnsureOperator, Handed;
  }

  lemma EnsureMembers(ch: Channel)
    ensures EnsureOperator(ch).members == ch.members
  {
  }

  lemma PartStep(was: Net, now: Net, fd: int, names: seq<string>, i: nat)
    requires fd in was.clients && fd in now.clients && i < |names| && PartedTo(was, now, fd, names, i)
    ensures PartedTo(was, PartOne(now, fd, names[i]), fd, names, i + 1)
  {
    var name, next := names[i], PartOne(now, fd, names[i]);
    assert names[..i + 1] == names[..i] + [name];
    assert PartEffect(was, now, fd, names, i, name);
    if name in was.channels {
      HandedOn(was.channels[name], {fd}, fd);
    }
    if name in now.channels && fd in now.channels[name].members {
      LeaveFacts(now, fd, name);
    }
    hide Leave, EnsureOperator, Handed;
    var m := i + 1;
    forall n ensures PartEffect(was, next, fd, names, m, n) {
      assert PartEffect(was, now, fd, names, i, n);
    }
  }

  lemma {:induction false} PartAll(was: Net, now: Net, fd: int, names: seq<string>, i: nat)
    requires fd in was.clients && fd in now.clients && i <= |names| && PartedTo(was, now, fd, names, i)
    ensures PartedTo(was, PartFrom(now, fd, names, i), fd, names, |names|)
    decreases |names| - i
  {
    hide Leave, PartedTo;
    if i < |names| {
      PartStep(was, now, fd, names, i);
      PartAll(was, PartOne(now, fd, names[i]), fd, names, i + 1);
    }
  }

  /**
   * PART: every channel named that the client is on is left, erased when it was alone there and
   * else left with an operator; no other one changes.
   */
  lemma PartListExactly(net: Net, fd: int, params: seq<string>)
    requires fd in net.clients
    ensures PartOutcome(net, DoPart(net, fd, params), fd, params)
  {
    assert PartedTo(net, net, fd, ListAt(params, 0), 0);
    hide PartedTo, Leave;
    PartAll(net, net, fd, ListAt(params, 0), 0);
  }

  // KICK.

  /** The user beside name i of a KICK; the first one stands in for missing ones. */
  function UserAt(users: seq<string>, i: nat): string
    requires users != []
  {
    if i < |users| then users[i] else users[0]
  }

  /** Whom name i of a KICK is about, found by nickname. */
  ghost function Target(net: Net, users: seq<string>, i: nat): Option<int> {
    if users == [] then None else FindByNick(net.clients, UserAt(users, i))
  }

  /** Name p is channel n and its target f, and no name before it has sent fd itself off n. */
  ghost predicate Hits(was: Net, fd: int, names: seq<string>, users: seq<string>, n: string, p: nat, f: int)
    requires p < |names|
  {
    && names[p] == n && Target(was, users, p) == Some(f)
    && forall q: nat :: q < p && names[q] == n ==> Target(was, users, q) != Some(fd)
  }

  /** The members the first i names of a KICK remove from channel n. */
  ghost function Kicked(was: Net, fd: int, names: seq<string>, users: seq<string>, i: nat, n: string): set<int>
    requires n in was.channels && i <= |names|
  {
    set f | f in was.channels[n].members && exists p: nat :: p < i && Hits(was, fd, names, users, n, p, f)
  }

  /** What the first i names of a KICK do to channel n. */
  ghost predicate KickEffect(was: Net, now: Net, fd: int, names: seq<string>, users: seq<string>, i: nat, n: string)
    requires i <= |names|
  {
    if n in was.channels && fd in was.channels[n].members && fd in was.channels[n].operators then
      var out := Kicked(was, fd, names, users, i, n);
      Left(was.channels[n], out, now, n) && (n in now.channels ==> now.channels[n].operators != {})
    else Same(was, now, n)
  }

  ghost predicate KickedTo(was: Net, now: Net, fd: int, names: seq<string>, users: seq<string>, i: nat)
    requires i <= |names|
  {
    OnlyChannels(was, now) && forall n :: KickEffect(was, now, fd, names, users, i, n)
  }

  ghost predicate KickOutcome(was: Net, now: Net, fd: int, params: seq<string>) {
    KickedTo(was, now, fd, ListAt(params, 0), ListAt(params, 1), |ListAt(params, 0)|)
  }

  /** Kicking renames nobody. */
  lemma SameFinding(was: Net, now: Net, nick: string)
    requires OnlyChannels(was, now)
    ensures FindByNick(now.clients, nick) == FindByNick(was.clients, nick)
  {
    forall f | f in was.clients ensures f in now.clients && now.clients[f].nick == was.clients[f].nick {
      assert now.clients[f] == was.clients[f].(channels := now.clients[f].channels);
    }
    assert Matching(now.clients, nick) == Matching(was.clients, nick);
  }

  lemma {:induction false} KickedItself(was: Net, fd: int, names: seq<string>, users: seq<string>,
                                        n: string, i: nat, q: nat)
    requires q < i <= |names| && names[q] == n && Target(was, users, q) == Some(fd)
    ensures exists p: nat :: p < i && Hits(was, fd, names, users, n, p, fd)
    decreases q
  {
    hide Target;
    if q0: nat :| q0 < q && names[q0] == n && Target(was, users, q0) == Some(fd) {
      KickedItself(was, fd, names, users, n, i, q0);
    } else {
      assert Hits(was, fd, names, users, n, q, fd);
    }
  }

  /** The members removed by one more name: its target, unless fd has sent itself off before. */
  lemma KickedNext(was: Net, fd: int, names: seq<string>, users: seq<string>, i: nat, n: string)
    requires n in was.channels && fd in was.channels[n].members && i < |names|
    ensures var out, t := Kicked(was, fd, names, users, i, n), Target(was, users, i);
      Kicked(was, fd, names, users, i + 1, n) ==
        if names[i] == n && t.Some? && t.value in was.channels[n].members && fd !in out then out + {t.value} else out
  {
    hide Target;
    var out, next := Kicked(was, fd, names, users, i, n), Kicked(was, fd, names, users, i + 1, n);
    var t := Target(was, users, i);
    if fd in out {
      assert forall f :: !Hits(was, fd, names, users, n, i, f);
    } else if names[i] == n && t.Some? {
      forall q: nat | q < i && names[q] == n ensures Target(was, users, q) != Some(fd) {
        if Target(was, users, q) == Some(fd) {
          KickedItself(was, fd, names, users, n, i, q);
        }
      }
      assert Hits(was, fd, names, users, n, i, t.value);
    }
  }

  lemma EnsureKeeps(ch: Channel)
    ensures ch.operators != {} ==> EnsureOperator(ch) == ch
    ensures ch.members != {} ==> EnsureOperator(ch).operators != {}
    ensures EnsureOperator(ch).members == ch.members
  {
    if ch.operators == {} && ch.members != {} {
      assert MinOf(ch.members) in EnsureOperator(ch).operators;
    }
  }

  lemma HandedTwice(ch: Channel, out: set<int>, f: int)
    ensures Handed(Without(ch, out), {f}) == Handed(ch, out + {f})
    ensures Without(ch, out).members - {f} == ch.members - (out + {f})
  {
    var rest := Without(ch, out);
    assert rest.members - {f} == ch.members - (out + {f}) && rest.operators - {f} == ch.operators - (out + {f});
    assert rest.invited - {f} == ch.invited - (out + {f});
  }

  lemma KickOneFacts(was: Net, now: Net, fd: int, n: string, users: seq<string>, i: nat)
    requires fd in now.clients && users != [] && OnlyChannels(was, now)
    ensures var t, next := Target(was, users, i), KickOne(now, fd, n, UserAt(users, i));
      if n in now.channels && fd in now.channels[n].members && fd in now.channels[n].operators
         && t.Some? && t.value in now.channels[n].members
      then Left(now.channels[n], {t.value}, next, n)
      else next == now
  {
    SameFinding(was, now, UserAt(users, i));
    var t := Target(was, users, i);
    if n in now.channels && t.Some? && t.value in now.clients {
      LeaveFacts(now, t.value, n);
    }
    hide Leave, EnsureOperator, FindByNick;
  }

  /** One more name, on the channel it names, which fd operates. */
  lemma KickOperated(was: Net, now: Net, next: Net, fd: int, names: seq<string>, users: seq<string>, i: nat)
    requires i < |names| && names[i] in was.channels
    requires fd in was.channels[names[i]].members && fd in was.channels[names[i]].operators
    requires KickEffect(was, now, fd, names, users, i, names[i])
    requires var n, t := names[i], Target(was, users, i);
      if n in now.channels && fd in now.channels[n].members && fd in now.channels[n].operators
         && t.Some? && t.value in now.channels[n].members
      then Left(now.channels[n], {t.value}, next, n)
      else Same(now, next, n)
    ensures KickEffect(was, next, fd, names, users, i + 1, names[i])
  {
    var n, t := names[i], Target(was, users, i);
    var ch, out := was.channels[n], Kicked(was, fd, names, users, i, n);
    var rest, more := Without(ch, out), Kicked(was, fd, names, users, i + 1, n);
    KickedNext(was, fd, names, users, i, n);
    HandedOn(ch, out, fd);
    EnsureKeeps(rest);
    hide EnsureOperator, Handed, Kicked, Target;
    if fd in out {
      assert more == out && fd !in rest.members;
    } else {
      assert fd in rest.members && fd in rest.operators && n in now.channels && now.channels[n] == rest;
      if t.Some? && t.value in rest.members {
        HandedTwice(ch, out, t.value);
        assert more == out + {t.value};
        HandedOn(ch, more, fd);
      } else {
        assert more == out by { assert t.Some? && t.value in ch.members ==> out + {t.value} == out; }
      }
    }
  }

  /** One more name, on the channel it names. */
  lemma KickHere(was: Net, now: Net, fd: int, names: seq<string>, users: seq<string>, i: nat)
    requires fd in was.clients && i < |names| && users != [] && KickedTo(was, now, fd, names, users, i)
    ensures fd in now.clients
    ensures KickEffect(was, KickOne(now, fd, names[i], UserAt(users, i)), fd, names, users, i + 1, names[i])
  {
    assert fd in now.clients;
    assert KickEffect(was, now, fd, names, users, i, names[i]);
    KickOneFacts(was, now, fd, names[i], users, i);
    var next := KickOne(now, fd, names[i], UserAt(users, i));
    assert next == now ==> Same(now, next, names[i]);
    hide KickOne, Kicked, Target, Left, OnlyChannels;
    if names[i] in was.channels && fd in was.channels[names[i]].members && fd in was.channels[names[i]].operators {
      hide KickEffect;
      KickOperated(was, now, next, fd, names, users, i);
    }
  }

  lemma KickElsewhere(was: Net, now: Net, next: Net, fd: int, names: seq<string>, users: seq<string>, i: nat, n: string)
    requires i < |names| && n != names[i] && KickEffect(was, now, fd, names, users, i, n) && Same(now, next, n)
    ensures KickEffect(was, next, fd, names, users, i + 1, n)
  {
    if n in was.channels && fd in was.channels[n].members {
      KickedNext(was, fd, names, users, i, n);
    }
    hide Kicked, EnsureOperator;
  }

  lemma KickStep(was: Net, now: Net, fd: int, names: seq<string>, users: seq<string>, i: nat)
    requires fd in was.clients && i < |names| && users != [] && KickedTo(was, now, fd, names, users, i)
    ensures fd in now.clients
    ensures var next := KickOne(now, fd, names[i], UserAt(users, i));
      KickedTo(was, next, fd, names, users, i + 1)
  {
    var nick := UserAt(users, i);
    var next := KickOne(now, fd, names[i], nick);
    var target := FindByNick(now.clients, nick);
    if names[i] in now.channels && target.Some? {
      LeaveFacts(now, target.value, names[i]);
    }
    hide Leave, EnsureOperator, KickEffect;
    assert OnlyChannels(was, next) && forall n :: n != names[i] ==> Same(now, next, n);
    hide KickOne;
    KickHere(was, now, fd, names, users, i);
    var m := i + 1;
    forall n ensures KickEffect(was, next, fd, names, users, m, n) {
      assert KickEffect(was, now, fd, names, users, i, n);
      if n != names[i] {
        KickElsewhere(was, now, next, fd, names, users, i, n);
      }
    }
  }

  lemma {:induction false} KickAll(was: Net, now: Net, fd: int, names: seq<string>, users: seq<string>, i: nat)
    requires fd in was.clients && fd in now.clients && i <= |names| && users != []
    requires KickedTo(was, now, fd, names, users, i)
    ensures KickedTo(was, KickFrom(now, fd, names, users, i), fd, names, users, |names|)
    decreases |names| - i
  {
    hide Leave, KickOne, KickedTo;
    if i < |names| {
      KickStep(was, now, fd, names, users, i);
      KickAll(was, KickOne(now, fd, names[i], UserAt(users, i)), fd, names, users, i + 1);
    }
  }

  lemma NoneKicked(net: Net, fd: int, names: seq<string>, users: seq<string>, i: nat)
    requires i <= |names| && (i == 0 || users == [])
    ensures KickedTo(net, net, fd, names, users, i)
  {
    forall n ensures KickEffect(net, net, fd, names, users, i, n) {
      if n in net.channels {
        assert Kicked(net, fd, names, users, i, n) == {};
        assert Without(net.channels[n], {}) == net.channels[n];
        EnsureKeeps(net.channels[n]);
      }
    }
  }

  /**
   * KICK: off each channel that the client operates go the targets of its name, in order, up to
   * the client itself if it is one; the channel is erased when nobody is left and else has an
   * operator; no other one changes.
   */
  lemma KickListExactly(net: Net, fd: int, params: seq<string>)
    requires fd in net.clients
    ensures KickOutcome(net, DoKick(net, fd, params), fd, params)
  {
    var names, users := ListAt(params, 0), ListAt(params, 1);
    hide KickedTo, Leave, Target;
    if |params| < 2 {
      NoneKicked(net, fd, names, users, |names|);
    } else {
      NoneKicked(net, fd, names, users, 0);
      KickAll(net, net, fd, names, users, 0);
    }
  }

  lemma OneKicked(net: Net, fd: int, names: seq<string>, users: seq<string>, n: string, f: int)
    requires |names| == 2 && |users| == 1 && n in names && f != fd && FindByNick(net.clients, users[0]) == Some(f)
    requires n in net.channels && fd in net.channels[n].members && f in net.channels[n].members
    ensures Kicked(net, fd, names, users, 2, n) == {f}
  {
    KickedNext(net, fd, names, users, 0, n);
    KickedNext(net, fd, names, users, 1, n);
    assert Kicked(net, fd, names, users, 0, n) == {};
    hide Kicked, FindByNick;
    assert Target(net, users, 0) == Some(f) && Target(net, users, 1) == Some(f);
  }

  /** One user for several channels is kicked from each of them. */
  lemma KickOneUser(net: Net, fd: int, a: string, b: string, nick: string, f: int)
    requires fd in net.clients && a != b && ',' !in a && ',' !in b && ',' !in nick && f != fd
    requires FindByNick(net.clients, nick) == Some(f) && a in net.channels && b in net.channels
    requires fd in net.channels[a].members && fd in net.channels[a].operators && f in net.channels[a].members
    requires fd in net.channels[b].members && fd in net.channels[b].operators && f in net.channels[b].members
    ensures var next := DoKick(net, fd, [a + [','] + b, nick]);
      Left(net.channels[a], {f}, next, a) && Left(net.channels[b], {f}, next, b)
  {
    var params := [a + [','] + b, nick];
    KickListExactly(net, fd, params);
    SplitTwo(a, b, ',');
    SplitOne(nick, ',');
    var next := DoKick(net, fd, params);
    var names, users := [a, b], [nick];
    OneKicked(net, fd, names, users, a, f);
    OneKicked(net, fd, names, users, b, f);
    hide DoKick, Split, Left, FindByNick, Kicked;
    assert KickEffect(net, next, fd, names, users, 2, a) && KickEffect(net, next, fd, names, users, 2, b);
  }

  // A client going away.

  /** The client is gone, each of its channels has lost it, and nothing else has changed. */
  ghost predicate Gone(was: Net, now: Net, fd: int) {
    && now.clients == was.clients - {fd}
    && forall n :: if n in was.channels && fd in was.channels[n].members then Left(was.channels[n], {fd}, now, n)
                   else Same(was, now, n)
  }

  lemma CloseExactly(net: Net, fd: int)
    requires Inv(net) && fd in net.clients
    ensures Gone(net, Close(net, fd), fd)
  {
    var next := Close(net, fd);
    forall n
      ensures if n in net.channels && fd in net.channels[n].members then Left(net.channels[n], {fd}, next, n)
              else Same(net, next, n)
    {
      assert In(net, fd, n) <==> Knows(net, fd, n);
      if n in net.channels {
        HandedOn(net.channels[n], {fd}, fd);
      }
    }
    hide EnsureOperator, Handed;
  }
}
