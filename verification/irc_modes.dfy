// What a MODE text makes of the four modes of a channel, on any channel and by positions in the
// text: the last letter read decides (irc/src/CommandHandler.cpp:485-628).

module IrcModes {
  import opened IrcText
  import opened IrcChannel
  import opened IrcMode
  import opened IrcNet
  import opened IrcInv
  import opened IrcAnnounce

  /** Whether a sign stands before position p, and whether the last one there is '+'. */
  predicate Signed(s: string, p: nat)
    requires p <= |s|
  {
    exists q :: 0 <= q < p && s[q] in "+-"
  }

  predicate Adds(s: string, p: nat)
    requires p <= |s|
  {
    if p == 0 then true
    else if s[p - 1] == '+' then true
    else if s[p - 1] == '-' then false
    else Adds(s, p - 1)
  }

  /** o always takes an argument, k and l when they are set. */
  predicate Consumes(s: string, p: nat)
    requires p < |s|
  {
    s[p] == 'o' || (s[p] in "kl" && Adds(s, p))
  }

  /** The arguments the letters before p take. */
  function Consumed(s: string, p: nat): nat
    requires p <= |s|
  {
    if p == 0 then 0 else Consumed(s, p - 1) + if Consumes(s, p - 1) then 1 else 0
  }

  /** A letter without a sign, an unknown one, or one whose argument is missing. */
  predicate Stops(s: string, given: nat, p: nat)
    requires p < |s|
  {
    s[p] !in "+-" && (!Signed(s, p) || s[p] !in "itkol" || (Consumes(s, p) && Consumed(s, p) >= given))
  }

  /** The first position from p on at which the text stops, or its end. */
  function ReadUpTo(s: string, given: nat, p: nat): (e: nat)
    requires p <= |s|
    ensures p <= e <= |s| && (e < |s| ==> Stops(s, given, e))
    ensures forall q :: p <= q < e ==> !Stops(s, given, q)
    decreases |s| - p
  {
    if p == |s| || Stops(s, given, p) then p else ReadUpTo(s, given, p + 1)
  }

  /** i and t: the sign of the last one before p, and as before when there is none. */
  predicate LastSign(s: string, p: nat, m: char, was: bool)
    requires p <= |s|
  {
    if p == 0 then was else if s[p - 1] == m then Adds(s, p - 1) else LastSign(s, p - 1, m, was)
  }

  /** k: the argument of the last one before p, none when it is taken away, and as before when there is none. */
  function LastKey(s: string, given: seq<string>, p: nat, was: Option<string>): Option<string>
    requires p <= |s| && Consumed(s, p) <= |given|
  {
    if p == 0 then was
    else if s[p - 1] == 'k' then (if Adds(s, p - 1) then Some(given[Consumed(s, p - 1)]) else None)
    else LastKey(s, given, p - 1, was)
  }

  /** l: the same, but where the argument is no positive number the letter counts for nothing. */
  function LastLimit(s: string, given: seq<string>, p: nat, was: Option<int>): Option<int>
    requires p <= |s| && Consumed(s, p) <= |given|
  {
    if p == 0 then was
    else if s[p - 1] == 'l' && !Adds(s, p - 1) then None
    else if s[p - 1] == 'l' && Atoi(given[Consumed(s, p - 1)]) > 0 then Some(Atoi(given[Consumed(s, p - 1)]))
    else LastLimit(s, given, p - 1, was)
  }

  function KeyOf(ch: Channel): Option<string> {
    if ch.hasKey then Some(ch.key) else None
  }

  function LimitOf(ch: Channel): Option<int> {
    if ch.hasLimit then Some(ch.limit) else None
  }

  /** now has the modes that the text up to p makes of those of was. */
  predicate ModesUpTo(was: Channel, now: Channel, s: string, given: seq<string>, p: nat)
    requires p <= |s| && Consumed(s, p) <= |given|
  {
    && (now.inviteOnly <==> LastSign(s, p, 'i', was.inviteOnly))
    && (now.topicRestricted <==> LastSign(s, p, 't', was.topicRestricted))
    && KeyOf(now) == LastKey(s, given, p, KeyOf(was))
    && LimitOf(now) == LastLimit(s, given, p, LimitOf(was))
  }

  /** The loop has come to p without stopping. */
  predicate At(was: Channel, s: string, given: seq<string>, p: nat, st: Mode) {
    && p <= |s| && !st.halted && !st.unknown
    && st.add == Adds(s, p) && (st.seen <==> Signed(s, p)) && st.arg == Consumed(s, p) <= |given|
    && ModesUpTo(was, st.ch, s, given, p)
  }

  lemma SignedNext(s: string, p: nat)
    requires p < |s|
    ensures Signed(s, p + 1) <==> Signed(s, p) || s[p] in "+-"
  {
  }

  /** What one letter does to the modes; arg is its argument where it takes one. */
  predicate Effected(ch: Channel, now: Channel, add: bool, m: char, arg: string) {
    && now.inviteOnly == (if m == 'i' then add else ch.inviteOnly)
    && now.topicRestricted == (if m == 't' then add else ch.topicRestricted)
    && KeyOf(now) == (if m == 'k' then (if add then Some(arg) else None) else KeyOf(ch))
    && LimitOf(now) ==
         if m == 'l' && !add then None
         else if m == 'l' && Atoi(arg) > 0 then Some(Atoi(arg))
         else LimitOf(ch)
  }

  lemma PlainEffect(ch: Channel, add: bool, m: char, arg: string)
    requires Plain(ch, add, m).Some?
    ensures m in "itkl" && Effected(ch, Plain(ch, add, m).value, add, m, arg)
  {
    hide Atoi;
  }

  lemma ArgEffect(look: Lookup, ch: Channel, add: bool, m: char, arg: string)
    requires TakesArg(add, m)
    ensures var e := WithArg(look, ch, add, m, arg);
      m in "kol" && Effected(ch, if e.Some? then e.value else ch, add, m, arg)
  {
    hide Atoi;
  }

  lemma EffectModes(was: Channel, ch: Channel, now: Channel, s: string, given: seq<string>, p: nat)
    requires p < |s| && Consumed(s, p + 1) <= |given| && ModesUpTo(was, ch, s, given, p) && s[p] in "+-itkol"
    requires if Consumes(s, p) then Effected(ch, now, Adds(s, p), s[p], given[Consumed(s, p)])
             else if s[p] in "+-" then now == ch
             else Effected(ch, now, Adds(s, p), s[p], "") && (s[p] in "kl" ==> !Adds(s, p))
    ensures ModesUpTo(was, now, s, given, p + 1)
  {
    hide Atoi, KeyOf, LimitOf;
  }

  lemma StepEffect(look: Lookup, given: seq<string>, st: Mode, m: char)
    requires !st.halted && !st.unknown && st.arg <= |given|
    ensures var next := ModeStep(look, given, st, m);
      && (next.halted ==> next.ch == st.ch)
      && (m in "+-" ==> next.ch == st.ch)
      && (m !in "+-" && !next.halted && TakesArg(st.add, m) ==>
            st.arg < |given| && Effected(st.ch, next.ch, st.add, m, given[st.arg]))
      && (m !in "+-" && !next.halted && !TakesArg(st.add, m) ==> Effected(st.ch, next.ch, st.add, m, ""))
  {
    if Plain(st.ch, st.add, m).Some? {
      PlainEffect(st.ch, st.add, m, "");
    }
    if TakesArg(st.add, m) && st.arg < |given| {
      ArgEffect(look, st.ch, st.add, m, given[st.arg]);
    }
    PlainLetters(st.ch, st.add, m);
    hide Plain, WithArg, Effected, TakesArg;
  }

  lemma StepModes(look: Lookup, was: Channel, s: string, given: seq<string>, p: nat, st: Mode)
    requires p < |s| && At(was, s, given, p, st)
    ensures var next := ModeStep(look, given, st, s[p]);
      if Stops(s, |given|, p) then next.halted && next.ch == st.ch else At(was, s, given, p + 1, next)
  {
    var m, next := s[p], ModeStep(look, given, st, s[p]);
    SignedNext(s, p);
    StepReads(look, given, st, m);
    StepEffect(look, given, st, m);
    assert TakesArg(st.add, m) <==> Consumes(s, p);
    assert TakesArg(st.add, m) ==> m !in "+-";
    hide ModeStep, Effected, TakesArg, Signed, ModesUpTo;
    if !Stops(s, |given|, p) {
      EffectModes(was, st.ch, next.ch, s, given, p);
    }
  }

  lemma {:induction false} LoopModes(look: Lookup, was: Channel, s: string, given: seq<string>, p: nat, st: Mode)
    requires At(was, s, given, p, st)
    ensures var e := ReadUpTo(s, |given|, p);
      Consumed(s, e) <= |given| && ModesUpTo(was, ModeLoop(look, given, st, s[p..]).ch, s, given, e)
    decreases |s| - p
  {
    if p < |s| {
      StepModes(look, was, s, given, p, st);
      assert s[p..][1..] == s[p + 1..];
      hide ModeStep, At, ModesUpTo, Stops;
      if !Stops(s, |given|, p) {
        LoopModes(look, was, s, given, p + 1, ModeStep(look, given, st, s[p]));
      }
    }
  }

  predicate ModesRead(was: Channel, now: Channel, s: string, given: seq<string>) {
    var e := ReadUpTo(s, |given|, 0);
    Consumed(s, e) <= |given| && ModesUpTo(was, now, s, given, e)
  }

  /** What MODE makes of the four modes: the last letter read before the text stops decides each. */
  lemma ModesExactly(look: Lookup, was: Channel, s: string, given: seq<string>)
    ensures ModesRead(was, ModeLoop(look, given, Start(was), s).ch, s, given)
  {
    assert At(was, s, given, 0, Start(was));
    LoopModes(look, was, s, given, 0, Start(was));
    assert s[0..] == s;
  }

  /** MODE works on the channel it names exactly when its sender operates it, and else does nothing. */
  ghost predicate ModeRead(was: Net, now: Net, fd: int, params: seq<string>) {
    if |params| >= 2 && params[0] in was.channels && fd in was.channels[params[0]].operators
    then
      && params[0] in now.channels
      && ModesRead(was.channels[params[0]], now.channels[params[0]], params[1], params[2..])
    else now == was
  }

  lemma ModeCommandExactly(net: Net, fd: int, params: seq<string>)
    requires Inv(net) && fd in net.clients
    ensures ModeRead(net, DoMode(net, fd, params), fd, params)
  {
    if |params| >= 2 && params[0] in net.channels && fd in net.channels[params[0]].operators {
      assert ChannelFits(params[0], net.channels[params[0]]) && ClientFits(fd, net.clients[fd]);
      assert ModeAllowed(net, fd, params);
      ModesExactly(Look(net.clients), net.channels[params[0]], params[1], params[2..]);
    }
    hide ModeLoop, ModesRead, Inv;
  }
}
