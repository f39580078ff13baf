// The state of the IRC server and what each command does to it
// (irc/src/CommandHandler.cpp, irc/src/Server.cpp:246-256 and 392-510).
// Replies to clients are not part of the state.

module IrcNet {
  import opened Collections
  import opened IrcText
  import opened IrcParse
  import opened IrcChannel
  import opened IrcMode

  datatype Client = Client(
    fd: int, host: string, nick: string, user: string, realname: string,
    passOk: bool, registered: bool, closing: bool, channels: set<string>)

  datatype Net = Net(clients: map<int, Client>, channels: map<string, Channel>)

  // Looking up.

  ghost function MinOf(s: set<int>): (m: int)
    requires s != {}
    ensures m in s && forall x :: x in s ==> m <= x
  {
    var x := Any(s);
    if s == {x} then x
    else
      var y := MinOf(s - {x});
      assert forall z :: z in s ==> z == x || z in s - {x};
      if x < y then x else y
  }

  function Matching(clients: map<int, Client>, nick: string): set<int> {
    set fd | fd in clients && ToUpper(clients[fd].nick) == ToUpper(nick)
  }

  /** The first client in the order of file descriptors whose nickname matches. */
  ghost function FindByNick(clients: map<int, Client>, nick: string): (r: Option<int>)
    ensures r.Some? ==> r.value in clients && ToUpper(clients[r.value].nick) == ToUpper(nick)
  {
    if Matching(clients, nick) == {} then None else Some(MinOf(Matching(clients, nick)))
  }

  /** The client of lowest descriptor with the nickname, up to case; None when there is none. */
  ghost predicate FoundFirst(clients: map<int, Client>, nick: string, r: Option<int>) {
    match r
    case None => forall f :: f in clients ==> ToUpper(clients[f].nick) != ToUpper(nick)
    case Some(fd) =>
      && fd in clients && ToUpper(clients[fd].nick) == ToUpper(nick)
      && forall f :: f in clients && f < fd ==> ToUpper(clients[f].nick) != ToUpper(nick)
  }

  lemma FindExactly(clients: map<int, Client>, nick: string)
    ensures FoundFirst(clients, nick, FindByNick(clients, nick))
  {
    forall f | f in clients ensures ToUpper(clients[f].nick) == ToUpper(nick) <==> f in Matching(clients, nick) {
    }
    hide ToUpper;
  }

  predicate NickInUse(clients: map<int, Client>, nick: string, except: int) {
    exists fd :: fd in clients && fd != except && ToUpper(clients[fd].nick) == ToUpper(nick)
  }

  /** ensureChannelHasOperator: the lowest descriptor takes over when nobody operates the channel. */
  ghost function EnsureOperator(ch: Channel): Channel {
    if ch.members == {} || ch.operators != {} then ch else ch.Grant(MinOf(ch.members))
  }

  function SetClient(net: Net, fd: int, c: Client): Net {
    net.(clients := net.clients[fd := c])
  }

  function SetChannel(net: Net, name: string, ch: Channel): Net {
    net.(channels := net.channels[name := ch])
  }

  // Registration.

  function Authenticate(c: Client): Client {
    if c.registered || !c.passOk || c.nick == "" || c.user == "" then c else c.(registered := true)
  }

  function DoPass(net: Net, fd: int, params: seq<string>, password: string): Net
    requires fd in net.clients
  {
    var c := net.clients[fd];
    if c.registered || params == [] then net
    else if params[0] != password then SetClient(net, fd, c.(closing := true))
    else SetClient(net, fd, Authenticate(c.(passOk := true)))
  }

  function DoNick(net: Net, fd: int, params: seq<string>): Net
    requires fd in net.clients
  {
    if params == [] || !IsValidNickname(params[0]) || NickInUse(net.clients, params[0], fd) then net
    else SetClient(net, fd, Authenticate(net.clients[fd].(nick := params[0])))
  }

  function DoUser(net: Net, fd: int, params: seq<string>): Net
    requires fd in net.clients
  {
    var c := net.clients[fd];
    if c.registered || |params| < 4 then net
    else SetClient(net, fd, Authenticate(c.(user := params[0], realname := params[3])))
  }

  function DoQuit(net: Net, fd: int): Net
    requires fd in net.clients
  {
    SetClient(net, fd, net.clients[fd].(closing := true))
  }

  // Channels.

  /** One name of JOIN; a channel that does not exist is created first. */
  function JoinOne(net: Net, fd: int, name: string, key: string): Net
    requires fd in net.clients
  {
    if !IsChannelName(name) then net
    else
      var ch := if name in net.channels then net.channels[name] else Fresh(name);
      var made := SetChannel(net, name, ch);
      if fd in ch.members then made
      else if ch.inviteOnly && fd !in ch.invited then made
      else if ch.hasKey && ch.key != key then made
      else if ch.hasLimit && |ch.members| >= ch.limit then made
      else
        var c := net.clients[fd];
        SetClient(SetChannel(net, name, ch.AddMember(fd, ch.members == {}).RemoveInvite(fd)),
                  fd, c.(channels := c.channels + {name}))
  }

  function JoinFrom(net: Net, fd: int, names: seq<string>, keys: seq<string>, i: nat): (r: Net)
    requires fd in net.clients && i <= |names|
    ensures r.clients.Keys == net.clients.Keys
    decreases |names| - i
  {
    if i == |names| then net
    else JoinFrom(JoinOne(net, fd, names[i], if i < |keys| then keys[i] else ""), fd, names, keys, i + 1)
  }

  function DoJoin(net: Net, fd: int, params: seq<string>): Net
    requires fd in net.clients
  {
    if params == [] then net
    else JoinFrom(net, fd, Split(params[0], ','), if |params| > 1 then Split(params[1], ',') else [], 0)
  }

  /** Takes fd out of a channel it is in: the channel is erased when empty, else gets an operator. */
  ghost function Leave(net: Net, fd: int, name: string): (r: Net)
    requires fd in net.clients && name in net.channels
    ensures r.clients.Keys == net.clients.Keys
  {
    var c := net.clients[fd];
    var ch := net.channels[name].RemoveMember(fd);
    var left := SetClient(net, fd, c.(channels := c.channels - {name}));
    if ch.members == {} then left.(channels := net.channels - {name})
    else SetChannel(left, name, EnsureOperator(ch))
  }

  ghost function PartOne(net: Net, fd: int, name: string): (r: Net)
    requires fd in net.clients
    ensures r.clients.Keys == net.clients.Keys
  {
    if name !in net.channels || fd !in net.channels[name].members then net else Leave(net, fd, name)
  }

  ghost function PartFrom(net: Net, fd: int, names: seq<string>, i: nat): (r: Net)
    requires fd in net.clients && i <= |names|
    ensures r.clients.Keys == net.clients.Keys
    decreases |names| - i
  {
    if i == |names| then net else PartFrom(PartOne(net, fd, names[i]), fd, names, i + 1)
  }

  ghost function DoPart(net: Net, fd: int, params: seq<string>): Net
    requires fd in net.clients
  {
    if params == [] then net else PartFrom(net, fd, Split(params[0], ','), 0)
  }

  ghost function KickOne(net: Net, fd: int, name: string, nick: string): (r: Net)
    requires fd in net.clients
    ensures r.clients.Keys == net.clients.Keys
  {
    if name !in net.channels then net
    else
      var ch := net.channels[name];
      if fd !in ch.members || fd !in ch.operators then net
      else
        match FindByNick(net.clients, nick)
        case None => net
        case Some(target) => if target !in ch.members then net else Leave(net, target, name)
  }

  ghost function KickFrom(net: Net, fd: int, names: seq<string>, users: seq<string>, i: nat): (r: Net)
    requires fd in net.clients && i <= |names| && users != []
    ensures r.clients.Keys == net.clients.Keys
    decreases |names| - i
  {
    if i == |names| then net
    else KickFrom(KickOne(net, fd, names[i], if i < |users| then users[i] else users[0]), fd, names, users, i + 1)
  }

  ghost function DoKick(net: Net, fd: int, params: seq<string>): Net
    requires fd in net.clients
  {
    if |params| < 2 then net else KickFrom(net, fd, Split(params[0], ','), Split(params[1], ','), 0)
  }

  ghost function DoInvite(net: Net, fd: int, params: seq<string>): Net
    requires fd in net.clients
  {
    if |params| < 2 then net
    else
      match FindByNick(net.clients, params[0])
      case None => net
      case Some(target) =>
        var name := params[1];
        if name !in net.channels then net
        else
          var ch := net.channels[name];
          if fd !in ch.members || fd !in ch.operators || target in ch.members then net
          else SetChannel(net, name, ch.Invite(target))
  }

  function DoTopic(net: Net, fd: int, params: seq<string>): Net
    requires fd in net.clients
  {
    if |params| < 2 || params[0] !in net.channels then net
    else
      var ch := net.channels[params[0]];
      if fd !in ch.members || (ch.topicRestricted && fd !in ch.operators) then net
      else SetChannel(net, params[0], ch.(topic := params[1]))
  }

  ghost function Look(clients: map<int, Client>): Lookup {
    nick => FindByNick(clients, nick)
  }

  /** Whether MODE goes on to change the channel, after all its checks. */
  predicate ModeAllowed(net: Net, fd: int, params: seq<string>)
    requires fd in net.clients
  {
    && |params| >= 2 && params[0] != net.clients[fd].nick && IsChannelName(params[0]) && params[0] in net.channels
    && fd in net.channels[params[0]].members && fd in net.channels[params[0]].operators
  }

  ghost function ModeResult(net: Net, params: seq<string>): Mode
    requires |params| >= 2 && params[0] in net.channels
  {
    ModeLoop(Look(net.clients), params[2..], Start(net.channels[params[0]]), params[1])
  }

  ghost function DoMode(net: Net, fd: int, params: seq<string>): Net
    requires fd in net.clients
  {
    if !ModeAllowed(net, fd, params) then net else SetChannel(net, params[0], ModeResult(net, params).ch)
  }

  // Commands, lines and connections.

  predicate MayUse(c: Client, cmd: string) {
    cmd == "CAP" || c.registered || cmd in {"PASS", "NICK", "USER", "QUIT", "PING"}
  }

  ghost function Command(net: Net, fd: int, m: Message, password: string): (r: Net)
    requires fd in net.clients
    ensures r.clients.Keys == net.clients.Keys
  {
    if !MayUse(net.clients[fd], m.command) then net
    else if m.command == "PASS" then DoPass(net, fd, m.params, password)
    else if m.command == "NICK" then DoNick(net, fd, m.params)
    else if m.command == "USER" then DoUser(net, fd, m.params)
    else if m.command == "JOIN" then DoJoin(net, fd, m.params)
    else if m.command == "PART" then DoPart(net, fd, m.params)
    else if m.command == "QUIT" then DoQuit(net, fd)
    else if m.command == "KICK" then DoKick(net, fd, m.params)
    else if m.command == "INVITE" then DoInvite(net, fd, m.params)
    else if m.command == "TOPIC" then DoTopic(net, fd, m.params)
    else if m.command == "MODE" then DoMode(net, fd, m.params)
    else net
  }

  /** Each command by its name, once its client may use it. */
  lemma Dispatch(net: Net, fd: int, m: Message, password: string)
    requires fd in net.clients
    ensures net.clients[fd].registered || m.command in {"PASS", "NICK", "USER", "QUIT"} ==>
      MayUse(net.clients[fd], m.command)
    ensures var r := Command(net, fd, m, password);
      if !MayUse(net.clients[fd], m.command) then r == net
      else
        && (m.command == "PASS" ==> r == DoPass(net, fd, m.params, password))
        && (m.command == "NICK" ==> r == DoNick(net, fd, m.params))
        && (m.command == "USER" ==> r == DoUser(net, fd, m.params))
        && (m.command == "QUIT" ==> r == DoQuit(net, fd))
        && (m.command == "JOIN" ==> r == DoJoin(net, fd, m.params))
        && (m.command == "PART" ==> r == DoPart(net, fd, m.params))
        && (m.command == "KICK" ==> r == DoKick(net, fd, m.params))
        && (m.command == "TOPIC" ==> r == DoTopic(net, fd, m.params))
        && (m.command == "INVITE" ==> r == DoInvite(net, fd, m.params))
        && (m.command == "MODE" ==> r == DoMode(net, fd, m.params))
  {
    hide DoPass, DoNick, DoUser, DoJoin, DoPart, DoQuit, DoKick, DoInvite, DoTopic, DoMode;
  }

  /** A channel after fd has left it for good; None when that empties it. */
  ghost function Remains(ch: Channel, fd: int): Option<Channel> {
    if ch.RemoveMember(fd).members == {} then None else Some(EnsureOperator(ch.RemoveMember(fd)))
  }

  ghost function Close(net: Net, fd: int): Net {
    if fd !in net.clients then net
    else
      var joined := net.clients[fd].channels;
      Net(net.clients - {fd},
          map name | name in net.channels && (name in joined ==> Remains(net.channels[name], fd).Some?) ::
            if name in joined then Remains(net.channels[name], fd).value else net.channels[name])
  }

  datatype Event = Connect(fd: int, host: string) | LineIn(fd: int, line: string) | HangUp(fd: int)

  /** The system never hands out a descriptor still in use, nor reads from a closed one. */
  predicate Possible(net: Net, e: Event) {
    match e
    case Connect(fd, _) => fd !in net.clients
    case LineIn(fd, _) => fd in net.clients
    case HangUp(fd) => fd in net.clients
  }

  ghost function Happen(net: Net, e: Event, password: string): Net
    requires Possible(net, e)
  {
    match e
    case Connect(fd, host) => SetClient(net, fd, Client(fd, host, "", "", "", false, false, false, {}))
    case HangUp(fd) => Close(net, fd)
    case LineIn(fd, line) =>
      match Parse(line)
      case None => if net.clients[fd].closing then Close(net, fd) else net
      case Some(m) =>
        var next := Command(net, fd, m, password);
        if next.clients[fd].closing then Close(next, fd) else next
  }

  ghost predicate Reaches(net: Net, events: seq<Event>, password: string, end: Net)
    decreases events
  {
    if events == [] then end == net
    else Possible(net, events[0]) && Reaches(Happen(net, events[0], password), events[1..], password, end)
  }
}
