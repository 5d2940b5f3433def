/** The latest-value broadcast of src/ipc/unix_socket_server.cpp: every client is sent the newest
    message, unless it still has an older one unread. */
module UnixSocketServer {
  import opened Common

  /** What the kernel knows of a client's connection: all bytes ever taken for it, how many of them
      it has read, and, as a history, the versions that were sent in full. */
  datatype Socket = Socket(stream: string, taken: nat, sends: seq<nat>) {
    function Unread(): int { |stream| - taken }

    function TakeIn(n: nat): Socket {
      this.(taken := if taken + n <= |stream| then taken + n else |stream|)
    }
  }

  datatype Client = Client(sentVersion: nat, socket: Socket)

  datatype SendResult = Full | Blocks | Error | Short(n: nat)

  /** What a client does while a flush is at it: it reads some bytes first; then the kernel answers
      the ioctl and the send. */
  datatype Turn = Turn(read: nat, ioctlFails: bool, send: SendResult)

  /** `latest_version_` is the number of messages published, and `latest_` is the last of them. */
  datatype State = State(published: seq<string>, clients: map<int, Client>)

  function Latest(published: seq<string>): string {
    if published == [] then "" else published[|published| - 1]
  }

  /** SendLatest for one client. None: the client is dropped. */
  function SendLatest(latest: string, version: nat, c: Client, turn: Turn): Option<Client> {
    var socket := c.socket.TakeIn(turn.read);
    if version == 0 || c.sentVersion == version then Some(c.(socket := socket))
    else if turn.ioctlFails then None
    else if socket.Unread() > 0 then Some(c.(socket := socket))
    else match turn.send
      case Full => Some(Client(version, socket.(stream := socket.stream + latest, sends := socket.sends + [version])))
      case Blocks => Some(c.(socket := socket))
      case Error => None
      case Short(_) => None
  }

  datatype Event =
    | SetLatest(message: string)              // PublishLatest, up to the flush
    | Flush(turns: map<int, Turn>)
    | Accept(fd: int)
    | Read(fd: int, n: nat)
    | Leave(fd: int)

  function TurnOf(turns: map<int, Turn>, fd: int): Turn {
    if fd in turns then turns[fd] else Turn(0, false, Full)
  }

  function Flushed(s: State, turns: map<int, Turn>): map<int, Client> {
    map fd | fd in s.clients && SendLatest(Latest(s.published), |s.published|, s.clients[fd], TurnOf(turns, fd)).Some?
      :: SendLatest(Latest(s.published), |s.published|, s.clients[fd], TurnOf(turns, fd)).value
  }

  /** Each step is one section under the server's mutex, or a step of a client. */
  function Step(s: State, e: Event): State {
    match e
    case SetLatest(message) => s.(published := s.published + [message])
    case Flush(turns) => s.(clients := Flushed(s, turns))
    case Accept(fd) => if fd in s.clients then s else s.(clients := s.clients[fd := Client(0, Socket("", 0, []))])
    case Read(fd, n) =>
      if fd !in s.clients then s
      else s.(clients := s.clients[fd := s.clients[fd].(socket := s.clients[fd].socket.TakeIn(n))])
    case Leave(fd) => s.(clients := s.clients - {fd})
  }

  const INITIAL := State([], map[])

  /** The state after any interleaving of steps. */
  function Run(events: seq<Event>): State {
    if events == [] then INITIAL else Step(Run(events[..|events| - 1]), events[|events| - 1])
  }

  // ----- What a client gets -----

  predicate Increasing(versions: seq<nat>, last: nat) {
    && (forall i, j :: 0 <= i < j < |versions| ==> versions[i] < versions[j])
    && (forall i :: 0 <= i < |versions| ==> 1 <= versions[i] <= last)
  }

  /** The published messages of the given versions, one after the other. */
  function Spell(versions: seq<nat>, published: seq<string>): string {
    if versions == [] then "" else
      var v := versions[|versions| - 1];
      Spell(versions[..|versions| - 1], published) + if 1 <= v <= |published| then published[v - 1] else ""
  }

  function LastSent(c: Client, published: seq<string>): string {
    if 1 <= c.sentVersion <= |published| then published[c.sentVersion - 1] else ""
  }

  /** The bytes sent are whole published messages in strictly increasing order, the newest being
      `sentVersion`; and what is unread is the end of that one message. */
  ghost predicate WholeMessages(c: Client, published: seq<string>) {
    && Increasing(c.socket.sends, |published|)
    && c.sentVersion == (if c.socket.sends == [] then 0 else c.socket.sends[|c.socket.sends| - 1])
    && c.socket.stream == Spell(c.socket.sends, published)
    && c.socket.taken <= |c.socket.stream|
    && c.socket.Unread() <= |LastSent(c, published)|
  }

  ghost predicate Inv(s: State) {
    forall fd <- s.clients :: WholeMessages(s.clients[fd], s.published)
  }

  lemma {:induction false} SpellGrows(versions: seq<nat>, published: seq<string>, message: string)
    requires Increasing(versions, |published|)
    ensures Spell(versions, published + [message]) == Spell(versions, published)
  {
    if versions != [] {
      SpellGrows(versions[..|versions| - 1], published, message);
    }
  }

  lemma PublishKeeps(c: Client, published: seq<string>, message: string)
    requires WholeMessages(c, published)
    ensures WholeMessages(c, published + [message])
  {
    SpellGrows(c.socket.sends, published, message);
  }

  lemma SentInFull(socket: Socket, published: seq<string>)
    requires published != [] && socket.stream == Spell(socket.sends, published)
    ensures var version := |published|;
      socket.stream + Latest(published) == Spell(socket.sends + [version], published)
  {
    var sends := socket.sends + [|published|];
    assert sends[..|sends| - 1] == socket.sends;
  }

  lemma ReadKeeps(c: Client, published: seq<string>, n: nat)
    requires WholeMessages(c, published)
    ensures WholeMessages(c.(socket := c.socket.TakeIn(n)), published)
  {}

  lemma FullSendKeeps(c: Client, published: seq<string>)
    requires WholeMessages(c, published) && c.sentVersion < |published| && c.socket.Unread() == 0
    ensures var version := |published|;
      var sent := c.socket.(stream := c.socket.stream + Latest(published), sends := c.socket.sends + [version]);
      WholeMessages(Client(version, sent), published)
  {
    NewestLast(c.socket.sends, c.sentVersion, |published|);
    SentInFull(c.socket, published);
  }

  lemma NewestLast(sends: seq<nat>, last: nat, version: nat)
    requires Increasing(sends, version) && last < version
    requires last == if sends == [] then 0 else sends[|sends| - 1]
    ensures Increasing(sends + [version], version)
  {
    assert forall i :: 0 <= i < |sends| ==> sends[i] <= last;
  }

  lemma SendKeeps(c: Client, published: seq<string>, turn: Turn)
    requires WholeMessages(c, published)
    ensures var r := SendLatest(Latest(published), |published|, c, turn);
      r.Some? ==> WholeMessages(r.value, published)
  {
    var r := SendLatest(Latest(published), |published|, c, turn);
    var t := c.(socket := c.socket.TakeIn(turn.read));
    ReadKeeps(c, published, turn.read);
    if r.Some? && r.value != t {
      FullSendKeeps(t, published);
    }
  }

  lemma FlushKeepsInv(s: State, turns: map<int, Turn>)
    requires Inv(s)
    ensures Inv(Step(s, Flush(turns)))
  {
    forall fd | fd in Flushed(s, turns) ensures WholeMessages(Flushed(s, turns)[fd], s.published) {
      SendKeeps(s.clients[fd], s.published, TurnOf(turns, fd));
    }
  }

  lemma StepKeepsInv(s: State, e: Event)
    requires Inv(s)
    ensures Inv(Step(s, e))
  {
    match e
    case SetLatest(message) =>
      forall fd | fd in s.clients ensures WholeMessages(s.clients[fd], s.published + [message]) {
        PublishKeeps(s.clients[fd], s.published, message);
      }
    case Flush(turns) => FlushKeepsInv(s, turns);
    case Read(fd, n) => if fd in s.clients { ReadKeeps(s.clients[fd], s.published, n); }
    case _ =>
  }

  /** However publishes, accepts, flushes and reads interleave, every registered client has been
      sent whole messages in increasing order, and has at most one of them unread. */
  lemma {:induction false} ClientsGetWholeMessages(events: seq<Event>, fd: int)
    requires fd in Run(events).clients
    ensures WholeMessages(Run(events).clients[fd], Run(events).published)
  {
    RunInv(events);
  }

  lemma {:induction false} RunInv(events: seq<Event>)
    ensures Inv(Run(events))
  {
    if events != [] {
      RunInv(events[..|events| - 1]);
      StepKeepsInv(Run(events[..|events| - 1]), events[|events| - 1]);
    }
  }

  lemma {:induction false} SpellEndsWithLast(versions: seq<nat>, published: seq<string>)
    requires versions != []
    ensures var v := versions[|versions| - 1];
      var last := if 1 <= v <= |published| then published[v - 1] else "";
      && |last| <= |Spell(versions, published)|
      && Spell(versions, published)[|Spell(versions, published)| - |last|..] == last
  {}

  ghost predicate UnreadIsTailOf(socket: Socket, newest: string) {
    && 0 <= socket.taken <= |socket.stream|
    && |socket.stream| - socket.taken <= |newest|
    && socket.stream[socket.taken..] == newest[|newest| - (|socket.stream| - socket.taken)..]
  }

  /** What a client has yet to read is the end of the newest message it was sent: it never has to
      read through an outdated one first. */
  lemma {:induction false} UnreadIsTheNewest(events: seq<Event>, fd: int)
    requires fd in Run(events).clients
    ensures var c := Run(events).clients[fd];
      UnreadIsTailOf(c.socket, LastSent(c, Run(events).published))
  {
    RunInv(events);
    UnreadOfClient(Run(events).clients[fd], Run(events).published);
  }

  lemma StreamEndsWithLast(c: Client, published: seq<string>)
    requires WholeMessages(c, published)
    ensures var stream, newest := c.socket.stream, LastSent(c, published);
      |newest| <= |stream| && stream[|stream| - |newest|..] == newest
  {
    if c.socket.sends != [] { SpellEndsWithLast(c.socket.sends, published); }
  }

  lemma UnreadOfClient(c: Client, published: seq<string>)
    requires WholeMessages(c, published)
    ensures UnreadIsTailOf(c.socket, LastSent(c, published))
  {
    StreamEndsWithLast(c, published);
    TailOfTail(c.socket.stream, LastSent(c, published), c.socket.taken);
  }

  lemma TailOfTail(stream: string, newest: string, taken: nat)
    requires |newest| <= |stream| && stream[|stream| - |newest|..] == newest
    requires taken <= |stream| <= taken + |newest|
    ensures stream[taken..] == newest[|newest| - (|stream| - taken)..]
  {
    var from := |stream| - |newest|;
    assert stream[from..][taken - from..] == stream[taken..];
  }

  /** Whom a flush drops, and whom it leaves behind. */
  lemma FlushOutcome(s: State, turns: map<int, Turn>, fd: int)
    requires Inv(s) && fd in s.clients
    ensures var t := Step(s, Flush(turns));
      var turn, before := TurnOf(turns, fd), s.clients[fd];
      var unread := before.socket.TakeIn(turn.read).Unread();
      var behind := before.sentVersion < |s.published|;
      && (fd !in t.clients <==>
            behind && (turn.ioctlFails || (unread == 0 && (turn.send.Error? || turn.send.Short?))))
      && (fd in t.clients ==>
            (t.clients[fd].sentVersion < |s.published| <==> behind && (unread > 0 || turn.send.Blocks?)))
      && (fd in t.clients && unread > 0 ==> t.clients[fd] == before.(socket := before.socket.TakeIn(turn.read)))
  {
    assert WholeMessages(s.clients[fd], s.published);
  }

  /** The newest message that was sent to the client is the latest of all. */
  predicate HasLatest(c: Client, published: seq<string>) {
    c.sentVersion == |published| && LastSent(c, published) == Latest(published)
  }

  /** The client is in the middle of an older message, which is all it has to read. */
  ghost predicate ReadsOlder(c: Client, published: seq<string>) {
    && c.sentVersion < |published|
    && c.socket.taken < |c.socket.stream|
    && UnreadIsTailOf(c.socket, LastSent(c, published))
  }

  lemma IsUpToDate(c: Client, published: seq<string>)
    requires WholeMessages(c, published) && c.sentVersion == |published|
    ensures HasLatest(c, published)
  {}

  /** What one turn leaves a client with. */
  lemma SendLeaves(c: Client, published: seq<string>, turn: Turn)
    requires WholeMessages(c, published)
    ensures var r := SendLatest(Latest(published), |published|, c, turn);
      r.Some? ==> HasLatest(r.value, published) || ReadsOlder(r.value, published) || turn.send.Blocks?
  {
    var r := SendLatest(Latest(published), |published|, c, turn);
    SendKeeps(c, published, turn);
    if r.Some? {
      if r.value.sentVersion == |published| {
        IsUpToDate(r.value, published);
      } else if r.value.socket.Unread() > 0 {
        SentSomething(r.value, published);
        UnreadOfClient(r.value, published);
      }
    }
  }

  lemma SentSomething(c: Client, published: seq<string>)
    requires WholeMessages(c, published)
    ensures c.sentVersion <= |published|
  {}

  /** However things went before, right after a flush each client that is still registered has been
      sent the latest message, or is still reading an older one, or its send would have blocked. */
  lemma {:induction false} FlushReachesEveryone(events: seq<Event>, turns: map<int, Turn>, fd: int)
    requires fd in Run(events + [Flush(turns)]).clients
    ensures var t := Run(events + [Flush(turns)]);
      var c := t.clients[fd];
      HasLatest(c, t.published) || ReadsOlder(c, t.published) || TurnOf(turns, fd).send.Blocks?
  {
    var all := events + [Flush(turns)];
    assert all[..|events|] == events && Run(all) == Step(Run(events), Flush(turns));
    RunInv(events);
    var s := Run(events);
    SendLeaves(s.clients[fd], s.published, TurnOf(turns, fd));
  }

  /** A client that was passed over because of an unread message stays behind, whatever it reads
      and whatever is published, until the next flush. */
  lemma {:induction false} OnlyAFlushCatchesUp(s: State, later: seq<Event>, fd: int)
    requires fd in s.clients
    requires forall e <- later :: !e.Flush? && e != Leave(fd)
    ensures var t := RunFrom(s, later);
      && fd in t.clients && t.clients[fd].sentVersion == s.clients[fd].sentVersion
      && t.clients[fd].socket.stream == s.clients[fd].socket.stream
  {
    if later != [] {
      assert later[|later| - 1] in later;
      OnlyAFlushCatchesUp(s, later[..|later| - 1], fd);
    }
  }

  function RunFrom(s: State, events: seq<Event>): State {
    if events == [] then s else Step(RunFrom(s, events[..|events| - 1]), events[|events| - 1])
  }

  // ----- What is published, and to whom, in terms of the events -----

  /** The messages of these events, in order. */
  function MessagesOf(events: seq<Event>): seq<string> {
    if events == [] then [] else
      var last := events[|events| - 1];
      MessagesOf(events[..|events| - 1]) + if last.SetLatest? then [last.message] else []
  }

  /** Every message that was ever handed to the server is a version of its own, in order, and nothing
      else is. */
  lemma {:induction false} PublishedIsWhatWasSet(events: seq<Event>)
    ensures Run(events).published == MessagesOf(events)
  {
    if events != [] {
      PublishedIsWhatWasSet(events[..|events| - 1]);
    }
  }

  /** A flush in state `s` drops a client that has not got the latest message: if nothing can be
      learnt of it, or if it has read everything and yet cannot be sent a whole message. */
  predicate Drops(s: State, turns: map<int, Turn>, fd: int) {
    && fd in s.clients && s.clients[fd].sentVersion != |s.published| && s.published != []
    && var turn := TurnOf(turns, fd);
       var socket := s.clients[fd].socket;
       turn.ioctlFails || (|socket.stream| <= socket.taken + turn.read && (turn.send.Error? || turn.send.Short?))
  }

  /** The descriptor was accepted, and has neither left nor been dropped by a flush since. */
  predicate Registered(events: seq<Event>, fd: int) {
    events != [] &&
      var front, last := events[..|events| - 1], events[|events| - 1];
      || last == Accept(fd)
      || (Registered(front, fd) && last != Leave(fd) && !(last.Flush? && Drops(Run(front), last.turns, fd)))
  }

  lemma {:induction false} RegisteredIff(events: seq<Event>, fd: int)
    ensures fd in Run(events).clients <==> Registered(events, fd)
  {
    if events != [] {
      var front, last := events[..|events| - 1], events[|events| - 1];
      RegisteredIff(front, fd);
      RunInv(front);
      if last.Flush? && fd in Run(front).clients {
        DroppedIff(Run(front), last.turns, fd);
      }
    }
  }

  lemma DroppedIff(s: State, turns: map<int, Turn>, fd: int)
    requires Inv(s) && fd in s.clients
    ensures fd !in Flushed(s, turns) <==> Drops(s, turns, fd)
  {
    assert WholeMessages(s.clients[fd], s.published);
  }

  /** A client that has just been accepted has been sent nothing. */
  lemma AcceptedStartsEmpty(events: seq<Event>, fd: int)
    requires !Registered(events, fd)
    ensures var c := Run(events + [Accept(fd)]).clients; fd in c && c[fd] == Client(0, Socket("", 0, []))
  {
    RegisteredIff(events, fd);
    assert (events + [Accept(fd)])[..|events|] == events;
  }

  // ----- The server -----

  function FlushedOne(s: State, turns: map<int, Turn>, fd: int): Option<Client>
    requires fd in s.clients
  {
    SendLatest(Latest(s.published), |s.published|, s.clients[fd], TurnOf(turns, fd))
  }

  /** The clients when those in `todo` have not had their turn yet. */
  function HalfFlushed(s: State, turns: map<int, Turn>, todo: set<int>): map<int, Client> {
    map fd | fd in s.clients && (fd in todo || FlushedOne(s, turns, fd).Some?)
      :: if fd in todo then s.clients[fd] else FlushedOne(s, turns, fd).value
  }

  lemma AllToDo(s: State, turns: map<int, Turn>)
    ensures HalfFlushed(s, turns, s.clients.Keys) == s.clients
  {}

  lemma NothingToDo(s: State, turns: map<int, Turn>)
    ensures HalfFlushed(s, turns, {}) == Flushed(s, turns)
  {}

  lemma OneMoreFlushed(s: State, turns: map<int, Turn>, todo: set<int>, fd: int,
                       was: map<int, Client>, now: map<int, Client>)
    requires fd in todo && fd in s.clients && was == HalfFlushed(s, turns, todo)
    requires var r := FlushedOne(s, turns, fd);
      if r.Some? then now == was[fd := r.value]
      else now.Keys == was.Keys - {fd} && forall other <- now :: now[other] == was[other]
    ensures now == HalfFlushed(s, turns, todo - {fd})
  {
    var next := HalfFlushed(s, turns, todo - {fd});
    forall other ensures other in now <==> other in next {
      assert other in was <==> other in s.clients && (other in todo || FlushedOne(s, turns, other).Some?);
    }
    forall other | other in now ensures now[other] == next[other] {
      assert other != fd ==> was[other] == now[other];
    }
  }

  class UnixSocketServer {
    var latest: string
    var latestVersion: nat
    var clients: map<int, Client>
    ghost var published: seq<string>

    ghost predicate Valid() reads this { latestVersion == |published| && latest == Latest(published) }

    ghost function View(): State reads this { State(published, clients) }

    constructor ()
      ensures Valid() && View() == INITIAL
    {
      latest, latestVersion, clients, published := "", 0, map[], [];
    }

    /** SendLatest. A client that is kept still gets whole messages in order, and has the latest
        unless an older one is unread or the send would have blocked. */
    method TrySend(fd: int, turn: Turn) returns (ok: bool)
      requires Valid() && fd in clients
      modifies this`clients
      ensures var r := SendLatest(latest, latestVersion, old(clients[fd]), turn);
        ok == r.Some? && (ok ==> clients == old(clients)[fd := r.value])
      ensures !ok ==> clients.Keys == old(clients.Keys)
      ensures !ok ==> forall other <- clients :: other != fd ==> clients[other] == old(clients[other])
      ensures ok && WholeMessages(old(clients[fd]), published) ==>
        WholeMessages(clients[fd], published)
        && (clients[fd].sentVersion == latestVersion || clients[fd].socket.Unread() > 0 || turn.send.Blocks?)
    {
      if WholeMessages(clients[fd], published) { SendKeeps(clients[fd], published, turn); }
      var client := clients[fd];
      client := client.(socket := client.socket.TakeIn(turn.read));
      clients := clients[fd := client];
      if latestVersion == 0 || client.sentVersion == latestVersion {
        return true;
      }
      if turn.ioctlFails {
        return false;
      }
      if client.socket.Unread() > 0 {
        return true;
      }
      match turn.send
      case Full =>
        var stream, sends := client.socket.stream + latest, client.socket.sends + [latestVersion];
        var socket := client.socket.(stream := stream, sends := sends);
        clients := clients[fd := Client(latestVersion, socket)];
        return true;
      case Blocks => return true;
      case Error => return false;
      case Short(_) => return false;
    }

    /** SendToAll with SendLatest: visits every client once and erases those it failed for. */
    method FlushLatest(turns: map<int, Turn>) returns (stale: set<int>)
      requires Valid()
      modifies this`clients
      ensures Valid() && View() == Step(old(View()), Flush(turns))
      ensures stale == old(clients.Keys) - clients.Keys
    {
      stale := {};
      var todo := clients.Keys;
      ghost var before := View();
      AllToDo(before, turns);
      while todo != {}
        invariant todo <= before.clients.Keys
        invariant clients == HalfFlushed(before, turns, todo)
        invariant stale == before.clients.Keys - clients.Keys
        decreases |todo|
      {
        if forall fd :: fd !in todo { assert false; }
        var fd :| fd in todo;
        var ok := Visit(fd, turns, before, todo);
        if !ok {
          stale := stale + {fd};
        }
        todo := todo - {fd};
      }
      NothingToDo(before, turns);
    }

    /** One client's turn. */
    method Visit(fd: int, turns: map<int, Turn>, ghost before: State, ghost todo: set<int>) returns (ok: bool)
      requires Valid() && before.published == published
      requires fd in todo && fd in before.clients && clients == HalfFlushed(before, turns, todo)
      modifies this`clients
      ensures clients == HalfFlushed(before, turns, todo - {fd})
      ensures clients.Keys == old(clients.Keys) - (if ok then {} else {fd})
    {
      ghost var was := clients;
      ok := TrySend(fd, TurnOf(turns, fd));
      if !ok {
        clients := clients - {fd};
      }
      OneMoreFlushed(before, turns, todo, fd, was, clients);
    }

    method PublishLatest(message: string, turns: map<int, Turn>) returns (stale: set<int>)
      requires Valid()
      modifies this
      ensures Valid() && View() == Step(Step(old(View()), SetLatest(message)), Flush(turns))
      ensures latest == message && latestVersion == old(latestVersion) + 1 && published == old(published) + [message]
      ensures stale == old(clients.Keys) - clients.Keys
    {
      latest := message;
      latestVersion := latestVersion + 1;
      published := published + [message];
      stale := FlushLatest(turns);
    }

    /** One round of AcceptLoop. */
    method AcceptClient(fd: int, turns: map<int, Turn>)
      requires Valid() && fd !in clients
      modifies this`clients
      ensures Valid() && View() == Step(Step(old(View()), Accept(fd)), Flush(turns))
    {
      clients := clients[fd := Client(0, Socket("", 0, []))];
      var _ := FlushLatest(turns);
    }

    /** The end of HandleClient. */
    method RemoveClient(fd: int)
      requires Valid()
      modifies this`clients
      ensures Valid() && View() == Step(old(View()), Leave(fd))
    {
      clients := clients - {fd};
    }
  }
}
