/** The Cloudflare publisher (src/signaling/cloudflare_service.cpp) as an event-driven state
    machine: the service's fields, and around them everything that may still call back into it. */
module CloudflareProtocol {
  import opened Common

  const CONNECT_TIMEOUT_SEC: int := 20
  const PEER_DOWN_GRACE_SEC: int := 10

  /** A WebSocketClient as this service sees it. */
  datatype SocketState = Opening | Open | Closing | Finished {
    predicate Live() { Opening? || Open? }
  }

  /** An asio timer: whether a wait is in progress, and how many waits have expired whose handlers
      have not run yet. Those can no longer be cancelled. */
  datatype Timer = Timer(armed: bool, fired: nat) {
    function Arm(): Timer { Timer(true, fired) }
    function Cancel(): Timer { Timer(false, fired) }
    function Expire(): Timer { Timer(false, fired + 1) }
    function Run(): Timer
      requires fired > 0
    {
      Timer(armed, fired - 1)
    }
    function Count(): nat { (if armed then 1 else 0) + fired }
  }

  /** The same, for waits that remember the publication they were started for. */
  datatype TaggedTimer = TaggedTimer(armed: Option<nat>, fired: multiset<nat>) {
    function Arm(tag: nat): TaggedTimer { TaggedTimer(Some(tag), fired) }
    function Cancel(): TaggedTimer { TaggedTimer(None, fired) }
    function Expire(): TaggedTimer
      requires armed.Some?
    {
      TaggedTimer(None, fired + multiset{armed.value})
    }
    function Run(tag: nat): TaggedTimer { TaggedTimer(armed, fired - multiset{tag}) }
    predicate Pending(tag: nat) { armed == Some(tag) || tag in fired }
    ghost predicate UpTo(bound: nat) {
      (armed.Some? ==> armed.value <= bound) && forall tag <- fired :: tag <= bound
    }
  }

  const IDLE: Timer := Timer(false, 0)
  const TAGGED_IDLE: TaggedTimer := TaggedTimer(None, multiset{})

  datatype PeerState = Connected | Failed | Closed | OtherState
  datatype Peer = Peer(connected: bool, expired: bool)

  /** A lambda handed to the io_context by the signaling thread. */
  datatype Posted =
    | OfferReady(publication: nat, hasTracks: bool)
    | VoiceAnswer(publication: nat)
    | StateChanged(publication: nat, state: PeerState)

  datatype Message =
    | Joined(sleeping: bool)
    | Wake(created: bool)     // whether creating the PeerConnection succeeds
    | Answer(generation: nat)
    | Sleep
    | OfferError(stale: bool) // about an offer, other than NO_DATA_CHANNELS
    | OtherMessage            // changes nothing the model records

  // ----- Connection to the worker -----

  const MIN_RECONNECT_DELAY_SEC: nat := 1
  const MAX_RECONNECT_DELAY_SEC: nat := 30

  function PowerOfTwo(n: nat): nat { if n == 0 then 1 else 2 * PowerOfTwo(n - 1) }

  /** How many seconds a reconnect waits after so many failures before it, without the jitter. */
  function ReconnectDelay(retryCount: nat): nat {
    var delay := MIN_RECONNECT_DELAY_SEC * PowerOfTwo(if retryCount < 5 then retryCount else 5);
    if delay < MAX_RECONNECT_DELAY_SEC then delay else MAX_RECONNECT_DELAY_SEC
  }

  /** The fields that make and keep the connection, the token requests that will still be replied
      to, and the sockets by the connection they were opened for. */
  datatype Link = Link(
    stopped: bool, reconnectPending: bool, retryCount: nat, connection: nat, socket: Option<nat>,
    reconnectTimer: Timer, tokens: set<nat>, sockets: map<nat, SocketState>)
  {
    function StartConnection(): Link {
      if stopped then this
      else this.(reconnectPending := false, connection := connection + 1, tokens := tokens + {connection + 1})
    }

    /** Closing a socket that has not opened yet finishes it at once. */
    function DropSocket(): Link {
      if socket.None? || socket.value !in sockets then this.(socket := None)
      else if sockets[socket.value].Open? then
        this.(socket := None, sockets := sockets[socket.value := Closing])
      else if sockets[socket.value].Opening? then
        this.(socket := None, sockets := sockets[socket.value := Finished])
      else this.(socket := None)
    }

    function ScheduleReconnect(): Link {
      if stopped || reconnectPending then this else
        var d := DropSocket();
        d.(reconnectPending := true, connection := connection + 1, retryCount := retryCount + 1,
           reconnectTimer := reconnectTimer.Arm())
    }

    function OnTokenReply(c: nat, ok: bool): Link {
      var t := this.(tokens := tokens - {c});
      if stopped || c != connection then t
      else if !ok then t.ScheduleReconnect()
      else t.(socket := Some(c), sockets := sockets[c := Opening])
    }

    /** `takenOver`: the close code says that another connection uses this device's id. */
    function OnSocketClosed(takenOver: bool): Link {
      this.(socket := None, retryCount := if takenOver && retryCount < 4 then 4 else retryCount)
          .ScheduleReconnect()
    }

    function Disconnect(): Link {
      this.(stopped := true, connection := connection + 1, reconnectTimer := reconnectTimer.Cancel())
          .DropSocket()
    }

    predicate CanSend() {
      socket.Some? && socket.value in sockets && sockets[socket.value].Open?
    }
  }

  // ----- Publishing -----

  /** The fields that make and keep a publication. `readyOn` records the connection that last
      carried `ready` for it. */
  datatype Publisher = Publisher(
    hasConductor: bool, publishing: bool, generation: nat, offerSent: bool, readySent: bool,
    peerWasConnected: bool, peerDownSince: int, publication: nat, peer: Option<Peer>,
    retryTimer: Timer, healthTimer: TaggedTimer, readyOn: Option<nat>)
  {
    function StopPublishing(): Publisher {
      this.(publication := publication + 1, healthTimer := healthTimer.Cancel(),
            retryTimer := retryTimer.Cancel(), peer := None, generation := 0, offerSent := false,
            readySent := false, readyOn := None, peerWasConnected := false, peerDownSince := 0)
    }

    /** StopPublishing, and the worker no longer wants this device to publish. */
    function Rest(): Publisher { StopPublishing().(publishing := false) }

    function RetryPublishing(): Publisher {
      if !publishing then this else
        var t := StopPublishing();
        t.(retryTimer := t.retryTimer.Arm())
    }

    function StartPublishing(created: bool): Publisher {
      var t := StopPublishing();
      if !hasConductor then t
      else if !created then t.RetryPublishing()
      else t.(peer := Some(Peer(false, false)), healthTimer := t.healthTimer.Arm(t.publication))
    }

    function OnWake(created: bool): Publisher {
      this.(publishing := true).StartPublishing(created)
    }

    /** `on` is the connection that can carry the message, if any can. */
    function SendReady(on: Option<nat>): Publisher {
      this.(readySent := true, readyOn := if on.Some? then on else readyOn)
    }

    function OnJoined(sleeping: bool, on: Option<nat>): Publisher {
      if !publishing then this
      else if sleeping then Rest()
      else if peer.Some? && peer.value.connected then SendReady(on)
      else this
    }

    function OnPeerState(state: PeerState, on: Option<nat>): Publisher {
      if state.Connected? then
        var t := this.(peerWasConnected := true, peerDownSince := 0);
        if readySent then t else t.SendReady(on)
      else if state.Failed? then RetryPublishing()
      else this
    }

    function OnRetryTimer(created: bool): Publisher {
      if !publishing then this else StartPublishing(created)
    }

    function OnHealthTimer(tag: nat, now: int): Publisher {
      if tag != publication then this
      else if peer.None? || peer.value.expired then RetryPublishing()
      else if peer.value.connected then
        this.(peerWasConnected := true, peerDownSince := 0, healthTimer := healthTimer.Arm(tag))
      else
        var since := if peerDownSince == 0 then now else peerDownSince;
        var limit := if peerWasConnected then PEER_DOWN_GRACE_SEC else CONNECT_TIMEOUT_SEC;
        if now - since >= limit then this.(peerDownSince := since).RetryPublishing()
        else this.(peerDownSince := since, healthTimer := healthTimer.Arm(tag))
    }
  }

  // ----- The whole service -----

  /** What has been said on the current connection: whether `joined` was handled, and the
      publications of the offers that have no reply yet, oldest first. */
  datatype Talk = Talk(joined: bool, outstanding: seq<nat>)

  /** `lastOffer` is the publication of the last offer sent on any connection, and `posted` the
      queue of the io_context. */
  datatype State = State(link: Link, pub: Publisher, unanswered: int, talk: Talk,
                         lastOffer: Option<nat>, posted: seq<Posted>)
  {
    /** What was said on a connection ends with it. */
    function WithLink(next: Link): State {
      this.(link := next, talk := if next.connection == link.connection then talk else Talk(false, []))
    }

    /** The connection that can carry a message now. */
    function Carrier(): Option<nat> { if link.CanSend() then link.socket else None }

    predicate Joined() { talk.joined }

    /** The reply to the oldest offer on this connection that had none. */
    function TakeReply(): State {
      this.(unanswered := if unanswered > 0 then unanswered - 1 else 0,
            talk := talk.(outstanding := if talk.outstanding == [] then [] else talk.outstanding[1..]))
    }

    /** Whether OnAnswer hands the answer to the peer rather than ignoring it. */
    predicate AppliesAnswer() {
      pub.peer.Some? && pub.offerSent && TakeReply().unanswered == 0
    }

    function OnJoined(sleeping: bool): State {
      this.(link := link.(retryCount := 0), unanswered := 0, talk := talk.(joined := true),
            pub := pub.OnJoined(sleeping, Carrier()))
    }

    function OnAnswer(generation: nat): State {
      if AppliesAnswer() then TakeReply().(pub := pub.(generation := generation)) else TakeReply()
    }

    function OnOfferError(stale: bool): State {
      var t := TakeReply();
      if !pub.offerSent || t.unanswered > 0 then t
      else t.(pub := if stale then pub.Rest() else pub.RetryPublishing())
    }

    function OnMessage(m: Message): State {
      match m
      case Joined(sleeping) => OnJoined(sleeping)
      case Wake(created) => this.(pub := pub.OnWake(created))
      case Answer(generation) => OnAnswer(generation)
      case Sleep => this.(pub := pub.Rest())
      case OfferError(stale) => OnOfferError(stale)
      case OtherMessage => this
    }

    function SendOffer(): State {
      if !link.CanSend() then this
      else this.(unanswered := unanswered + 1, pub := pub.(offerSent := true),
                 talk := talk.(outstanding := talk.outstanding + [pub.publication]),
                 lastOffer := Some(pub.publication))
    }

    function OnPosted(p: Posted): State {
      if link.stopped || p.publication != pub.publication then this else
      match p
      case OfferReady(_, hasTracks) =>
        if hasTracks then SendOffer() else this.(pub := pub.RetryPublishing())
      case VoiceAnswer(_) => this
      case StateChanged(_, state) => this.(pub := pub.OnPeerState(state, Carrier()))
    }

    function OnSocketClosed(takenOver: bool): State {
      WithLink(link.OnSocketClosed(takenOver)).(pub := if takenOver then pub.Rest() else pub)
    }

    function Disconnect(): State {
      WithLink(link.Disconnect()).(pub := pub.Rest())
    }
  }

  // ----- Runs -----

  datatype Event =
    | Stop
    | TokenReply(connection: nat, ok: bool)
    | SocketOpens(connection: nat)
    | MessageArrives(connection: nat, message: Message)
    | SocketCloses(connection: nat, takenOver: bool)
    | ReconnectExpires | ReconnectRuns
    | RetryExpires | RetryRuns(created: bool)
    | HealthExpires | HealthRuns(publication: nat, now: int)
    | PeerReports(state: PeerState)   // the signaling thread updates the peer and posts the state
    | PeerPosts(item: Posted)         // the signaling thread posts something else, or too late
    | PostedRuns

  /** What the environment can do: complete what is pending, in any order. The worker is assumed to
      reply only to offers, and in order; nothing is assumed about when it sends anything else. */
  predicate Enabled(s: State, e: Event) {
    match e
    case Stop => true
    case TokenReply(c, _) => c in s.link.tokens
    case SocketOpens(c) => c in s.link.sockets && s.link.sockets[c].Opening?
    case MessageArrives(c, m) =>
      && c in s.link.sockets && (s.link.sockets[c].Open? || s.link.sockets[c].Closing?)
      && ((m.Answer? || m.OfferError?) && c == s.link.connection ==> s.talk.outstanding != [])
    case SocketCloses(c, _) => c in s.link.sockets && !s.link.sockets[c].Finished?
    case ReconnectExpires => s.link.reconnectTimer.armed
    case ReconnectRuns => s.link.reconnectTimer.fired > 0
    case RetryExpires => s.pub.retryTimer.armed
    case RetryRuns(_) => s.pub.retryTimer.fired > 0
    case HealthExpires => s.pub.healthTimer.armed.Some?
    case HealthRuns(p, _) => p in s.pub.healthTimer.fired
    case PeerReports(_) => s.pub.peer.Some? && !s.pub.peer.value.expired
    case PeerPosts(item) =>
      || item.publication < s.pub.publication
      || (s.pub.peer.Some? && item.publication == s.pub.publication && !item.StateChanged?)
    case PostedRuns => s.posted != []
  }

  function Reported(peer: Peer, state: PeerState): Peer {
    match state
    case Connected => peer.(connected := true)
    case Failed => peer.(connected := false)
    case Closed => Peer(false, true)
    case OtherState => peer
  }

  function Step(s: State, e: Event): State
    requires Enabled(s, e)
  {
    match e
    case Stop => s.Disconnect()
    case TokenReply(c, ok) => s.WithLink(s.link.OnTokenReply(c, ok))
    case SocketOpens(c) => s.(link := s.link.(sockets := s.link.sockets[c := Open]))
    case MessageArrives(c, m) => if s.link.stopped || c != s.link.connection then s else s.OnMessage(m)
    case SocketCloses(c, takenOver) =>
      var t := s.(link := s.link.(sockets := s.link.sockets[c := Finished]));
      if s.link.stopped || c != s.link.connection then t else t.OnSocketClosed(takenOver)
    case ReconnectExpires => s.(link := s.link.(reconnectTimer := s.link.reconnectTimer.Expire()))
    case ReconnectRuns =>
      s.WithLink(s.link.(reconnectTimer := s.link.reconnectTimer.Run()).StartConnection())
    case RetryExpires => s.(pub := s.pub.(retryTimer := s.pub.retryTimer.Expire()))
    case RetryRuns(created) =>
      var p := s.pub.(retryTimer := s.pub.retryTimer.Run());
      s.(pub := if s.link.stopped then p else p.OnRetryTimer(created))
    case HealthExpires => s.(pub := s.pub.(healthTimer := s.pub.healthTimer.Expire()))
    case HealthRuns(tag, now) =>
      var p := s.pub.(healthTimer := s.pub.healthTimer.Run(tag));
      s.(pub := if s.link.stopped then p else p.OnHealthTimer(tag, now))
    case PeerReports(state) =>
      s.(pub := s.pub.(peer := Some(Reported(s.pub.peer.value, state))),
         posted := s.posted + [StateChanged(s.pub.publication, state)])
    case PeerPosts(item) => s.(posted := s.posted + [item])
    case PostedRuns => s.(posted := s.posted[1..]).OnPosted(s.posted[0])
  }

  /** The service as constructed, before Connect. */
  function Constructed(hasConductor: bool): State {
    State(Link(false, false, 0, 0, None, IDLE, {}, map[]),
          Publisher(hasConductor, false, 0, false, false, false, 0, 0, None, IDLE,
                    TAGGED_IDLE, None),
          0, Talk(false, []), None, [])
  }

  function Started(hasConductor: bool): State {
    var s := Constructed(hasConductor);
    s.WithLink(s.link.StartConnection())
  }

  ghost predicate IsRun(hasConductor: bool, states: seq<State>, events: seq<Event>) {
    && |states| == |events| + 1
    && states[0] == Started(hasConductor)
    && forall i :: 0 <= i < |events| ==>
         Enabled(states[i], events[i]) && states[i + 1] == Step(states[i], events[i])
  }

  // ----- One connection at a time -----

  function Indicator(b: bool): nat { if b then 1 else 0 }

  /** The current connection epoch has exactly one thing under way: a token request, a live socket
      or the reconnect timer. No other socket is live, and once stopped none is. */
  ghost predicate OneConnection(l: Link) {
    && (!l.stopped ==>
         Indicator(l.connection in l.tokens) + Indicator(l.socket.Some?) + l.reconnectTimer.Count() == 1)
    && (l.socket.Some? ==> l.socket.value == l.connection && l.connection in l.sockets)
    && (forall c <- l.sockets :: l.sockets[c].Live() <==> l.socket == Some(c))
    && (l.stopped ==> l.socket.None?)
  }

  /** What OneConnection needs to be inductive. */
  ghost predicate LinkInv(l: Link) {
    && OneConnection(l)
    && (!l.stopped ==> (l.reconnectPending <==> l.reconnectTimer.Count() == 1))
    && (!l.stopped && l.connection in l.sockets ==> l.socket.Some?)
    && (forall c <- l.tokens :: c <= l.connection && c !in l.sockets)
    && (forall c <- l.sockets :: c <= l.connection)
  }

  /** A connection between two attempts: nothing is under way that belongs to a later one. */
  ghost predicate Loose(l: Link) {
    && l.reconnectTimer == IDLE
    && (forall c <- l.tokens :: c <= l.connection && c !in l.sockets)
    && (forall c <- l.sockets :: c <= l.connection && (l.sockets[c].Live() <==> l.socket == Some(c)))
  }

  lemma ScheduleReconnectKeepsInv(l: Link)
    requires !l.stopped && !l.reconnectPending && Loose(l)
    ensures LinkInv(l.ScheduleReconnect())
  {}

  lemma StartConnectionKeepsInv(l: Link)
    requires !l.stopped && l.socket.None? && Loose(l)
    ensures LinkInv(l.StartConnection())
  {}

  lemma TokenReplyKeepsInv(l: Link, c: nat, ok: bool)
    requires LinkInv(l) && c in l.tokens
    ensures LinkInv(l.OnTokenReply(c, ok))
  {
    if !l.stopped && c == l.connection && !ok {
      ScheduleReconnectKeepsInv(l.(tokens := l.tokens - {c}));
    }
  }

  lemma SocketClosesKeepsInv(l: Link, c: nat, takenOver: bool)
    requires LinkInv(l) && c in l.sockets && !l.sockets[c].Finished?
    ensures var t := l.(sockets := l.sockets[c := Finished]);
      LinkInv(if l.stopped || c != l.connection then t else t.OnSocketClosed(takenOver))
  {
    if !l.stopped && c == l.connection {
      var t := l.(sockets := l.sockets[c := Finished], socket := None);
      ScheduleReconnectKeepsInv(t.(retryCount := if takenOver && l.retryCount < 4 then 4 else l.retryCount));
    }
  }

  /** Publishing does not touch the connection. */
  lemma MessageKeepsLink(s: State, m: Message)
    ensures s.OnMessage(m).link == s.link.(retryCount := s.OnMessage(m).link.retryCount)
  {}

  lemma LinkInvStep(s: State, e: Event)
    requires LinkInv(s.link) && Enabled(s, e)
    ensures LinkInv(Step(s, e).link)
  {
    match e
    case TokenReply(c, ok) => TokenReplyKeepsInv(s.link, c, ok);
    case SocketCloses(c, takenOver) => SocketClosesKeepsInv(s.link, c, takenOver);
    case MessageArrives(c, m) => MessageKeepsLink(s, m);
    case _ =>
  }

  // ----- Publishing cannot silently stop -----

  /** While the worker wants this device to publish, a peer is watched by the health timer, or
      the retry timer will make a new one. */
  ghost predicate KeepsPublishing(p: Publisher) {
    p.publishing ==>
      if p.peer.Some? then p.healthTimer.Pending(p.publication) else p.retryTimer.Count() > 0
  }

  ghost predicate PubInv(p: Publisher) {
    && (p.peer.Some? ==> p.publishing && p.hasConductor)
    && (if p.hasConductor then KeepsPublishing(p)
        else p.retryTimer == IDLE && p.healthTimer == TAGGED_IDLE)
    && (p.offerSent ==> p.peer.Some?)
    && p.healthTimer.UpTo(p.publication)
  }

  lemma StartKeepsInv(p: Publisher, created: bool)
    requires p.publishing && p.healthTimer.UpTo(p.publication)
    requires p.hasConductor || (p.retryTimer == IDLE && p.healthTimer == TAGGED_IDLE)
    ensures PubInv(p.StartPublishing(created))
  {}

  lemma HealthKeepsInv(p: Publisher, tag: nat, now: int)
    requires PubInv(p) && tag in p.healthTimer.fired
    ensures PubInv(p.(healthTimer := p.healthTimer.Run(tag)).OnHealthTimer(tag, now))
  {
    var q := p.(healthTimer := p.healthTimer.Run(tag));
    assert q.healthTimer.UpTo(p.publication);
    if tag != p.publication {
      assert p.healthTimer.Pending(p.publication) ==> q.healthTimer.Pending(p.publication);
    } else if q.peer.Some? {
      WatchKeepsInv(q, now);
    }
  }

  /** The current publication's health check either goes on watching the peer or starts over. */
  lemma WatchKeepsInv(p: Publisher, now: int)
    requires p.peer.Some? && p.publishing && p.hasConductor && p.healthTimer.UpTo(p.publication)
    ensures PubInv(p.OnHealthTimer(p.publication, now))
  {
    var since := if p.peerDownSince == 0 then now else p.peerDownSince;
    assert PubInv(p.RetryPublishing());
    assert PubInv(p.(peerDownSince := since).RetryPublishing());
  }

  /** A wake starts something that lasts if and only if the service has a conductor. */
  lemma WakePublishesIffConductor(p: Publisher, created: bool)
    requires PubInv(p)
    ensures KeepsPublishing(p.OnWake(created)) <==> p.hasConductor
  {
    StartKeepsInv(p.(publishing := true), created);
  }

  lemma PeerStateKeepsInv(p: Publisher, state: PeerState, on: Option<nat>)
    requires PubInv(p)
    ensures p.peer.Some? ==> PubInv(p.OnPeerState(state, on))
  {}

  lemma OfferErrorKeepsInv(s: State, stale: bool)
    requires PubInv(s.pub)
    ensures PubInv(s.OnOfferError(stale).pub)
  {}

  /** The queue of the io_context: nothing is posted for a publication that has no peer yet. */
  ghost predicate QueueInv(posted: seq<Posted>, p: Publisher) {
    forall item <- posted :: item.publication <= p.publication
                         && (item.publication == p.publication ==> p.peer.Some?)
  }

  lemma PostedKeepsInv(s: State)
    requires PubInv(s.pub) && QueueInv(s.posted, s.pub) && s.posted != []
    ensures PubInv(Step(s, PostedRuns).pub)
  {
    assert s.posted[0] in s.posted;
    if s.posted[0].publication == s.pub.publication && s.posted[0].StateChanged? {
      PeerStateKeepsInv(s.pub, s.posted[0].state, s.Carrier());
    }
  }

  lemma MessageKeepsPubInv(s: State, m: Message)
    requires PubInv(s.pub)
    ensures PubInv(s.OnMessage(m).pub)
  {
    match m
    case Wake(created) => StartKeepsInv(s.pub.(publishing := true), created);
    case OfferError(stale) => OfferErrorKeepsInv(s, stale);
    case _ =>
  }

  lemma RestKeepsInv(p: Publisher)
    requires PubInv(p)
    ensures PubInv(p.Rest())
  {}

  lemma ExpiryKeepsInv(p: Publisher)
    requires PubInv(p)
    ensures p.retryTimer.armed ==> PubInv(p.(retryTimer := p.retryTimer.Expire()))
    ensures p.healthTimer.armed.Some? ==> PubInv(p.(healthTimer := p.healthTimer.Expire()))
  {}

  lemma RetryKeepsInv(p: Publisher, created: bool)
    requires PubInv(p) && p.retryTimer.fired > 0
    ensures var q := p.(retryTimer := p.retryTimer.Run());
      (p.publishing ==> PubInv(q.OnRetryTimer(created))) && (!p.publishing ==> PubInv(q))
  {
    if p.publishing { StartKeepsInv(p.(retryTimer := p.retryTimer.Run()), created); }
  }

  lemma PubInvStep(s: State, e: Event)
    requires PubInv(s.pub) && QueueInv(s.posted, s.pub) && Enabled(s, e)
    requires s.link.stopped ==> !s.pub.publishing
    ensures PubInv(Step(s, e).pub)
  {
    match e
    case MessageArrives(_, m) => MessageKeepsPubInv(s, m);
    case RetryExpires => ExpiryKeepsInv(s.pub);
    case HealthExpires => ExpiryKeepsInv(s.pub);
    case RetryRuns(created) => RetryKeepsInv(s.pub, created);
    case HealthRuns(tag, now) => HealthKeepsInv(s.pub, tag, now);
    case PostedRuns => PostedKeepsInv(s);
    case _ => RestKeepsInv(s.pub);
  }

  // ----- What one publication remembers -----

  /** A publication that has sent nothing yet. */
  predicate Fresh(p: Publisher) {
    && !p.offerSent && !p.readySent && p.readyOn.None?
    && (p.peer.Some? ==> p.peer.value == Peer(false, false))
  }

  /** From `p` to `t`, either nothing that concerns the current publication has changed, or a new
      one has begun. */
  predicate Moved(p: Publisher, t: Publisher) {
    && t.hasConductor == p.hasConductor
    && (|| (t.publication > p.publication && Fresh(t))
        || (t.publication == p.publication && t.peer == p.peer && t.offerSent == p.offerSent
            && t.readySent == p.readySent && t.readyOn == p.readyOn))
  }

  lemma MessageMoves(s: State, m: Message)
    ensures !m.Joined? ==> Moved(s.pub, s.OnMessage(m).pub)
  {}

  lemma TimersMove(p: Publisher, tag: nat, now: int, created: bool)
    ensures Moved(p, p.OnHealthTimer(tag, now)) && Moved(p, p.OnRetryTimer(created))
  {}

  predicate OnlyMoves(e: Event) {
    !e.PeerReports? && !e.PostedRuns? && !(e.MessageArrives? && e.message.Joined?)
  }

  lemma RestMoves(s: State, e: Event)
    requires Enabled(s, e) && (e.Stop? || e.SocketCloses?)
    ensures Moved(s.pub, Step(s, e).pub)
  {
    assert Moved(s.pub, s.pub.Rest());
  }

  lemma QueueStays(s: State, e: Event)
    requires Enabled(s, e) && !e.PeerReports? && !e.PostedRuns?
    ensures Step(s, e).posted == if e.PeerPosts? then s.posted + [e.item] else s.posted
  {}

  /** The steps that only move the publisher. */
  lemma MostStepsMove(s: State, e: Event)
    requires Enabled(s, e) && OnlyMoves(e)
    ensures Moved(s.pub, Step(s, e).pub)
    ensures Step(s, e).posted == if e.PeerPosts? then s.posted + [e.item] else s.posted
  {
    QueueStays(s, e);
    if e.MessageArrives? {
      MessageMoves(s, e.message);
    } else if e.Stop? || e.SocketCloses? {
      RestMoves(s, e);
    } else if e.RetryRuns? {
      TimersMove(s.pub.(retryTimer := s.pub.retryTimer.Run()), 0, 0, e.created);
    } else if e.HealthRuns? {
      TimersMove(s.pub.(healthTimer := s.pub.healthTimer.Run(e.publication)), e.publication, e.now, true);
    } else {
      TimersOnly(s, e);
    }
  }

  lemma TimersOnly(s: State, e: Event)
    requires Enabled(s, e) && OnlyMoves(e)
    requires !e.MessageArrives? && !e.Stop? && !e.SocketCloses? && !e.RetryRuns? && !e.HealthRuns?
    ensures var t := Step(s, e).pub;
      t.(retryTimer := s.pub.retryTimer, healthTimer := s.pub.healthTimer) == s.pub
  {}

  lemma QueueInvPosted(s: State)
    requires QueueInv(s.posted, s.pub) && s.posted != []
    ensures QueueInv(Step(s, PostedRuns).posted, Step(s, PostedRuns).pub)
  {
    var t := Step(s, PostedRuns);
    assert t.posted == s.posted[1..];
    assert t.pub.publication > s.pub.publication
        || (t.pub.publication == s.pub.publication && t.pub.peer == s.pub.peer);
    assert forall item <- t.posted :: item in s.posted;
  }

  lemma QueueInvJoined(s: State, sleeping: bool)
    requires QueueInv(s.posted, s.pub)
    ensures QueueInv(s.OnJoined(sleeping).posted, s.OnJoined(sleeping).pub)
  {
    var t := s.OnJoined(sleeping);
    assert t.pub.publication > s.pub.publication
        || (t.pub.publication == s.pub.publication && t.pub.peer == s.pub.peer);
  }

  lemma QueueInvStep(s: State, e: Event)
    requires PubInv(s.pub) && QueueInv(s.posted, s.pub) && Enabled(s, e)
    ensures QueueInv(Step(s, e).posted, Step(s, e).pub)
  {
    if !e.PeerReports? && !e.PostedRuns? && !(e.MessageArrives? && e.message.Joined?) {
      MostStepsMove(s, e);
    } else if e.PostedRuns? {
      QueueInvPosted(s);
    } else if e.MessageArrives? {
      QueueInvJoined(s, e.message.sleeping);
    }
  }

  // ----- `ready` -----

  /** The last connection state of this publication's peer that is still in the queue. */
  function LastReport(posted: seq<Posted>, publication: nat): Option<PeerState> {
    if posted == [] then None else
      var last := posted[|posted| - 1];
      if last.StateChanged? && last.publication == publication && !last.state.OtherState?
      then Some(last.state) else LastReport(posted[..|posted| - 1], publication)
  }

  lemma {:induction false} LastReportIsQueued(posted: seq<Posted>, publication: nat)
    ensures var last := LastReport(posted, publication);
      if last.Some? then StateChanged(publication, last.value) in posted && !last.value.OtherState?
      else forall item <- posted :: item.StateChanged? && item.publication == publication
                               ==> item.state.OtherState?
  {
    if posted != [] {
      LastReportIsQueued(posted[..|posted| - 1], publication);
      assert posted == posted[..|posted| - 1] + [posted[|posted| - 1]];
    }
  }

  lemma {:induction false} LastReportAfterPop(posted: seq<Posted>, publication: nat)
    requires posted != []
    ensures var last := LastReport(posted[1..], publication);
      last.Some? ==> last == LastReport(posted, publication)
  {
    if |posted| > 1 {
      var front := posted[..|posted| - 1];
      assert front[1..] == posted[1..][..|posted| - 2];
      LastReportAfterPop(front, publication);
    }
  }

  predicate Queued(s: State, state: PeerState) {
    StateChanged(s.pub.publication, state) in s.posted
  }

  /** `ready` for this publication was sent on the current connection. */
  predicate ReadyHere(s: State) { s.pub.readyOn == Some(s.link.connection) }

  /** On a joined connection the worker has heard that a connected peer is ready, or is about to. */
  predicate WorkerKnowsReady(s: State) {
    s.talk.joined && s.pub.peer.Some? && s.pub.peer.value.connected ==>
      ReadyHere(s) || Queued(s, PeerState.Connected)
  }

  predicate PeerInv(s: State, peer: Peer, last: Option<PeerState>) {
    && (last.Some? ==> (peer.connected <==> last.value.Connected?))
    && (last == Some(Closed) ==> peer.expired)
    && (s.pub.readySent && !peer.connected && !peer.expired ==> Queued(s, Failed))
    && (s.pub.readySent && s.talk.joined && peer.connected && !ReadyHere(s) ==> Queued(s, Failed))
  }

  ghost predicate ReadyInv(s: State) {
    && (s.talk.joined ==> s.Carrier() == Some(s.link.connection))
    && WorkerKnowsReady(s)
    && (s.pub.peer.Some? ==>
         PeerInv(s, s.pub.peer.value, LastReport(s.posted, s.pub.publication)))
  }

  /** The link changes, but the connection that was joined stays usable or is given up. */
  lemma JoinedStaysUsable(s: State, e: Event)
    requires LinkInv(s.link) && Enabled(s, e)
    requires s.talk.joined ==> s.Carrier() == Some(s.link.connection)
    ensures var t := Step(s, e);
      t.talk.joined ==> t.Carrier() == Some(t.link.connection)
    ensures Step(s, e).talk.joined ==> Step(s, e).link.connection == s.link.connection
    ensures !(e.MessageArrives? && e.message.Joined?) ==> (Step(s, e).talk.joined ==> s.talk.joined)
  {
    match e
    case MessageArrives(c, m) => MessageKeepsLink(s, m);
    case _ =>
  }

  lemma ReadyInvMoved(s: State, t: State)
    requires ReadyInv(s) && QueueInv(s.posted, s.pub) && Moved(s.pub, t.pub)
    requires t.posted == s.posted
      || (t.posted != [] && t.posted[..|t.posted| - 1] == s.posted
          && var item := t.posted[|t.posted| - 1];
             item.publication < s.pub.publication || !item.StateChanged?)
    requires t.talk.joined ==> t.Carrier() == Some(t.link.connection)
    requires t.talk.joined ==> s.talk.joined && t.link.connection == s.link.connection
    ensures ReadyInv(t)
  {
    if t.pub.peer.Some? {
      if t.pub.publication > s.pub.publication {
        LastReportIsQueued(t.posted, t.pub.publication);
        LastReportIsQueued(s.posted, t.pub.publication);
      } else {
        assert forall item <- s.posted :: item in t.posted;
      }
    }
  }

  lemma ReadyInvReport(s: State, state: PeerState)
    requires ReadyInv(s) && Enabled(s, PeerReports(state))
    ensures ReadyInv(Step(s, PeerReports(state)))
  {
    var t := Step(s, PeerReports(state));
    assert t.posted[..|t.posted| - 1] == s.posted;
    assert t.posted[|t.posted| - 1] == StateChanged(s.pub.publication, state);
    assert forall item <- s.posted :: item in t.posted;
  }

  lemma ReadyInvJoined(s: State, sleeping: bool)
    requires LinkInv(s.link) && PubInv(s.pub) && ReadyInv(s) && QueueInv(s.posted, s.pub)
    requires !s.link.stopped && Enabled(s, MessageArrives(s.link.connection, Joined(sleeping)))
    ensures ReadyInv(s.OnJoined(sleeping))
  {
    assert s.Carrier() == Some(s.link.connection);
    LastReportIsQueued(s.posted, s.pub.publication + 1);
  }

  /** Taking the front off the queue keeps what it says about this publication, except that the
      front itself is gone. */
  lemma PopKeepsReports(s: State, t: State)
    requires s.posted != [] && t.posted == s.posted[1..] && t.pub.publication == s.pub.publication
    ensures forall state :: Queued(t, state) ==> Queued(s, state)
    ensures forall state :: Queued(s, state) && s.posted[0] != StateChanged(s.pub.publication, state)
                        ==> Queued(t, state)
    ensures var last := LastReport(t.posted, t.pub.publication);
      && (last.Some? ==> last == LastReport(s.posted, s.pub.publication) && Queued(t, last.value))
      && (last.None? ==> forall state :: Queued(t, state) ==> state.OtherState?)
    ensures var last := LastReport(s.posted, s.pub.publication);
      && (last.Some? ==> Queued(s, last.value) && !last.value.OtherState?)
      && (last.None? ==> forall state :: Queued(s, state) ==> state.OtherState?)
  {
    assert s.posted == [s.posted[0]] + t.posted;
    LastReportIsQueued(s.posted, s.pub.publication);
    LastReportIsQueued(t.posted, t.pub.publication);
    LastReportAfterPop(s.posted, s.pub.publication);
  }

  lemma ReadyInvConnected(s: State)
    requires ReadyInv(s) && s.posted != [] && !s.link.stopped && s.pub.peer.Some?
    requires s.posted[0] == StateChanged(s.pub.publication, PeerState.Connected)
    ensures ReadyInv(Step(s, PostedRuns))
  {
    var t := Step(s, PostedRuns);
    PopKeepsReports(s, t);
    var peer := s.pub.peer.value;
    assert Queued(s, PeerState.Connected);
    assert LastReport(s.posted, s.pub.publication).Some?;
    if peer.connected {
      if t.talk.joined && !ReadyHere(t) {
        assert s.pub.readySent && Queued(t, Failed);
      }
    } else if !peer.expired {
      assert LastReport(s.posted, s.pub.publication) == Some(Failed);
    }
  }

  lemma ReadyInvPosted(s: State)
    requires PubInv(s.pub) && ReadyInv(s) && QueueInv(s.posted, s.pub)
    requires s.link.stopped ==> s.pub.peer.None?
    requires s.posted != []
    ensures ReadyInv(Step(s, PostedRuns))
  {
    var front := s.posted[0];
    var t := Step(s, PostedRuns);
    assert front in s.posted;
    if t.pub.publication == s.pub.publication {
      if !s.link.stopped && front == StateChanged(s.pub.publication, PeerState.Connected) {
        ReadyInvConnected(s);
      } else {
        PopKeepsReports(s, t);
      }
    } else {
      assert t.pub == s.pub.RetryPublishing();
    }
  }

  lemma ReadyInvStep(s: State, e: Event)
    requires LinkInv(s.link) && PubInv(s.pub) && ReadyInv(s) && QueueInv(s.posted, s.pub)
    requires s.link.stopped ==> s.pub.peer.None?
    requires Enabled(s, e)
    ensures ReadyInv(Step(s, e))
  {
    if e.PeerReports? {
      ReadyInvReport(s, e.state);
    } else if e.PostedRuns? {
      ReadyInvPosted(s);
    } else if e.MessageArrives? && e.message.Joined? {
      if !s.link.stopped && e.connection == s.link.connection {
        ReadyInvJoined(s, e.message.sleeping);
      }
    } else {
      MostStepsMove(s, e);
      JoinedStaysUsable(s, e);
      ReadyInvMoved(s, Step(s, e));
    }
  }

  // ----- Offers and their replies -----

  ghost predicate ReplyInv(s: State) {
    && s.unanswered >= 0
    && (s.pub.offerSent <==> s.lastOffer == Some(s.pub.publication))
    && (s.lastOffer.Some? ==> s.lastOffer.value <= s.pub.publication)
    && (s.talk.outstanding != [] ==>
         s.lastOffer == Some(s.talk.outstanding[|s.talk.outstanding| - 1]))
  }

  /** Once `joined` was handled, the service's counter is the number of replies still to come. */
  predicate Counted(s: State) { s.talk.joined ==> s.unanswered == |s.talk.outstanding| }

  /** This event makes the service handle `joined` while a reply is still to come. */
  predicate JoinedLate(s: State, e: Event) {
    && e.MessageArrives? && e.message.Joined? && !s.link.stopped && e.connection == s.link.connection
    && s.talk.outstanding != []
  }

  lemma ReplyInvMoved(s: State, t: State)
    requires ReplyInv(s) && Moved(s.pub, t.pub)
    requires t.unanswered == s.unanswered && t.lastOffer == s.lastOffer
    requires t.talk.outstanding == [] || t.talk.outstanding == s.talk.outstanding
    ensures ReplyInv(t)
  {}

  /** What the steps other than messages and posted lambdas leave alone. */
  lemma QuietSteps(s: State, e: Event)
    requires Enabled(s, e) && !e.MessageArrives? && !e.PostedRuns?
    ensures var t := Step(s, e);
      t.unanswered == s.unanswered && t.lastOffer == s.lastOffer && t.talk in {s.talk, Talk(false, [])}
  {}

  lemma ReplyMessage(s: State, m: Message)
    requires ReplyInv(s) && (m.Answer? || m.OfferError? ==> s.talk.outstanding != [])
    ensures ReplyInv(s.OnMessage(m))
    ensures Counted(s) ==> (Counted(s.OnMessage(m)) <==> !m.Joined? || s.talk.outstanding == [])
  {
    match m
    case OfferError(stale) => ReplyInvMoved(s.TakeReply(), s.OnOfferError(stale));
    case _ =>
  }

  lemma ReplyPosted(s: State)
    requires ReplyInv(s) && s.posted != []
    ensures ReplyInv(Step(s, PostedRuns))
    ensures Counted(s) ==> Counted(Step(s, PostedRuns))
  {}

  /** In any step the count stays right unless `joined` is handled late, and then it never does. */
  lemma ReplyInvStep(s: State, e: Event)
    requires ReplyInv(s) && Enabled(s, e)
    ensures ReplyInv(Step(s, e))
    ensures Counted(s) ==> (Counted(Step(s, e)) <==> !JoinedLate(s, e))
  {
    match e
    case MessageArrives(_, m) =>
      if !s.link.stopped && e.connection == s.link.connection {
        ReplyMessage(s, m);
      }
    case PostedRuns => ReplyPosted(s);
    case PeerReports(_) =>
    case _ =>
      MostStepsMove(s, e);
      QuietSteps(s, e);
      ReplyInvMoved(s, Step(s, e));
  }

  /** While the count is right, an answer reaches the peer if and only if it replies to the newest
      offer on the connection and that offer belongs to the current publication. */
  lemma AnswerAppliedIffCurrent(s: State)
    requires PubInv(s.pub) && ReplyInv(s) && Counted(s) && s.talk.joined && s.talk.outstanding != []
    ensures s.AppliesAnswer() <==> |s.talk.outstanding| == 1 && s.talk.outstanding[0] == s.pub.publication
  {}

  /** When `joined` does come late, the very next offer makes the service take the reply to an
      older offer for the reply to the new one. */
  lemma LateJoinedMisleads(s: State)
    requires PubInv(s.pub) && ReplyInv(s) && s.talk.outstanding != []
    requires s.pub.peer.Some? && s.link.CanSend()
    ensures var t := s.OnJoined(false).SendOffer();
      t.AppliesAnswer() && |t.talk.outstanding| > 1
  {}

  // ----- All runs -----

  ghost predicate Inv(s: State) {
    && LinkInv(s.link) && PubInv(s.pub) && QueueInv(s.posted, s.pub)
    && ReadyInv(s) && ReplyInv(s)
    && (s.link.stopped ==> s.pub.peer.None? && !s.pub.publishing)
  }

  lemma StoppedStaysQuiet(s: State, e: Event)
    requires Enabled(s, e) && PubInv(s.pub)
    requires s.link.stopped ==> s.pub.peer.None? && !s.pub.publishing
    ensures Step(s, e).link.stopped ==> Step(s, e).pub.peer.None? && !Step(s, e).pub.publishing
    ensures s.link.stopped ==> Step(s, e).link.stopped
  {
    if e.MessageArrives? {
      MessageKeepsLink(s, e.message);
    }
  }

  lemma ConductorStays(s: State, e: Event)
    requires Enabled(s, e)
    ensures Step(s, e).pub.hasConductor == s.pub.hasConductor
  {
    if !e.PeerReports? && !e.PostedRuns? && !(e.MessageArrives? && e.message.Joined?) {
      MostStepsMove(s, e);
    }
  }

  /** Every step keeps all that is known of the service. */
  lemma InvStep(s: State, e: Event)
    requires Inv(s) && Enabled(s, e)
    ensures Inv(Step(s, e))
  {
    LinkInvStep(s, e);
    PubInvStep(s, e);
    QueueInvStep(s, e);
    ReadyInvStep(s, e);
    ReplyInvStep(s, e);
    StoppedStaysQuiet(s, e);
  }

  /** After Disconnect nothing is live any more. */
  lemma StopEndsAll(s: State)
    requires Inv(s)
    ensures var t := Step(s, Stop);
      && Inv(t) && t.link.stopped && t.pub.peer.None? && !t.pub.publishing
      && forall c <- t.link.sockets :: !t.link.sockets[c].Live()
  {
    InvStep(s, Stop);
  }

  lemma {:induction false} RunInv(hasConductor: bool, states: seq<State>, events: seq<Event>, i: nat)
    requires IsRun(hasConductor, states, events) && i < |states|
    ensures Inv(states[i]) && states[i].pub.hasConductor == hasConductor
  {
    if i > 0 {
      RunInv(hasConductor, states, events, i - 1);
      var s, e := states[i - 1], events[i - 1];
      assert Enabled(s, e) && states[i] == Step(s, e);
      InvStep(s, e);
      ConductorStays(s, e);
    }
  }

  /** In every run the service has exactly one connection under way and at most one live socket,
      whatever stale callbacks are still queued; once stopped it has none. */
  lemma AlwaysOneConnection(hasConductor: bool, states: seq<State>, events: seq<Event>, i: nat)
    requires IsRun(hasConductor, states, events) && i < |states|
    ensures OneConnection(states[i].link)
  {
    RunInv(hasConductor, states, events, i);
  }

  /** In every run of a service with a conductor, publishing goes on for as long as it is wanted,
      and there is a peer only while it is wanted. */
  lemma PublishingGoesOn(states: seq<State>, events: seq<Event>, i: nat)
    requires IsRun(true, states, events) && i < |states|
    ensures KeepsPublishing(states[i].pub)
    ensures states[i].pub.peer.Some? ==> states[i].pub.publishing
    ensures states[i].link.stopped ==> states[i].pub.peer.None?
  {
    RunInv(true, states, events, i);
  }

  /** In every run, across any drops and rejoins, the worker has heard `ready` on its current
      connection from a connected peer, or the event that sends it is queued. */
  lemma ReadyIsHeard(hasConductor: bool, states: seq<State>, events: seq<Event>, i: nat)
    requires IsRun(hasConductor, states, events) && i < |states|
    ensures WorkerKnowsReady(states[i])
  {
    RunInv(hasConductor, states, events, i);
  }

  /** A run counts replies right at every moment if and only if it never handles `joined` while a
      reply is still to come on that connection. */
  lemma RepliesCountedIff(hasConductor: bool, states: seq<State>, events: seq<Event>)
    requires IsRun(hasConductor, states, events)
    ensures (forall i :: 0 <= i < |states| ==> Counted(states[i]))
       <==> (forall i :: 0 <= i < |events| ==> !JoinedLate(states[i], events[i]))
  {
    if forall i :: 0 <= i < |states| ==> Counted(states[i]) {
      forall i | 0 <= i < |events| ensures !JoinedLate(states[i], events[i]) {
        RunInv(hasConductor, states, events, i);
        assert Enabled(states[i], events[i]) && states[i + 1] == Step(states[i], events[i]);
        ReplyInvStep(states[i], events[i]);
        assert Counted(states[i + 1]);
      }
    }
    if forall i :: 0 <= i < |events| ==> !JoinedLate(states[i], events[i]) {
      forall i | 0 <= i < |states| ensures Counted(states[i]) {
        CountedSoFar(hasConductor, states, events, i);
      }
    }
  }

  lemma {:induction false} CountedSoFar(hasConductor: bool, states: seq<State>, events: seq<Event>, i: nat)
    requires IsRun(hasConductor, states, events) && i < |states|
    requires forall j :: 0 <= j < |events| ==> !JoinedLate(states[j], events[j])
    ensures Counted(states[i])
  {
    if i > 0 {
      CountedSoFar(hasConductor, states, events, i - 1);
      RunInv(hasConductor, states, events, i - 1);
      assert Enabled(states[i - 1], events[i - 1]) && states[i] == Step(states[i - 1], events[i - 1]);
      ReplyInvStep(states[i - 1], events[i - 1]);
    }
  }

  /** The service never counts too few replies, even before `joined`. */
  predicate EnoughCounted(s: State) { s.unanswered >= |s.talk.outstanding| }

  lemma EnoughCountedStep(s: State, e: Event)
    requires EnoughCounted(s) && Enabled(s, e) && !JoinedLate(s, e)
    ensures EnoughCounted(Step(s, e))
  {
    if e.MessageArrives? {
      if !s.link.stopped && e.connection == s.link.connection { EnoughCountedMessage(s, e.message); }
    } else if e.PostedRuns? {
      EnoughCountedPosted(s);
    } else {
      QuietSteps(s, e);
    }
  }

  lemma EnoughCountedMessage(s: State, m: Message)
    requires EnoughCounted(s)
    requires m.Joined? ==> s.talk.outstanding == []
    requires m.Answer? || m.OfferError? ==> s.talk.outstanding != []
    ensures EnoughCounted(s.OnMessage(m))
  {}

  lemma EnoughCountedPosted(s: State)
    requires EnoughCounted(s) && s.posted != []
    ensures EnoughCounted(Step(s, PostedRuns))
  {}

  lemma {:induction false} EnoughSoFar(hasConductor: bool, states: seq<State>, events: seq<Event>, i: nat)
    requires IsRun(hasConductor, states, events) && i < |states|
    requires forall j :: 0 <= j < |events| ==> !JoinedLate(states[j], events[j])
    ensures EnoughCounted(states[i])
  {
    if i > 0 {
      EnoughSoFar(hasConductor, states, events, i - 1);
      EnoughCountedStep(states[i - 1], events[i - 1]);
    }
  }

  /** Too high a count may cost an answer, but never misapplies one. */
  lemma AnswerAppliedOnlyIfCurrent(s: State)
    requires ReplyInv(s) && EnoughCounted(s) && s.talk.outstanding != []
    ensures s.AppliesAnswer() ==> |s.talk.outstanding| == 1 && s.talk.outstanding[0] == s.pub.publication
  {}

  /** In every such run, an answer reaches the peer only if it replies to the newest offer on the
      connection and that offer belongs to the current publication; and once `joined` was handled,
      if and only if it does. */
  lemma AnswersReachTheRightPeer(hasConductor: bool, states: seq<State>, events: seq<Event>, i: nat)
    requires IsRun(hasConductor, states, events) && i < |events|
    requires forall j :: 0 <= j < |events| ==> !JoinedLate(states[j], events[j])
    requires events[i].MessageArrives? && events[i].message.Answer?
    requires events[i].connection == states[i].link.connection
    ensures var offers, applied := states[i].talk.outstanding, states[i].AppliesAnswer();
      var current := |offers| == 1 && offers[0] == states[i].pub.publication;
      && offers != [] && (applied ==> current) && (states[i].talk.joined && current ==> applied)
  {
    RunInv(hasConductor, states, events, i);
    CountedSoFar(hasConductor, states, events, i);
    EnoughSoFar(hasConductor, states, events, i);
    assert Enabled(states[i], events[i]);
    AnswerAppliedOnlyIfCurrent(states[i]);
    if states[i].talk.joined { AnswerAppliedIffCurrent(states[i]); }
  }

  // ----- A run that handles `joined` late -----

  /** `states` follows from `s` by these events. */
  ghost predicate Follows(s: State, states: seq<State>, events: seq<Event>) {
    && |states| == |events| + 1 && states[0] == s
    && forall i :: 0 <= i < |events| ==> Enabled(states[i], events[i]) && states[i + 1] == Step(states[i], events[i])
  }

  lemma OneStep(s: State, states: seq<State>, events: seq<Event>, e: Event) returns (more: seq<State>, now: seq<Event>)
    requires Follows(s, states, events) && Enabled(states[|events|], e)
    ensures Follows(s, more, now) && now == events + [e]
    ensures more == states + [Step(states[|events|], e)]
  {
    more, now := states + [Step(states[|events|], e)], events + [e];
  }

  /** A device on its first connection, in this publication, with these offers not replied to. */
  predicate Publishes(s: State, joined: bool, publication: nat, offers: seq<nat>) {
    && s.link.connection == 1 && !s.link.stopped && s.link.socket == Some(1) && s.link.sockets == map[1 := Open]
    && s.pub.hasConductor && s.pub.publishing && s.pub.publication == publication
    && s.pub.peer == Some(Peer(false, false))
    && s.talk == Talk(joined, offers) && s.posted == []
  }

  /** It sends an offer. */
  lemma Offers(s: State, states: seq<State>, events: seq<Event>, joined: bool, publication: nat, offers: seq<nat>)
    returns (more: seq<State>, now: seq<Event>)
    requires Follows(s, states, events) && Publishes(states[|events|], joined, publication, offers)
    ensures Follows(s, more, now) && |now| == |events| + 2 && more[..|states|] == states && now[..|events|] == events
    ensures var before, t := states[|events|], more[|now|];
      && Publishes(t, joined, publication, offers + [publication])
      && t.pub.offerSent && t.unanswered == before.unanswered + 1
  {
    var offer := OfferReady(publication, true);
    more, now := OneStep(s, states, events, PeerPosts(offer));
    more, now := OneStep(s, more, now, PostedRuns);
  }

  /** A device is woken before `joined` comes. */
  lemma WokenTooSoon() returns (states: seq<State>, events: seq<Event>)
    ensures |events| == 3 && Follows(Started(true), states, events)
    ensures Publishes(states[3], false, 1, []) && states[3].unanswered == 0
  {
    var s := Started(true);
    states, events := [s], [];
    states, events := OneStep(s, states, events, TokenReply(1, true));
    states, events := OneStep(s, states, events, SocketOpens(1));
    states, events := OneStep(s, states, events, MessageArrives(1, Wake(true)));
  }

  /** There is a run that handles `joined` late and, after one more wake and offer, applies the
      answer to the first publication's offer to the peer of the second. */
  lemma LateJoinedHappens() returns (states: seq<State>, events: seq<Event>)
    ensures IsRun(true, states, events) && |events| == 9
    ensures JoinedLate(states[5], events[5])
    ensures var s := states[9];
      && s.talk.joined && s.talk.outstanding == [1, 2] && s.pub.publication == 2
      && Enabled(s, MessageArrives(1, Answer(1))) && s.AppliesAnswer()
  {
    var s := Started(true);
    states, events := WokenTooSoon();
    states, events := Offers(s, states, events, false, 1, []);
    states, events := OneStep(s, states, events, MessageArrives(1, Joined(false)));
    states, events := OneStep(s, states, events, MessageArrives(1, Wake(true)));
    var six := states;
    states, events := Offers(s, states, events, true, 2, [1]);
    assert states[5] == six[5];
  }
}
