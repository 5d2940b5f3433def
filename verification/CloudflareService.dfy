/** The handlers of the Cloudflare publisher, updating the service's state step by step as the
    source does. Each event handler is proved to take the protocol's step and to keep what every run
    relies on; each of their parts, to keep or bring about its share of it. The fields that make the
    connection and those that make the publication are kept in one record each. */
module CloudflareService {
  import opened Common
  import opened CloudflareProtocol

  class CloudflareService {
    var link: Link
    var pub: Publisher
    var unanswered: int
    var posted: seq<Posted>
    ghost var talk: Talk
    ghost var lastOffer: Option<nat>

    ghost function View(): State
      reads this
    {
      State(link, pub, unanswered, talk, lastOffer, posted)
    }

    constructor (hasConductor: bool)
      ensures View() == Constructed(hasConductor)
    {
      link := Link(false, false, 0, 0, None, IDLE, {}, map[]);
      pub := Publisher(hasConductor, false, 0, false, false, false, 0, 0, None, IDLE, TAGGED_IDLE, None);
      unanswered, posted := 0, [];
      talk, lastOffer := Talk(false, []), None;
    }

    /** A message for the current connection, which it is time to handle. */
    ghost predicate Arriving(m: Message)
      reads this
    {
      Inv(View()) && !link.stopped && Enabled(View(), MessageArrives(link.connection, m))
    }

    /** From then on the service is in a state of the runs. */
    method Connect()
      requires if link.stopped then LinkInv(link) else Loose(link) && link.socket.None?
      modifies this
      ensures View() == old(View()).WithLink(old(link).StartConnection())
      ensures LinkInv(link)
      ensures old(View()) == Constructed(pub.hasConductor) ==> View() == Started(pub.hasConductor) && Inv(View())
    {
      StartConnection();
    }

    method Disconnect()
      requires Inv(View())
      modifies this
      ensures View() == Step(old(View()), Stop) && Inv(View())
      ensures link.stopped && pub.peer.None? && !pub.publishing
      ensures forall c <- link.sockets :: !link.sockets[c].Live()
    {
      StopEndsAll(View());
      link := link.(stopped := true);
      NextConnection();
      link := link.(reconnectTimer := link.reconnectTimer.Cancel());
      StopPublishing();
      pub := pub.(publishing := false);
      DropSocket();
    }

    // ----- Connection to the worker -----

    method NextConnection()
      modifies this`link, this`talk
      ensures link == old(link).(connection := old(link).connection + 1)
      ensures talk == Talk(false, [])
    {
      link := link.(connection := link.connection + 1);
      talk := Talk(false, []);
    }

    /** Afterwards a token request is under way that no earlier reply can be taken for. */
    method StartConnection()
      requires if link.stopped then LinkInv(link) else Loose(link) && link.socket.None?
      modifies this`link, this`talk
      ensures View() == old(View()).WithLink(old(link).StartConnection())
      ensures LinkInv(link)
      ensures !link.stopped ==> link.connection in link.tokens && link.connection !in old(link).tokens
    {
      if link.stopped {
        return;
      }
      StartConnectionKeepsInv(link);
      link := link.(reconnectPending := false);
      NextConnection();
      link := link.(tokens := link.tokens + {link.connection});
    }

    /** If only the current socket was live, none is afterwards. */
    method DropSocket()
      modifies this`link
      ensures link == old(link).DropSocket() && link.socket.None?
      ensures (forall c <- old(link).sockets :: old(link).sockets[c].Live() ==> old(link).socket == Some(c)) ==>
        forall c <- link.sockets :: !link.sockets[c].Live()
    {
      if link.socket.None? {
        return;
      }
      var dropped := link.socket.value;
      link := link.(socket := None);
      if dropped in link.sockets {
        if link.sockets[dropped].Open? {
          link := link.(sockets := link.sockets[dropped := Closing]);
        } else if link.sockets[dropped].Opening? {
          link := link.(sockets := link.sockets[dropped := Finished]);
        }
      }
    }

    /** Afterwards the one thing under way is the reconnect timer, armed for `delay` seconds. */
    method ScheduleReconnect() returns (delay: nat)
      requires if link.stopped || link.reconnectPending then LinkInv(link) else Loose(link)
      modifies this`link, this`talk
      ensures View() == old(View()).WithLink(old(link).ScheduleReconnect())
      ensures LinkInv(link)
      ensures !link.stopped ==> link.reconnectPending && link.reconnectTimer.Count() == 1 && link.socket.None?
      ensures !old(link.stopped || link.reconnectPending) ==> delay == ReconnectDelay(old(link.retryCount))
    {
      if link.stopped || link.reconnectPending {
        return 0;
      }
      ScheduleReconnectKeepsInv(link);
      link := link.(reconnectPending := true);
      NextConnection();
      DropSocket();
      delay := MIN_RECONNECT_DELAY_SEC * PowerOfTwo(if link.retryCount < 5 then link.retryCount else 5);
      delay := if delay < MAX_RECONNECT_DELAY_SEC then delay else MAX_RECONNECT_DELAY_SEC;
      link := link.(retryCount := link.retryCount + 1);
      link := link.(reconnectTimer := link.reconnectTimer.Arm());
    }

    /** The reply to the token request of connection `c`; `ok` if it has a token and a url. */
    method OnTokenReply(c: nat, ok: bool)
      requires Inv(View()) && c in link.tokens
      modifies this`link, this`talk
      ensures View() == Step(old(View()), TokenReply(c, ok)) && Inv(View())
      ensures OneConnection(link)
    {
      InvStep(View(), TokenReply(c, ok));
      link := link.(tokens := link.tokens - {c});
      if link.stopped || c != link.connection {
        return;
      }
      if !ok {
        var _ := ScheduleReconnect();
        return;
      }
      link := link.(socket := Some(c));
      link := link.(sockets := link.sockets[c := Opening]);
    }

    /** The socket of connection `c` has finished. */
    method OnSocketFinished(c: nat, takenOver: bool)
      requires Inv(View()) && c in link.sockets && !link.sockets[c].Finished?
      modifies this
      ensures View() == Step(old(View()), SocketCloses(c, takenOver)) && Inv(View())
      ensures OneConnection(link)
    {
      InvStep(View(), SocketCloses(c, takenOver));
      link := link.(sockets := link.sockets[c := Finished]);
      if link.stopped || c != link.connection {
        return;
      }
      OnSocketClosed(takenOver);
    }

    /** Afterwards a reconnect is pending; publishing goes on, unless the id was taken over. */
    method OnSocketClosed(takenOver: bool)
      requires !link.stopped && !link.reconnectPending && Loose(link.(socket := None)) && PubInv(pub)
      modifies this
      ensures View() == old(View()).OnSocketClosed(takenOver)
      ensures LinkInv(link) && link.reconnectPending
      ensures PubInv(pub) && (if takenOver then !pub.publishing && pub.peer.None? else pub == old(pub))
    {
      RestKeepsInv(pub);
      link := link.(socket := None);
      if takenOver {
        StopPublishing();
        pub := pub.(publishing := false);
        link := link.(retryCount := if link.retryCount < 4 then 4 else link.retryCount);
      }
      var _ := ScheduleReconnect();
    }

    method OnReconnectTimer()
      requires Inv(View()) && link.reconnectTimer.fired > 0
      modifies this`link, this`talk
      ensures View() == Step(old(View()), ReconnectRuns) && Inv(View())
      ensures OneConnection(link)
    {
      InvStep(View(), ReconnectRuns);
      link := link.(reconnectTimer := link.reconnectTimer.Run());
      StartConnection();
    }

    /** What is sent goes out on the current connection. */
    method SendReady()
      modifies this`pub
      ensures pub == old(pub).SendReady(old(View()).Carrier())
      ensures pub.readySent && (OneConnection(link) && link.CanSend() ==> pub.readyOn == Some(link.connection))
    {
      pub := pub.(readySent := true);
      if link.CanSend() {
        pub := pub.(readyOn := link.socket);
      }
    }

    // ----- Worker messages -----

    /** A message on the socket of connection `c`; on any but the current one it changes nothing. */
    method OnSocketMessage(c: nat, message: Message)
      requires Inv(View()) && Enabled(View(), MessageArrives(c, message))
      modifies this
      ensures View() == Step(old(View()), MessageArrives(c, message)) && Inv(View())
      ensures old(link.stopped) || c != old(link.connection) ==> View() == old(View())
    {
      if link.stopped || c != link.connection {
        return;
      }
      OnMessage(message);
    }

    method OnMessage(message: Message)
      requires Arriving(message)
      modifies this
      ensures View() == Step(old(View()), MessageArrives(old(link.connection), message)) && Inv(View())
    {
      match message
      case Joined(sleeping) => OnJoined(sleeping);
      case Wake(created) => OnWake(created);
      case Answer(generation) => var _ := OnAnswer(generation);
      case Sleep => OnSleep();
      case OfferError(stale) => OnOfferError(stale);
      case OtherMessage =>
    }

    /** A connected peer's `ready` has then been sent on this connection; and the counter is right
        exactly if no reply was still to come. */
    method OnJoined(sleeping: bool)
      requires Arriving(Joined(sleeping))
      modifies this
      ensures View() == Step(old(View()), MessageArrives(old(link.connection), Joined(sleeping))) && Inv(View())
      ensures pub.peer.Some? && pub.peer.value.connected ==> ReadyHere(View())
      ensures Counted(View()) <==> old(talk.outstanding) == []
    {
      InvStep(View(), MessageArrives(link.connection, Joined(sleeping)));
      link := link.(retryCount := 0);
      unanswered := 0;
      talk := talk.(joined := true);
      if !pub.publishing {
        return;
      }
      if sleeping {
        StopPublishing();
        pub := pub.(publishing := false);
      } else if pub.peer.Some? && pub.peer.value.connected {
        SendReady();
      }
    }

    /** Publishing then goes on until it is stopped, if there is a conductor. */
    method OnWake(created: bool)
      requires Arriving(Wake(created))
      modifies this`pub
      ensures View() == Step(old(View()), MessageArrives(link.connection, Wake(created))) && Inv(View())
      ensures pub.publishing && (KeepsPublishing(pub) <==> pub.hasConductor)
    {
      InvStep(View(), MessageArrives(link.connection, Wake(created)));
      pub := pub.(publishing := true);
      StartPublishing(created);
    }

    /** A count that was right stays right. */
    method CountReply()
      modifies this`unanswered, this`talk
      ensures View() == old(View()).TakeReply()
      ensures old(Counted(View()) && talk.outstanding != []) ==> Counted(View())
    {
      unanswered := if unanswered > 0 then unanswered - 1 else 0;
      talk := talk.(outstanding := if talk.outstanding == [] then [] else talk.outstanding[1..]);
    }

    /** `applied`: the peer is given the answer. While no reply is left uncounted, that is so only if
        the answer replies to the newest offer and that offer belongs to the current publication; and
        while the count is right, exactly if it does. */
    method OnAnswer(generation: nat) returns (applied: bool)
      requires Arriving(Answer(generation))
      modifies this
      ensures View() == Step(old(View()), MessageArrives(old(link.connection), Answer(generation))) && Inv(View())
      ensures old(talk.joined && Counted(View())) ==>
        (applied <==> |old(talk.outstanding)| == 1 && old(talk.outstanding)[0] == old(pub.publication))
      ensures old(EnoughCounted(View())) && applied ==>
        |old(talk.outstanding)| == 1 && old(talk.outstanding)[0] == old(pub.publication)
      ensures if applied then pub == old(pub).(generation := generation) else pub == old(pub)
    {
      InvStep(View(), MessageArrives(link.connection, Answer(generation)));
      if talk.joined && Counted(View()) { AnswerAppliedIffCurrent(View()); }
      if EnoughCounted(View()) { AnswerAppliedOnlyIfCurrent(View()); }
      CountReply();
      if pub.peer.None? || !pub.offerSent || unanswered > 0 {
        return false;
      }
      pub := pub.(generation := generation);
      return true;
    }

    /** Nothing that is still queued or armed can then bring the publication back. */
    method OnSleep()
      requires Arriving(Sleep)
      modifies this`pub
      ensures View() == Step(old(View()), MessageArrives(link.connection, Sleep)) && Inv(View())
      ensures !pub.publishing && pub.peer.None? && !pub.healthTimer.Pending(pub.publication)
      ensures forall item <- posted :: item.publication != pub.publication
    {
      InvStep(View(), MessageArrives(link.connection, Sleep));
      StopPublishing();
      pub := pub.(publishing := false);
    }

    /** While the count is right, only an error about the current publication's newest offer ends
        the publication. */
    method OnOfferError(stale: bool)
      requires Arriving(OfferError(stale))
      modifies this
      ensures View() == Step(old(View()), MessageArrives(old(link.connection), OfferError(stale))) && Inv(View())
      ensures old(talk.joined && Counted(View())) && pub != old(pub) ==>
        |old(talk.outstanding)| == 1 && old(talk.outstanding)[0] == old(pub.publication)
    {
      InvStep(View(), MessageArrives(link.connection, OfferError(stale)));
      if talk.joined && Counted(View()) { AnswerAppliedIffCurrent(View()); }
      CountReply();
      if !pub.offerSent || unanswered > 0 {
        return;
      }
      if stale {
        StopPublishing();
        pub := pub.(publishing := false);
      } else {
        RetryPublishing();
      }
    }

    // ----- Publishing -----

    /** A new publication that nothing queued and no health check in progress belongs to. */
    method StopPublishing()
      modifies this`pub
      ensures pub == old(pub).StopPublishing()
      ensures pub.publication > old(pub).publication && pub.peer.None? && Fresh(pub)
      ensures old(pub).healthTimer.UpTo(old(pub).publication) ==> !pub.healthTimer.Pending(pub.publication)
      ensures QueueInv(posted, old(pub)) ==> forall item <- posted :: item.publication != pub.publication
    {
      pub := pub.(publication := pub.publication + 1);
      pub := pub.(healthTimer := pub.healthTimer.Cancel());
      pub := pub.(retryTimer := pub.retryTimer.Cancel());
      if pub.peer.Some? {
        pub := pub.(peer := None);
      }
      pub := pub.(generation := 0);
      pub := pub.(offerSent := false);
      pub := pub.(readySent := false, readyOn := None);
      pub := pub.(peerWasConnected := false);
      pub := pub.(peerDownSince := 0);
    }

    /** Publishing goes on, without a peer for now. */
    method RetryPublishing()
      modifies this`pub
      ensures pub == old(pub).RetryPublishing()
      ensures pub.publishing == old(pub.publishing) && KeepsPublishing(pub)
      ensures pub.publishing ==> pub.peer.None? && Fresh(pub)
    {
      if !pub.publishing {
        return;
      }
      StopPublishing();
      pub := pub.(retryTimer := pub.retryTimer.Arm());
    }

    /** Afterwards publishing goes on, if there is a conductor, and in a new publication. */
    method StartPublishing(created: bool)
      requires pub.publishing && pub.healthTimer.UpTo(pub.publication)
      requires pub.hasConductor || (pub.retryTimer == IDLE && pub.healthTimer == TAGGED_IDLE)
      modifies this`pub
      ensures pub == old(pub).StartPublishing(created)
      ensures PubInv(pub) && (KeepsPublishing(pub) <==> pub.hasConductor)
      ensures pub.publication > old(pub.publication) && Fresh(pub)
    {
      StartKeepsInv(pub, created);
      StopPublishing();
      if !pub.hasConductor {
        return;
      }
      if !created {
        RetryPublishing();
        return;
      }
      pub := pub.(peer := Some(Peer(false, false)));
      MonitorPeer(pub.publication);
    }

    method MonitorPeer(publication: nat)
      modifies this`pub
      ensures pub == old(pub).(healthTimer := old(pub).healthTimer.Arm(publication))
      ensures pub.healthTimer.Pending(publication)
    {
      pub := pub.(healthTimer := pub.healthTimer.Arm(publication));
    }

    method OnRetryTimer(created: bool)
      requires Inv(View()) && pub.retryTimer.fired > 0
      modifies this`pub
      ensures View() == Step(old(View()), RetryRuns(created)) && Inv(View())
      ensures pub.hasConductor ==> KeepsPublishing(pub)
    {
      InvStep(View(), RetryRuns(created));
      pub := pub.(retryTimer := pub.retryTimer.Run());
      if link.stopped || !pub.publishing {
        return;
      }
      StartPublishing(created);
    }

    method OnHealthTimer(publication: nat, now: int)
      requires Inv(View()) && publication in pub.healthTimer.fired
      modifies this`pub
      ensures View() == Step(old(View()), HealthRuns(publication, now)) && Inv(View())
      ensures pub.hasConductor ==> KeepsPublishing(pub)
    {
      InvStep(View(), HealthRuns(publication, now));
      pub := pub.(healthTimer := pub.healthTimer.Run(publication));
      if link.stopped || publication != pub.publication {
        return;
      }
      CheckPeer(now);
    }

    /** The health check of the current publication. */
    method CheckPeer(now: int)
      modifies this`pub
      ensures pub == old(pub).OnHealthTimer(old(pub.publication), now)
    {
      if pub.peer.None? || pub.peer.value.expired {
        RetryPublishing();
        return;
      }
      if pub.peer.value.connected {
        pub := pub.(peerWasConnected := true);
        pub := pub.(peerDownSince := 0);
      } else {
        if pub.peerDownSince == 0 {
          pub := pub.(peerDownSince := now);
        }
        var limit := if pub.peerWasConnected then PEER_DOWN_GRACE_SEC else CONNECT_TIMEOUT_SEC;
        if now - pub.peerDownSince >= limit {
          RetryPublishing();
          return;
        }
      }
      MonitorPeer(pub.publication);
    }

    /** The io_context runs the next posted lambda. */
    method RunPosted()
      requires Inv(View()) && posted != []
      modifies this
      ensures View() == Step(old(View()), PostedRuns) && Inv(View())
      ensures WorkerKnowsReady(View())
    {
      InvStep(View(), PostedRuns);
      var item := posted[0];
      assert item in posted;
      posted := posted[1..];
      if link.stopped || item.publication != pub.publication {
        return;
      }
      match item
      case OfferReady(_, hasTracks) =>
        if !hasTracks {
          RetryPublishing();
        } else if link.CanSend() {
          unanswered := unanswered + 1;
          pub := pub.(offerSent := true);
          talk := talk.(outstanding := talk.outstanding + [pub.publication]);
          lastOffer := Some(pub.publication);
        }
      case VoiceAnswer(_) =>
      case StateChanged(_, state) =>
        OnPeerState(state);
    }

    /** Once the peer has connected, `ready` has been sent for its publication; when it fails,
        another one is on its way. */
    method OnPeerState(state: PeerState)
      requires PubInv(pub) && pub.peer.Some?
      modifies this`pub
      ensures pub == old(pub).OnPeerState(state, old(View()).Carrier())
      ensures PubInv(pub)
      ensures state == PeerState.Connected ==> pub.readySent && pub.publication == old(pub.publication)
      ensures state == Failed ==> pub.retryTimer.armed && pub.publication > old(pub.publication)
    {
      PeerStateKeepsInv(pub, state, View().Carrier());
      if state == PeerState.Connected {
        pub := pub.(peerWasConnected := true);
        pub := pub.(peerDownSince := 0);
        if !pub.readySent {
          SendReady();
        }
      } else if state == Failed {
        RetryPublishing();
      }
    }
  }
}
