/** What the Cloudflare publisher does, told from what happened to it: the events of a run, the
    reports of its peer and the times of its health checks. */
module CloudflareHistory {
  import opened Common
  import opened CloudflareProtocol

  /** One step of a run. */
  lemma RunStep(hasConductor: bool, states: seq<State>, events: seq<Event>, k: nat)
    requires IsRun(hasConductor, states, events) && k < |events|
    ensures Inv(states[k]) && Inv(states[k + 1]) && states[k].pub.hasConductor == hasConductor
    ensures Enabled(states[k], events[k]) && states[k + 1] == Step(states[k], events[k])
  {
    RunInv(hasConductor, states, events, k);
    RunInv(hasConductor, states, events, k + 1);
  }

  // ----- When a peer is given up -----

  /** A health check of the current publication, with a peer that has not closed. */
  predicate Checks(s: State, e: Event) {
    && e.HealthRuns? && !s.link.stopped && e.publication == s.pub.publication
    && s.pub.peer.Some? && !s.pub.peer.value.expired
  }

  predicate FoundDown(s: State, e: Event) { Checks(s, e) && !s.pub.peer.value.connected }

  /** A check, or the peer's own report, says that the current publication's peer is connected. */
  predicate SawConnected(s: State, e: Event) {
    || (Checks(s, e) && s.pub.peer.value.connected)
    || (e.PostedRuns? && !s.link.stopped && s.posted != []
        && s.posted[0] == StateChanged(s.pub.publication, PeerState.Connected))
  }

  /** What event `k` changes of what is remembered of the peer's connection. */
  predicate WatchKept(states: seq<State>, events: seq<Event>, k: nat)
    requires k < |events| && k + 1 < |states|
  {
    var s, t, e := states[k], states[k + 1].pub, events[k];
    || (t.publication > s.pub.publication && !t.peerWasConnected && t.peerDownSince == 0)
    || (&& t.publication == s.pub.publication
        && t.peerWasConnected == (s.pub.peerWasConnected || SawConnected(s, e))
        && t.peerDownSince == (if SawConnected(s, e) then 0
                               else if FoundDown(s, e) && s.pub.peerDownSince == 0 then e.now
                               else s.pub.peerDownSince))
  }

  lemma ReportWatch(s: State, state: PeerState)
    ensures var p, t := s.pub, s.pub.OnPeerState(state, s.Carrier());
      if state.Connected? then t.publication == p.publication && t.peerWasConnected && t.peerDownSince == 0
      else WatchAfresh(p, t)
  {}

  lemma PostedWatch(s: State)
    requires s.posted != []
    ensures WatchKept([s, Step(s, PostedRuns)], [PostedRuns], 0)
  {
    match s.posted[0]
    case StateChanged(_, state) => ReportWatch(s.(posted := s.posted[1..]), state);
    case OfferReady(_, _) => PublisherWatch(s.pub, false, false, None);
    case VoiceAnswer(_) =>
  }

  lemma HealthWatch(s: State, tag: nat, now: int)
    requires PubInv(s.pub) && tag in s.pub.healthTimer.fired
    ensures WatchKept([s, Step(s, HealthRuns(tag, now))], [HealthRuns(tag, now)], 0)
  {}

  /** The watch starts afresh with a publication, and is else left as it is. */
  predicate WatchAfresh(p: Publisher, t: Publisher) {
    || (t.publication > p.publication && !t.peerWasConnected && t.peerDownSince == 0)
    || (t.publication == p.publication && t.peerWasConnected == p.peerWasConnected
        && t.peerDownSince == p.peerDownSince)
  }

  lemma PublisherWatch(p: Publisher, created: bool, sleeping: bool, on: Option<nat>)
    ensures WatchAfresh(p, p.Rest()) && WatchAfresh(p, p.RetryPublishing()) && WatchAfresh(p, p.OnWake(created))
    ensures WatchAfresh(p, p.OnJoined(sleeping, on))
  {}

  lemma MessageWatch(s: State, m: Message)
    ensures WatchAfresh(s.pub, s.OnMessage(m).pub)
  {
    match m
    case Joined(sleeping) => PublisherWatch(s.pub, false, sleeping, s.Carrier());
    case Wake(created) => PublisherWatch(s.pub, created, false, None);
    case OfferError(_) => PublisherWatch(s.pub, false, false, None);
    case _ => PublisherWatch(s.pub, false, false, None);
  }

  lemma OtherWatch(s: State, e: Event)
    requires Enabled(s, e) && !e.PostedRuns? && !e.HealthRuns? && !e.MessageArrives?
    ensures WatchKept([s, Step(s, e)], [e], 0)
  {}

  lemma WatchStep(s: State, e: Event)
    requires PubInv(s.pub) && Enabled(s, e)
    ensures WatchKept([s, Step(s, e)], [e], 0)
  {
    match e
    case PostedRuns => PostedWatch(s);
    case HealthRuns(tag, now) => HealthWatch(s, tag, now);
    case MessageArrives(_, m) => MessageWatch(s, m);
    case _ => OtherWatch(s, e);
  }

  lemma WatchInRun(hasConductor: bool, states: seq<State>, events: seq<Event>, k: nat)
    requires IsRun(hasConductor, states, events) && k < |events|
    ensures WatchKept(states, events, k)
  {
    RunStep(hasConductor, states, events, k);
    WatchStep(states[k], events[k]);
  }

  /** A check or report of this publication has found the peer connected before moment `k`. */
  ghost predicate WasSeen(states: seq<State>, events: seq<Event>, k: nat)
    requires k <= |events| < |states|
  {
    exists i :: 0 <= i < k
      && states[i].pub.publication == states[k].pub.publication && SawConnected(states[i], events[i])
  }

  /** Check `j` found the peer of moment `k` down, and nothing has found it connected since. */
  ghost predicate DownFrom(states: seq<State>, events: seq<Event>, j: nat, k: nat)
    requires k <= |events| < |states|
  {
    && j < k && FoundDown(states[j], events[j])
    && forall i :: j <= i < k ==>
         states[i].pub.publication == states[k].pub.publication && !SawConnected(states[i], events[i])
  }

  /** The clock of the checks runs forwards, and has started before them. */
  ghost predicate ClockRuns(events: seq<Event>) {
    && (forall i :: 0 <= i < |events| && events[i].HealthRuns? ==> events[i].now > 0)
    && (forall i, j :: 0 <= i < j < |events| && events[i].HealthRuns? && events[j].HealthRuns? ==>
          events[i].now <= events[j].now)
  }

  lemma {:induction false} PublicationGrows(states: seq<State>, events: seq<Event>, i: nat, k: nat)
    requires i <= k <= |events| < |states|
    requires forall m :: 0 <= m < |events| ==> WatchKept(states, events, m)
    ensures states[i].pub.publication <= states[k].pub.publication
    decreases k
  {
    if i < k {
      PublicationGrows(states, events, i, k - 1);
      assert WatchKept(states, events, k - 1);
    }
  }

  /** What is remembered is what was seen: `first` is the check that found the peer down first since
      it was last seen connected. */
  ghost predicate Remembers(states: seq<State>, events: seq<Event>, k: nat, first: Option<nat>)
    requires k <= |events| < |states|
  {
    && (states[k].pub.peerWasConnected <==> WasSeen(states, events, k))
    && (first.Some? ==> DownFrom(states, events, first.value, k))
    && states[k].pub.peerDownSince == (if first.Some? then events[first.value].now else 0)
    && (forall j: nat :: DownFrom(states, events, j, k) ==> first.Some? && first.value <= j)
  }

  lemma NewPublication(states: seq<State>, events: seq<Event>, k: nat)
    requires k < |events| < |states|
    requires forall m :: 0 <= m < |events| ==> WatchKept(states, events, m)
    requires states[k + 1].pub.publication > states[k].pub.publication
    ensures Remembers(states, events, k + 1, None)
  {
    assert WatchKept(states, events, k);
    forall i | 0 <= i <= k ensures states[i].pub.publication < states[k + 1].pub.publication {
      PublicationGrows(states, events, i, k);
    }
  }

  lemma DownStill(states: seq<State>, events: seq<Event>, j: nat, k: nat)
    requires j <= k < |events| < |states|
    requires states[k + 1].pub.publication == states[k].pub.publication
    ensures SawConnected(states[k], events[k]) ==> !DownFrom(states, events, j, k + 1)
    ensures !SawConnected(states[k], events[k]) && j < k ==>
      (DownFrom(states, events, j, k + 1) <==> DownFrom(states, events, j, k))
    ensures !SawConnected(states[k], events[k]) ==>
      (DownFrom(states, events, k, k + 1) <==> FoundDown(states[k], events[k]))
  {}

  lemma SeenStill(states: seq<State>, events: seq<Event>, k: nat)
    requires k < |events| < |states|
    requires states[k + 1].pub.publication == states[k].pub.publication
    ensures WasSeen(states, events, k + 1) <==> WasSeen(states, events, k) || SawConnected(states[k], events[k])
  {}

  lemma SamePublication(states: seq<State>, events: seq<Event>, k: nat, before: Option<nat>)
    returns (first: Option<nat>)
    requires k < |events| < |states| && ClockRuns(events)
    requires WatchKept(states, events, k) && Remembers(states, events, k, before)
    requires states[k + 1].pub.publication == states[k].pub.publication
    ensures Remembers(states, events, k + 1, first)
  {
    var s, e := states[k], events[k];
    SeenStill(states, events, k);
    first := if SawConnected(s, e) then None else if before.None? && FoundDown(s, e) then Some(k) else before;
    DownStill(states, events, k, k);
    if first.Some? { DownStill(states, events, first.value, k); }
    var next := k + 1;
    forall j: nat | DownFrom(states, events, j, next) ensures first.Some? && first.value <= j {
      DownStill(states, events, j, k);
    }
  }

  lemma {:induction false} RemembersHistory(states: seq<State>, events: seq<Event>, k: nat) returns (first: Option<nat>)
    requires k <= |events| < |states| && ClockRuns(events)
    requires !states[0].pub.peerWasConnected && states[0].pub.peerDownSince == 0
    requires forall m :: 0 <= m < |events| ==> WatchKept(states, events, m)
    ensures Remembers(states, events, k, first)
  {
    if k == 0 {
      first := None;
    } else {
      var before := RemembersHistory(states, events, k - 1);
      assert WatchKept(states, events, k - 1);
      if states[k].pub.publication > states[k - 1].pub.publication {
        NewPublication(states, events, k - 1);
        first := None;
      } else {
        first := SamePublication(states, events, k - 1, before);
      }
    }
  }

  /** The peer is dropped, and a timer is armed that makes another. */
  predicate GivesUp(s: State, t: State) {
    t.pub.publication > s.pub.publication && t.pub.peer.None? && t.pub.retryTimer.armed
  }

  predicate GoesOnWatching(s: State, t: State) {
    && t.pub.publication == s.pub.publication && t.pub.peer == s.pub.peer
    && t.pub.healthTimer.armed == Some(s.pub.publication)
  }

  /** How long this publication's peer may be down. */
  ghost function Limit(states: seq<State>, events: seq<Event>, k: nat): int
    requires k <= |events| < |states|
  {
    if WasSeen(states, events, k) then 10 else 20
  }

  lemma CheckDecides(s: State, e: Event)
    requires PubInv(s.pub) && Enabled(s, e) && Checks(s, e)
    ensures var since := if s.pub.peerDownSince == 0 then e.now else s.pub.peerDownSince;
      var limit := if s.pub.peerWasConnected then 10 else 20;
      if !s.pub.peer.value.connected && e.now - since >= limit then GivesUp(s, Step(s, e))
      else GoesOnWatching(s, Step(s, e))
  {}

  /** In every run a health check gives the peer up if and only if it finds it down, an earlier check
      found it down at least 20 seconds ago, or 10 seconds if it has been connected before, and
      nothing has found it connected in between. Otherwise the peer stays and is checked again. */
  lemma HealthCheckDecides(hasConductor: bool, states: seq<State>, events: seq<Event>, k: nat)
    requires IsRun(hasConductor, states, events) && ClockRuns(events)
    requires k < |events| && Checks(states[k], events[k])
    ensures var s, t := states[k], states[k + 1];
      && (GivesUp(s, t) <==>
            && !s.pub.peer.value.connected
            && exists j: nat :: DownFrom(states, events, j, k)
                 && events[k].now - events[j].now >= Limit(states, events, k))
      && (GivesUp(s, t) || GoesOnWatching(s, t))
  {
    forall m | 0 <= m < |events| ensures WatchKept(states, events, m) { WatchInRun(hasConductor, states, events, m); }
    var first := RemembersHistory(states, events, k);
    RunStep(hasConductor, states, events, k);
    CheckDecides(states[k], events[k]);
    if first.Some? {
      forall j: nat | DownFrom(states, events, j, k) ensures events[first.value].now <= events[j].now {
        assert first.value <= j;
      }
    }
  }

  /** A peer that has closed is given up by the next check. */
  lemma ClosedPeerIsGivenUp(hasConductor: bool, states: seq<State>, events: seq<Event>, k: nat)
    requires IsRun(hasConductor, states, events) && k < |events|
    requires var s, e := states[k], events[k];
      && e.HealthRuns? && !s.link.stopped && e.publication == s.pub.publication
      && s.pub.peer.Some? && s.pub.peer.value.expired
    ensures GivesUp(states[k], states[k + 1])
  {
    RunStep(hasConductor, states, events, k);
  }

  // ----- When a publication begins and ends -----

  /** A worker message on the current connection. */
  predicate Handled(s: State, e: Event) {
    e.MessageArrives? && !s.link.stopped && e.connection == s.link.connection
  }

  /** A reply that comes now is one to the newest offer of this publication. */
  predicate AwaitsOneReply(s: State) { s.pub.offerSent && s.unanswered <= 1 }

  predicate Wakes(s: State, e: Event) { Handled(s, e) && e.message.Wake? }

  /** The worker no longer wants this device to publish, or cannot be told so. */
  predicate Rests(s: State, e: Event) {
    || e.Stop?
    || (Handled(s, e) && (e.message.Sleep? || (e.message == Joined(true) && s.pub.publishing)))
    || (Handled(s, e) && e.message == OfferError(true) && AwaitsOneReply(s))
    || (e.SocketCloses? && !s.link.stopped && e.connection == s.link.connection && e.takenOver)
  }

  /** Since it was woken last, nothing has put the device to rest. */
  predicate Wanted(states: seq<State>, events: seq<Event>, k: nat)
    requires k <= |events| < |states|
  {
    k > 0 &&
      var s, e := states[k - 1], events[k - 1];
      Wakes(s, e) || (Wanted(states, events, k - 1) && !Rests(s, e))
  }

  /** What begins a publication: a wake, or the retry timer while the device is wanted. */
  predicate Begins(s: State, e: Event) {
    Wakes(s, e) || (e.RetryRuns? && !s.link.stopped && s.pub.publishing)
  }

  /** Whether the PeerConnection of a publication that begins can be created. */
  predicate Creates(e: Event) {
    (e.RetryRuns? && e.created) || (e.MessageArrives? && e.message.Wake? && e.message.created)
  }

  /** What makes the device try again: an offer the worker refuses or that has no tracks, and a peer
      that fails. Health checks are told of above. */
  predicate Fails(s: State, e: Event) {
    || (Handled(s, e) && e.message == OfferError(false) && AwaitsOneReply(s))
    || (e.PostedRuns? && !s.link.stopped && s.posted != []
        && (s.posted[0] == OfferReady(s.pub.publication, false)
            || s.posted[0] == StateChanged(s.pub.publication, PeerState.Failed)))
  }

  /** What an event does to the publication. */
  predicate PublicationAfter(s: State, e: Event, t: State) {
    if Begins(s, e) then
      && t.pub.publishing && t.pub.publication > s.pub.publication
      && (s.pub.hasConductor ==> (t.pub.peer.Some? <==> Creates(e)) && (Creates(e) || t.pub.retryTimer.armed))
    else if Fails(s, e) then
      t.pub.publishing && GivesUp(s, t)
    else if Rests(s, e) then
      !t.pub.publishing && t.pub.peer.None? && !t.pub.retryTimer.armed
    else
      && t.pub.publishing == s.pub.publishing && t.pub.publication == s.pub.publication
      && (t.pub.peer.Some? <==> s.pub.peer.Some?)
  }

  lemma MessageDecides(s: State, m: Message)
    requires Inv(s) && !s.link.stopped && Enabled(s, MessageArrives(s.link.connection, m))
    ensures PublicationAfter(s, MessageArrives(s.link.connection, m), s.OnMessage(m))
  {
    match m
    case Joined(sleeping) => JoinedDecides(s, sleeping);
    case Wake(created) => WakeDecides(s, created);
    case OfferError(stale) => OfferErrorDecides(s, stale);
    case _ =>
  }

  lemma JoinedDecides(s: State, sleeping: bool)
    requires Inv(s) && !s.link.stopped && Enabled(s, MessageArrives(s.link.connection, Joined(sleeping)))
    ensures PublicationAfter(s, MessageArrives(s.link.connection, Joined(sleeping)), s.OnJoined(sleeping))
  {}

  lemma WakeDecides(s: State, created: bool)
    requires Inv(s) && !s.link.stopped
    ensures PublicationAfter(s, MessageArrives(s.link.connection, Wake(created)), s.OnMessage(Wake(created)))
  {}

  lemma OfferErrorDecides(s: State, stale: bool)
    requires Inv(s) && !s.link.stopped
    ensures PublicationAfter(s, MessageArrives(s.link.connection, OfferError(stale)), s.OnOfferError(stale))
  {}

  lemma PostedDecides(s: State)
    requires Inv(s) && s.posted != []
    ensures PublicationAfter(s, PostedRuns, Step(s, PostedRuns))
  {
    assert s.posted[0] in s.posted;
  }

  lemma OthersDecide(s: State, e: Event)
    requires Inv(s) && Enabled(s, e) && !e.MessageArrives? && !e.PostedRuns? && !e.HealthRuns?
    ensures PublicationAfter(s, e, Step(s, e))
  {}

  /** In every run each event but a health check begins, ends or leaves the publication as said. */
  lemma PublicationFollowsEvents(hasConductor: bool, states: seq<State>, events: seq<Event>, k: nat)
    requires IsRun(hasConductor, states, events) && k < |events| && !events[k].HealthRuns?
    ensures PublicationAfter(states[k], events[k], states[k + 1])
  {
    RunStep(hasConductor, states, events, k);
    var s, e := states[k], events[k];
    if e.MessageArrives? {
      if Handled(s, e) { MessageDecides(s, e.message); }
    } else if e.PostedRuns? {
      PostedDecides(s);
    } else {
      OthersDecide(s, e);
    }
  }

  lemma HealthKeepsWish(s: State, tag: nat, now: int)
    requires tag in s.pub.healthTimer.fired
    ensures Step(s, HealthRuns(tag, now)).pub.publishing == s.pub.publishing
  {}

  predicate WishAfter(s: State, e: Event, t: State) {
    t.pub.publishing == (Wakes(s, e) || (s.pub.publishing && !Rests(s, e)))
  }

  lemma WishInRun(hasConductor: bool, states: seq<State>, events: seq<Event>, k: nat)
    requires IsRun(hasConductor, states, events) && k < |events|
    ensures WishAfter(states[k], events[k], states[k + 1])
  {
    RunStep(hasConductor, states, events, k);
    if events[k].HealthRuns? {
      HealthKeepsWish(states[k], events[k].publication, events[k].now);
    } else {
      PublicationFollowsEvents(hasConductor, states, events, k);
      FailsWhilePublishing(states[k], events[k]);
    }
  }

  lemma FailsWhilePublishing(s: State, e: Event)
    requires Inv(s)
    ensures Fails(s, e) ==> s.pub.publishing && !Rests(s, e)
  {
    if e.PostedRuns? && s.posted != [] { assert s.posted[0] in s.posted; }
  }

  lemma {:induction false} WantedSoFar(states: seq<State>, events: seq<Event>, k: nat)
    requires k <= |events| < |states| && !states[0].pub.publishing
    requires forall m :: 0 <= m < |events| ==> WishAfter(states[m], events[m], states[m + 1])
    ensures states[k].pub.publishing <==> Wanted(states, events, k)
  {
    if k > 0 {
      WantedSoFar(states, events, k - 1);
      assert WishAfter(states[k - 1], events[k - 1], states[k - 1 + 1]);
    }
  }

  /** In every run the device publishes, or tries to, exactly while it is wanted. */
  lemma PublishesWhileWanted(hasConductor: bool, states: seq<State>, events: seq<Event>, k: nat)
    requires IsRun(hasConductor, states, events) && k < |states|
    ensures states[k].pub.publishing <==> Wanted(states, events, k)
  {
    forall m | 0 <= m < |events| ensures WishAfter(states[m], events[m], states[m + 1]) {
      WishInRun(hasConductor, states, events, m);
    }
    WantedSoFar(states, events, k);
  }

  // ----- What is sent, and what an answer leaves behind -----

  /** An offer goes out: the peer has made it, it has tracks, and the connection can carry it. */
  predicate Offers(s: State, e: Event) {
    && e.PostedRuns? && !s.link.stopped && s.posted != []
    && s.posted[0] == OfferReady(s.pub.publication, true) && s.link.CanSend()
  }

  predicate Replies(s: State, e: Event) { Handled(s, e) && (e.message.Answer? || e.message.OfferError?) }

  /** What an event does to the offers that have no reply yet. */
  predicate OffersAfter(s: State, e: Event, t: State) {
    && t.talk.outstanding ==
        (if Offers(s, e) then s.talk.outstanding + [s.pub.publication]
         else if Replies(s, e) && s.talk.outstanding != [] then s.talk.outstanding[1..]
         else if t.link.connection != s.link.connection then []
         else s.talk.outstanding)
    && (Offers(s, e) ==> t.pub.offerSent && t.unanswered == s.unanswered + 1)
    && (t.pub.offerSent && t.pub.publication == s.pub.publication ==> s.pub.offerSent || Offers(s, e))
  }

  lemma OffersAfterPosted(s: State)
    requires s.posted != []
    ensures OffersAfter(s, PostedRuns, Step(s, PostedRuns))
  {}

  lemma OffersAfterMessage(s: State, c: nat, m: Message)
    requires Inv(s) && Enabled(s, MessageArrives(c, m))
    ensures OffersAfter(s, MessageArrives(c, m), Step(s, MessageArrives(c, m)))
  {
    if Handled(s, MessageArrives(c, m)) { MessageKeepsLink(s, m); }
  }

  lemma OffersAfterOthers(s: State, e: Event)
    requires Inv(s) && Enabled(s, e) && !e.PostedRuns? && !e.MessageArrives?
    ensures OffersAfter(s, e, Step(s, e))
  {}

  /** In every run offers go out, and are replied to, by these events and no others. */
  lemma OffersFollowEvents(hasConductor: bool, states: seq<State>, events: seq<Event>, k: nat)
    requires IsRun(hasConductor, states, events) && k < |events|
    ensures OffersAfter(states[k], events[k], states[k + 1])
  {
    RunStep(hasConductor, states, events, k);
    match events[k]
    case PostedRuns => OffersAfterPosted(states[k]);
    case MessageArrives(c, m) => OffersAfterMessage(states[k], c, m);
    case _ => OffersAfterOthers(states[k], events[k]);
  }

  /** The generation of the last answer that was applied in this publication. */
  function GenerationOf(states: seq<State>, events: seq<Event>, k: nat): nat
    requires k <= |events| < |states|
  {
    if k == 0 then 0 else
      var s, e := states[k - 1], events[k - 1];
      if Handled(s, e) && e.message.Answer? && s.pub.peer.Some? && AwaitsOneReply(s) then e.message.generation
      else if states[k].pub.publication == s.pub.publication then GenerationOf(states, events, k - 1)
      else 0
  }

  predicate GenerationAfter(s: State, e: Event, t: State) {
    t.pub.generation ==
      if Handled(s, e) && e.message.Answer? && s.pub.peer.Some? && AwaitsOneReply(s) then e.message.generation
      else if t.pub.publication == s.pub.publication then s.pub.generation else 0
  }

  lemma GenerationAfterMessage(s: State, m: Message)
    requires Inv(s) && !s.link.stopped && Enabled(s, MessageArrives(s.link.connection, m))
    ensures GenerationAfter(s, MessageArrives(s.link.connection, m), s.OnMessage(m))
  {}

  lemma GenerationAfterPosted(s: State)
    requires s.posted != []
    ensures GenerationAfter(s, PostedRuns, Step(s, PostedRuns))
  {}

  lemma GenerationAfterHealth(s: State, tag: nat, now: int)
    requires tag in s.pub.healthTimer.fired
    ensures GenerationAfter(s, HealthRuns(tag, now), Step(s, HealthRuns(tag, now)))
  {}

  lemma GenerationAfterOthers(s: State, e: Event)
    requires Inv(s) && Enabled(s, e) && !e.MessageArrives? && !e.PostedRuns?
    ensures GenerationAfter(s, e, Step(s, e))
  {
    if e.HealthRuns? { GenerationAfterHealth(s, e.publication, e.now); }
  }

  lemma GenerationInRun(hasConductor: bool, states: seq<State>, events: seq<Event>, k: nat)
    requires IsRun(hasConductor, states, events) && k < |events|
    ensures GenerationAfter(states[k], events[k], states[k + 1])
  {
    RunStep(hasConductor, states, events, k);
    var s, e := states[k], events[k];
    if e.MessageArrives? {
      if Handled(s, e) { GenerationAfterMessage(s, e.message); }
    } else if e.PostedRuns? {
      GenerationAfterPosted(s);
    } else {
      GenerationAfterOthers(s, e);
    }
  }

  lemma {:induction false} GenerationSoFar(states: seq<State>, events: seq<Event>, k: nat)
    requires k <= |events| < |states| && states[0].pub.generation == 0
    requires forall m :: 0 <= m < |events| ==> GenerationAfter(states[m], events[m], states[m + 1])
    ensures states[k].pub.generation == GenerationOf(states, events, k)
  {
    if k > 0 {
      GenerationSoFar(states, events, k - 1);
      assert GenerationAfter(states[k - 1], events[k - 1], states[k - 1 + 1]);
    }
  }

  /** In every run the generation that a reconnect will ask for is that one. */
  lemma GenerationIsOfTheAnswer(hasConductor: bool, states: seq<State>, events: seq<Event>, k: nat)
    requires IsRun(hasConductor, states, events) && k < |states|
    ensures states[k].pub.generation == GenerationOf(states, events, k)
  {
    forall m | 0 <= m < |events| ensures GenerationAfter(states[m], events[m], states[m + 1]) {
      GenerationInRun(hasConductor, states, events, m);
    }
    GenerationSoFar(states, events, k);
  }

  // ----- When `ready` is sent -----

  /** The peer reports that it has connected, for the first time in this publication; or the device is
      let in on a connection while its peer is connected. */
  predicate SaysReady(s: State, e: Event) {
    || (e.PostedRuns? && !s.link.stopped && s.posted != [] && !s.pub.readySent
        && s.posted[0] == StateChanged(s.pub.publication, PeerState.Connected))
    || (Handled(s, e) && e.message == Joined(false) && s.pub.peer.Some? && s.pub.peer.value.connected)
  }

  predicate ReadyAfter(s: State, e: Event, t: State) {
    if SaysReady(s, e) then
      t.pub.readySent && t.pub.readyOn == (if s.link.CanSend() then s.link.socket else s.pub.readyOn)
    else if t.pub.publication == s.pub.publication then
      t.pub.readySent == s.pub.readySent && t.pub.readyOn == s.pub.readyOn
    else !t.pub.readySent && t.pub.readyOn.None?
  }

  lemma ReadyAfterMessage(s: State, m: Message)
    requires Inv(s) && !s.link.stopped && Enabled(s, MessageArrives(s.link.connection, m))
    ensures ReadyAfter(s, MessageArrives(s.link.connection, m), s.OnMessage(m))
  {}

  lemma ReadyAfterPosted(s: State)
    requires Inv(s) && s.posted != []
    ensures ReadyAfter(s, PostedRuns, Step(s, PostedRuns))
  {
    assert s.posted[0] in s.posted;
  }

  lemma ReadyAfterOthers(s: State, e: Event)
    requires Inv(s) && Enabled(s, e) && !e.MessageArrives? && !e.PostedRuns?
    ensures ReadyAfter(s, e, Step(s, e))
  {
    if !e.PeerReports? { MostStepsMove(s, e); }
  }

  /** In every run `ready` is sent by these events and no others. */
  lemma ReadyFollowsEvents(hasConductor: bool, states: seq<State>, events: seq<Event>, k: nat)
    requires IsRun(hasConductor, states, events) && k < |events|
    ensures ReadyAfter(states[k], events[k], states[k + 1])
  {
    RunStep(hasConductor, states, events, k);
    var s, e := states[k], events[k];
    if e.MessageArrives? {
      if Handled(s, e) { ReadyAfterMessage(s, e.message); }
    } else if e.PostedRuns? {
      ReadyAfterPosted(s);
    } else {
      ReadyAfterOthers(s, e);
    }
  }

  // ----- The connection comes back -----

  /** What brings the connection forward: the one thing that is under way succeeds. */
  function Help(s: State): Event {
    var c := s.link.connection;
    if c in s.link.tokens then TokenReply(c, true)
    else if s.link.socket.Some? && c in s.link.sockets && s.link.sockets[c].Opening? then SocketOpens(c)
    else if s.link.socket.Some? then MessageArrives(c, Joined(false))
    else if s.link.reconnectTimer.armed then ReconnectExpires
    else ReconnectRuns
  }

  /** How many such successes are left until the worker has let the device in. */
  function Distance(s: State): nat {
    var c := s.link.connection;
    if c in s.link.tokens then 3
    else if s.link.socket.Some? && c in s.link.sockets && s.link.sockets[c].Opening? then 2
    else if s.link.socket.Some? then (if s.talk.joined then 0 else 1)
    else if s.link.reconnectTimer.armed then 5
    else 4
  }

  lemma HelpGetsCloser(s: State)
    requires Inv(s) && !s.link.stopped && Distance(s) > 0
    ensures Enabled(s, Help(s))
    ensures var t := Step(s, Help(s)); !t.link.stopped && Distance(t) == Distance(s) - 1
  {}

  lemma FollowsOneMore(s: State, e: Event, more: seq<State>, later: seq<Event>)
    requires Enabled(s, e) && Follows(Step(s, e), more, later)
    ensures Follows(s, [s] + more, [e] + later)
  {}

  lemma Arrived(s: State)
    requires Inv(s) && !s.link.stopped && Distance(s) == 0
    ensures s.talk.joined && s.link.CanSend()
  {}

  /** Whatever has happened, a service that has not been stopped is five successes away, at most, from
      a connection on which it was let in and can send. */
  lemma {:induction false} ConnectsAgain(s: State) returns (states: seq<State>, events: seq<Event>)
    requires Inv(s) && !s.link.stopped
    ensures Follows(s, states, events) && |events| == Distance(s) <= 5
    ensures var t := states[|events|]; t.talk.joined && t.link.CanSend() && Inv(t)
    decreases Distance(s)
  {
    if Distance(s) == 0 {
      Arrived(s);
      states, events := [s], [];
    } else {
      HelpGetsCloser(s);
      InvStep(s, Help(s));
      var more, later := ConnectsAgain(Step(s, Help(s)));
      FollowsOneMore(s, Help(s), more, later);
      states, events := [s] + more, [Help(s)] + later;
    }
  }

  // ----- How long a reconnect waits -----

  /** The connection, or the attempt to make it, is lost. */
  predicate Loses(s: State, e: Event) {
    && !s.link.stopped
    && ((e.TokenReply? && e.connection == s.link.connection && !e.ok)
        || (e.SocketCloses? && e.connection == s.link.connection))
  }

  /** The losses since the worker let the device in last. One to another device with the same id
      counts for all up to the fifth. */
  function Losses(states: seq<State>, events: seq<Event>, k: nat): nat
    requires k <= |events| < |states|
  {
    if k == 0 then 0 else
      var s, e, before := states[k - 1], events[k - 1], Losses(states, events, k - 1);
      if Handled(s, e) && e.message.Joined? then 0
      else if Loses(s, e) then (if e.SocketCloses? && e.takenOver && before < 4 then 5 else before + 1)
      else before
  }

  predicate CountAfter(s: State, e: Event, t: State) {
    t.link.retryCount ==
      if Handled(s, e) && e.message.Joined? then 0
      else if Loses(s, e) then
        (if e.SocketCloses? && e.takenOver && s.link.retryCount < 4 then 5 else s.link.retryCount + 1)
      else s.link.retryCount
  }

  lemma CountStep(s: State, e: Event)
    requires Inv(s) && Enabled(s, e)
    ensures CountAfter(s, e, Step(s, e))
  {}

  lemma CountInRun(hasConductor: bool, states: seq<State>, events: seq<Event>, k: nat)
    requires IsRun(hasConductor, states, events) && k < |events|
    ensures CountAfter(states[k], events[k], states[k + 1])
  {
    RunStep(hasConductor, states, events, k);
    CountStep(states[k], events[k]);
  }

  lemma {:induction false} LossesSoFar(states: seq<State>, events: seq<Event>, k: nat)
    requires k <= |events| < |states| && states[0].link.retryCount == 0
    requires forall m :: 0 <= m < |events| ==> CountAfter(states[m], events[m], states[m + 1])
    ensures states[k].link.retryCount == Losses(states, events, k)
  {
    if k > 0 {
      LossesSoFar(states, events, k - 1);
      assert CountAfter(states[k - 1], events[k - 1], states[k - 1 + 1]);
    }
  }

  lemma DelayInSeconds(n: nat)
    ensures ReconnectDelay(n) == match n case 0 => 1 case 1 => 2 case 2 => 4 case 3 => 8 case 4 => 16 case _ => 30
  {
    assert PowerOfTwo(1) == 2 && PowerOfTwo(2) == 4 && PowerOfTwo(3) == 8;
    assert PowerOfTwo(4) == 16 && PowerOfTwo(5) == 2 * PowerOfTwo(4);
  }

  /** In every run the n-th loss in a row is followed by a wait of 1, 2, 4, 8, 16 and from then on 30
      seconds; one to another device with the same id, by at least 16. */
  lemma WaitsLonger(hasConductor: bool, states: seq<State>, events: seq<Event>, k: nat)
    requires IsRun(hasConductor, states, events) && k < |events| && Loses(states[k], events[k])
    ensures var n, t := Losses(states, events, k + 1), states[k + 1];
      && n > 0 && t.link.retryCount == n && t.link.reconnectTimer.armed
      && ReconnectDelay(n - 1) == (match n case 1 => 1 case 2 => 2 case 3 => 4 case 4 => 8 case 5 => 16 case _ => 30)
      && (events[k].SocketCloses? && events[k].takenOver ==> ReconnectDelay(n - 1) >= 16)
  {
    forall m | 0 <= m < |events| ensures CountAfter(states[m], events[m], states[m + 1]) {
      CountInRun(hasConductor, states, events, m);
    }
    LossesSoFar(states, events, k + 1);
    DelayInSeconds(Losses(states, events, k + 1) - 1);
    LossArmsTimer(hasConductor, states, events, k);
  }

  lemma LossArmsTimer(hasConductor: bool, states: seq<State>, events: seq<Event>, k: nat)
    requires IsRun(hasConductor, states, events) && k < |events| && Loses(states[k], events[k])
    ensures states[k + 1].link.reconnectTimer.armed
  {
    RunStep(hasConductor, states, events, k);
  }
}
