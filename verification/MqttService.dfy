/** The topics of src/signaling/mqtt_service.cpp, and its two maps between clients and peers, which
    messages and the expiry of peers change in any order. */
module MqttService {
  import opened Common

  // ----- Topics -----

  datatype TopicType = Offer | Answer | Ice | Unknown

  function TopicTypeToString(t: TopicType): string {
    match t
    case Offer => "offer"
    case Answer => "answer"
    case Ice => "ice"
    case Unknown => "unknown"
  }

  function GetTopic(uid: string, t: TopicType, clientId: string): string {
    if clientId == "" then uid + "/" + TopicTypeToString(t)
    else uid + "/" + TopicTypeToString(t) + "/" + clientId
  }

  function FindTopicType(uid: string, topic: string): TopicType {
    if GetTopic(uid, Offer, "") + "/" <= topic then Offer
    else if GetTopic(uid, Answer, "") + "/" <= topic then Answer
    else if GetTopic(uid, Ice, "") + "/" <= topic then Ice
    else Unknown
  }

  /** `find`: where the first '/' at or after `from` is, if there is one. */
  function FindSlash(s: string, from: nat): (at: Option<nat>)
    ensures at.Some? ==> from <= at.value < |s| && s[at.value] == '/'
    ensures at.Some? ==> forall i :: from <= i < at.value ==> s[i] != '/'
    ensures at.None? ==> forall i :: from <= i < |s| ==> s[i] != '/'
    decreases |s| - from
  {
    if from >= |s| then None else if s[from] == '/' then Some(from) else FindSlash(s, from + 1)
  }

  function FindClientId(uid: string, topic: string): string {
    var t := FindTopicType(uid, topic);
    var base := GetTopic(uid, t, "");
    if t.Unknown? || |topic| <= |base| || topic[|base|] != '/' then ""
    else
      var start := |base| + 1;
      if start >= |topic| then ""
      else match FindSlash(topic, start)
        case None => topic[start..]
        case Some(end) => topic[start..end]
  }

  function TailType(tail: string): TopicType {
    if "offer/" <= tail then Offer
    else if "answer/" <= tail then Answer
    else if "ice/" <= tail then Ice
    else Unknown
  }

  /** What follows the device's own id in a topic tells its type. */
  lemma TypeFromTail(uid: string, tail: string)
    ensures FindTopicType(uid, uid + "/" + tail) == TailType(tail)
  {
    CommonHead(uid + "/", "offer/", tail);
    CommonHead(uid + "/", "answer/", tail);
    CommonHead(uid + "/", "ice/", tail);
    assert uid + "/" + "offer" + "/" == uid + "/" + "offer/";
    assert uid + "/" + "answer" + "/" == uid + "/" + "answer/";
    assert uid + "/" + "ice" + "/" == uid + "/" + "ice/";
  }

  lemma CommonHead(head: string, a: string, b: string)
    ensures head + a <= head + b <==> a <= b
  {
    assert (head + b)[|head|..] == b;
    if head + a <= head + b {
      assert (head + a)[|head|..] == a;
      assert (head + b)[|head|..|head| + |a|] == a;
    }
  }

  function Tail(t: TopicType, clientId: string): string {
    if clientId == "" then TopicTypeToString(t) else TopicTypeToString(t) + "/" + clientId
  }

  lemma TopicTail(uid: string, t: TopicType, clientId: string)
    ensures GetTopic(uid, t, clientId) == uid + "/" + Tail(t, clientId)
  {
    if clientId != "" {
      assert uid + "/" + TopicTypeToString(t) + "/" + clientId == uid + "/" + (TopicTypeToString(t) + "/" + clientId);
    }
  }

  lemma TailTells(t: TopicType, clientId: string)
    ensures TailType(Tail(t, clientId)) == if clientId == "" then Unknown else t
  {
    var tail := Tail(t, clientId);
    match t
    case Offer =>
      assert tail[0] == 'o';
      if clientId != "" { assert tail[..6] == "offer/"; }
    case Answer =>
      assert tail[0] == 'a';
      if clientId != "" { assert tail[..7] == "answer/"; }
    case Ice =>
      assert tail[0] == 'i';
      if clientId != "" { assert tail[..4] == "ice/"; }
    case Unknown => assert tail[0] == 'u';
  }

  /** The topics as they are written out. */
  lemma TopicsAsWritten(uid: string, clientId: string)
    requires clientId != ""
    ensures GetTopic(uid, Offer, clientId) == uid + "/offer/" + clientId
    ensures GetTopic(uid, Answer, clientId) == uid + "/answer/" + clientId
    ensures GetTopic(uid, Ice, clientId) == uid + "/ice/" + clientId
  {
    assert uid + "/" + "offer" + "/" == uid + "/offer/";
    assert uid + "/" + "answer" + "/" == uid + "/answer/";
    assert uid + "/" + "ice" + "/" == uid + "/ice/";
  }

  /** The type of a topic can be told from it if and only if it names a client (a topic of unknown
      type always looks unknown). */
  lemma TypeRoundTripIff(uid: string, t: TopicType, clientId: string)
    ensures FindTopicType(uid, GetTopic(uid, t, clientId)) == t <==> t.Unknown? || clientId != ""
  {
    TopicTail(uid, t, clientId);
    TypeFromTail(uid, Tail(t, clientId));
    TailTells(t, clientId);
  }

  /** The client of a topic of known type can be told from it if and only if there is no '/' in its
      id. */
  lemma ClientRoundTripIff(uid: string, t: TopicType, clientId: string)
    requires !t.Unknown?
    ensures FindClientId(uid, GetTopic(uid, t, clientId)) == clientId <==> '/' !in clientId
  {
    TypeRoundTripIff(uid, t, clientId);
    if clientId == "" {
      TopicTail(uid, t, "");
      TypeFromTail(uid, Tail(t, ""));
      TailTells(t, "");
    } else {
      var base, topic := GetTopic(uid, t, ""), GetTopic(uid, t, clientId);
      assert topic == base + "/" + clientId;
      AfterBase(base, clientId);
    }
  }

  lemma AfterBase(base: string, id: string)
    requires id != ""
    ensures var topic, start := base + "/" + id, |base| + 1;
      && topic[|base|] == '/' && topic[start..] == id && |topic| == start + |id|
      && (FindSlash(topic, start).None? <==> '/' !in id)
      && (FindSlash(topic, start).Some? ==> topic[start..FindSlash(topic, start).value] != id)
  {
    var topic, start := base + "/" + id, |base| + 1;
    assert forall i :: 0 <= i < |id| ==> topic[start + i] == id[i];
    if '/' in id {
      var i :| 0 <= i < |id| && id[i] == '/';
      assert topic[start + i] == '/';
    }
    match FindSlash(topic, start)
    case Some(end) => assert id[end - start] == '/' && |topic[start..end]| < |id|;
    case None =>
  }

  // ----- Clients and peers -----

  /** Where OnMessage is: it takes the lock twice, and the registry is asked in between. */
  datatype Handler = Idle | LookedUp(client: string, mapped: string) | Created(client: string, peer: string)

  /** `client_id_to_peer_id_` and `peer_id_to_client_id_`; and, as histories, for whom each peer was
      created, which peers were mapped, and which the cleaner has reported. */
  datatype Service = Service(
    toPeer: map<string, string>, toClient: map<string, string>, handler: Handler,
    createdFor: map<string, string>, reported: set<string>, late: set<string>)
  {
    function OnPeerExpired(peer: string): Service {
      if peer !in toClient then this else
        var client := toClient[peer];
        var t := this.(toClient := toClient - {peer});
        if client in toPeer && toPeer[client] == peer then t.(toPeer := toPeer - {client}) else t
    }
  }

  datatype Event =
    | MessageArrives(client: string)
    | PeerFound                       // the registry still has the mapped peer
    | CreateFails
    | PeerCreated(peer: string)
    | Mapped
    | PeerReported(peer: string)      // the cleaner's callback, from another thread
    | Disconnected

  /** Ids of peers are fresh and never empty, and the cleaner reports a peer at most once. */
  predicate Enabled(s: Service, e: Event) {
    match e
    case MessageArrives(client) => s.handler.Idle? && client != ""
    case PeerFound => s.handler.LookedUp? && s.handler.mapped != ""
    case CreateFails => s.handler.LookedUp?
    case PeerCreated(peer) => s.handler.LookedUp? && peer != "" && peer !in s.createdFor
    case Mapped => s.handler.Created?
    case PeerReported(peer) => peer in s.createdFor && peer !in s.reported
    case Disconnected => s.handler.Idle?
  }

  function Step(s: Service, e: Event): Service
    requires Enabled(s, e)
  {
    match e
    case MessageArrives(client) =>
      s.(handler := LookedUp(client, if client in s.toPeer then s.toPeer[client] else ""))
    case PeerFound => s.(handler := Idle)
    case CreateFails => s.(handler := Idle)
    case PeerCreated(peer) =>
      s.(handler := Created(s.handler.client, peer), createdFor := s.createdFor[peer := s.handler.client])
    case Mapped =>
      var client, peer := s.handler.client, s.handler.peer;
      s.(handler := Idle, toPeer := s.toPeer[client := peer], toClient := s.toClient[peer := client],
         late := if peer in s.reported then s.late + {peer} else s.late)
    case PeerReported(peer) => s.OnPeerExpired(peer).(reported := s.reported + {peer})
    case Disconnected => s.(toPeer := map[], toClient := map[], late := {})
  }

  const INITIAL := Service(map[], map[], Idle, map[], {}, {})

  ghost predicate IsRun(states: seq<Service>, events: seq<Event>) {
    && |states| == |events| + 1
    && states[0] == INITIAL
    && forall i :: 0 <= i < |events| ==> Enabled(states[i], events[i]) && states[i + 1] == Step(states[i], events[i])
  }

  /** A client's peer leads back to it; and a peer leads to the client it was created for, whichever
      peer that client has by now. */
  ghost predicate MapsAgree(s: Service) {
    && (forall c <- s.toPeer :: s.toPeer[c] in s.toClient && s.toClient[s.toPeer[c]] == c)
    && (forall p <- s.toClient :: p in s.createdFor && s.createdFor[p] == s.toClient[p])
    && (s.handler.Created? ==> s.handler.peer in s.createdFor && s.createdFor[s.handler.peer] == s.handler.client)
    && (s.handler.Created? ==> s.handler.peer !in s.toClient)
  }

  /** A reported peer is still mapped exactly if it was mapped after it had been reported. */
  ghost predicate StaleOnlyIfLate(s: Service) {
    && (forall p :: p in s.toClient && p in s.reported <==> p in s.late)
    && s.reported <= s.createdFor.Keys
  }

  lemma StepKeepsMaps(s: Service, e: Event)
    requires MapsAgree(s) && Enabled(s, e)
    ensures MapsAgree(Step(s, e))
  {}

  lemma StepKeepsStale(s: Service, e: Event)
    requires MapsAgree(s) && StaleOnlyIfLate(s) && Enabled(s, e)
    ensures StaleOnlyIfLate(Step(s, e))
  {}

  /** In every interleaving of messages and expiries the two maps agree. */
  lemma {:induction false} MapsAlwaysAgree(states: seq<Service>, events: seq<Event>, i: nat)
    requires IsRun(states, events) && i < |states|
    ensures MapsAgree(states[i]) && StaleOnlyIfLate(states[i])
  {
    if i > 0 {
      MapsAlwaysAgree(states, events, i - 1);
      StepKeepsMaps(states[i - 1], events[i - 1]);
      StepKeepsStale(states[i - 1], events[i - 1]);
    }
  }

  lemma StaleStays(s: Service, e: Event, peer: string)
    requires Enabled(s, e) && !e.Disconnected?
    requires peer in s.toClient && peer in s.reported
    ensures peer in Step(s, e).toClient && peer in Step(s, e).reported
  {}

  /** An entry that is stale stays for good, or until the service disconnects. */
  lemma {:induction false} StaleForGood(states: seq<Service>, events: seq<Event>, i: nat, j: nat, peer: string)
    requires IsRun(states, events) && i <= j < |states|
    requires peer in states[i].toClient && peer in states[i].reported
    requires forall k :: i <= k < j ==> !events[k].Disconnected?
    ensures peer in states[j].toClient
    ensures peer in states[j].reported
    decreases j
  {
    if i < j {
      StaleForGood(states, events, i, j - 1, peer);
      StaleStays(states[j - 1], events[j - 1], peer);
    }
  }

  /** There is a run that leaves such an entry: the new peer of a first message expires before the
      handler comes to map it. */
  lemma ReportedBeforeMapped(client: string, peer: string) returns (states: seq<Service>, events: seq<Event>)
    requires client != "" && peer != ""
    ensures IsRun(states, events) && |events| == 4
    ensures peer in states[4].toClient && peer in states[4].reported && peer in states[4].late
  {
    events := [MessageArrives(client), PeerCreated(peer), PeerReported(peer), Mapped];
    var s1 := Step(INITIAL, events[0]);
    var s2 := Step(s1, events[1]);
    var s3 := Step(s2, events[2]);
    states := [INITIAL, s1, s2, s3, Step(s3, events[3])];
  }

  /** A reported peer is taken from every client that has it, and no other client's peer changes: a
      stale report never unmaps a newer peer. */
  lemma ExpiryUnmapsExactlyItsPeer(s: Service, peer: string)
    requires MapsAgree(s)
    ensures s.OnPeerExpired(peer).toPeer == map c | c in s.toPeer && s.toPeer[c] != peer :: s.toPeer[c]
    ensures s.OnPeerExpired(peer).toClient == s.toClient - {peer}
  {}

  // ----- Which peer a client has, in terms of the events -----

  /** The client of the last message that arrived, and the peer that was created last. */
  function LastClient(events: seq<Event>): string {
    if events == [] then "" else
      var last := events[|events| - 1];
      if last.MessageArrives? then last.client else LastClient(events[..|events| - 1])
  }

  function LastCreated(events: seq<Event>): string {
    if events == [] then "" else
      var last := events[|events| - 1];
      if last.PeerCreated? then last.peer else LastCreated(events[..|events| - 1])
  }

  /** The peer a client was mapped to last, unless that peer has been reported since, or the service
      has disconnected. */
  function PeerOf(events: seq<Event>, client: string): Option<string> {
    if events == [] then None else
      var front, last := events[..|events| - 1], events[|events| - 1];
      var before := PeerOf(front, client);
      if last.Mapped? && LastClient(front) == client then Some(LastCreated(front))
      else if last.Disconnected? || (last.PeerReported? && before == Some(last.peer)) then None
      else before
  }

  /** The client a peer was mapped to, unless the peer has been reported since, or the service has
      disconnected. */
  function ClientOf(events: seq<Event>, peer: string): Option<string> {
    if events == [] then None else
      var front, last := events[..|events| - 1], events[|events| - 1];
      if last.Mapped? && LastCreated(front) == peer then Some(LastClient(front))
      else if last.Disconnected? || last == PeerReported(peer) then None
      else ClientOf(front, peer)
  }

  function Entry(m: map<string, string>, key: string): Option<string> {
    if key in m then Some(m[key]) else None
  }

  /** The message that is handled, and the peer that it created. */
  lemma {:induction false} HandlerFollowsEvents(states: seq<Service>, events: seq<Event>, i: nat)
    requires IsRun(states, events) && i < |states|
    ensures var h := states[i].handler;
      && (!h.Idle? ==> h.client == LastClient(events[..i]))
      && (h.Created? ==> h.peer == LastCreated(events[..i]))
  {
    if i > 0 {
      HandlerFollowsEvents(states, events, i - 1);
      assert events[..i][..i - 1] == events[..i - 1];
      assert Enabled(states[i - 1], events[i - 1]) && states[i] == Step(states[i - 1], events[i - 1]);
    }
  }

  /** In every interleaving the two maps hold exactly these. */
  lemma {:induction false} MapsFollowEvents(states: seq<Service>, events: seq<Event>, i: nat, key: string)
    requires IsRun(states, events) && i < |states|
    ensures Entry(states[i].toPeer, key) == PeerOf(events[..i], key)
    ensures Entry(states[i].toClient, key) == ClientOf(events[..i], key)
  {
    if i > 0 {
      MapsFollowEvents(states, events, i - 1, key);
      MapsAlwaysAgree(states, events, i - 1);
      HandlerFollowsEvents(states, events, i - 1);
      assert events[..i][..i - 1] == events[..i - 1];
      MapsStep(states[i - 1], events[i - 1], key);
      assert Enabled(states[i - 1], events[i - 1]) && states[i] == Step(states[i - 1], events[i - 1]);
    }
  }

  lemma MapsStep(s: Service, e: Event, key: string)
    requires MapsAgree(s) && Enabled(s, e)
    ensures var t := Step(s, e);
      && Entry(t.toPeer, key) == (if e.Mapped? && s.handler.client == key then Some(s.handler.peer)
           else if e.Disconnected? || (e.PeerReported? && Entry(s.toPeer, key) == Some(e.peer)) then None
           else Entry(s.toPeer, key))
      && Entry(t.toClient, key) == (if e.Mapped? && s.handler.peer == key then Some(s.handler.client)
           else if e.Disconnected? || e == PeerReported(key) then None
           else Entry(s.toClient, key))
  {
    if e.PeerReported? { ExpiryUnmapsExactlyItsPeer(s, e.peer); }
  }

  /** A message is handled with the peer its client has: the registry is asked for that one. */
  lemma MessageFindsItsPeer(states: seq<Service>, events: seq<Event>, i: nat)
    requires IsRun(states, events) && i < |events| && events[i].MessageArrives?
    ensures var client := events[i].client;
      var peer := PeerOf(events[..i], client);
      states[i + 1].handler == LookedUp(client, if peer.Some? then peer.value else "")
  {
    MapsFollowEvents(states, events, i, events[i].client);
  }

  // ----- The service -----

  /** How asking the registry ends: `found` if it has the mapped peer, `peer` if one is created. */
  function Outcome(found: bool, peer: Option<string>): Event {
    if found then PeerFound else if peer.None? then CreateFails else PeerCreated(peer.value)
  }

  lemma KeepsAgreement(s: Service, e: Event)
    requires Enabled(s, e)
    ensures MapsAgree(s) ==> MapsAgree(Step(s, e))
    ensures MapsAgree(s) && StaleOnlyIfLate(s) ==> StaleOnlyIfLate(Step(s, e))
  {
    if MapsAgree(s) {
      StepKeepsMaps(s, e);
      if StaleOnlyIfLate(s) { StepKeepsStale(s, e); }
    }
  }

  class MqttService {
    var toPeer: map<string, string>
    var toClient: map<string, string>
    var handler: Handler
    ghost var createdFor: map<string, string>
    ghost var reported: set<string>
    ghost var late: set<string>

    ghost function View(): Service reads this {
      Service(toPeer, toClient, handler, createdFor, reported, late)
    }

    constructor ()
      ensures View() == INITIAL
    {
      toPeer, toClient, handler, createdFor, reported, late := map[], map[], Idle, map[], {}, {};
    }

    /** The first part of OnMessage: a message without a known type or a client is ignored. */
    method OnMessage(uid: string, topic: string) returns (mapped: Option<string>)
      requires handler.Idle?
      modifies this
      ensures var client := FindClientId(uid, topic);
        if client == "" then View() == old(View()) && mapped.None?
        else View() == Step(old(View()), MessageArrives(client)) && mapped == Some(handler.mapped)
    {
      if FindTopicType(uid, topic).Unknown? {
        return None;
      }
      var client := FindClientId(uid, topic);
      if client == "" {
        return None;
      }
      var peer := "";
      if client in toPeer {
        peer := toPeer[client];
      }
      handler := LookedUp(client, peer);
      mapped := Some(peer);
    }

    /** `found` is what the registry says of the mapped peer, `peer` the new one, if it is created. */
    method FindOrCreate(found: bool, peer: Option<string>)
      requires handler.LookedUp? && (found ==> handler.mapped != "")
      requires peer.Some? ==> Enabled(View(), PeerCreated(peer.value))
      modifies this
      ensures View() == Step(old(View()), Outcome(found, peer))
      ensures old(MapsAgree(View()) && StaleOnlyIfLate(View())) ==> MapsAgree(View()) && StaleOnlyIfLate(View())
    {
      KeepsAgreement(View(), Outcome(found, peer));
      if found || peer.None? {
        handler := Idle;
        return;
      }
      createdFor := createdFor[peer.value := handler.client];
      handler := Created(handler.client, peer.value);
    }

    method MapPeer()
      requires handler.Created?
      modifies this
      ensures View() == Step(old(View()), Mapped)
      ensures old(MapsAgree(View()) && StaleOnlyIfLate(View())) ==> MapsAgree(View()) && StaleOnlyIfLate(View())
    {
      KeepsAgreement(View(), Mapped);
      toPeer := toPeer[handler.client := handler.peer];
      toClient := toClient[handler.peer := handler.client];
      if handler.peer in reported {
        late := late + {handler.peer};
      }
      handler := Idle;
    }

    method OnPeerExpired(peer: string)
      requires Enabled(View(), PeerReported(peer))
      modifies this
      ensures View() == Step(old(View()), PeerReported(peer))
      ensures old(MapsAgree(View()) && StaleOnlyIfLate(View())) ==> MapsAgree(View()) && StaleOnlyIfLate(View())
    {
      KeepsAgreement(View(), PeerReported(peer));
      reported := reported + {peer};
      if peer !in toClient {
        return;
      }
      var client := toClient[peer];
      if client in toPeer && toPeer[client] == peer {
        toPeer := toPeer - {client};
      }
      toClient := toClient - {peer};
    }
  }
}
