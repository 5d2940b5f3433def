/** Offers, glare and renegotiation in src/rtc/rtc_peer.cpp, over the session states of section 3.2
    of RFC 8829. */
module RtcPeer {
  import opened Common

  datatype Signaling = Stable | HaveLocalOffer | HaveRemoteOffer | Closed

  /** What the service that makes a peer decides. */
  datatype Kind = Kind(canRenegotiate: bool, candidatesInSdp: bool)

  /** The peer's side of the negotiation, with what the peer connection still owes it: `reapply`
      remote offers wait for a rollback to be reported, and `answers` answers are being created.
      `owed` remembers that a local offer was rolled back and has not been made again; `emits` is
      whether the local callbacks are set. */
  datatype Negotiation = Negotiation(
    kind: Kind, signaling: Signaling, negotiating: bool, needs: bool, connected: bool,
    reapply: nat, answers: nat, owed: bool, emits: bool)
  {
    function In(state: Signaling): (t: Negotiation)
      ensures t.kind == kind
    {
      this.(signaling := state, negotiating := state.HaveLocalOffer? || state.HaveRemoteOffer?)
    }

    /** A set-description call made in a state that does not allow it is rejected without effect. */
    function CreateOffer(): (t: Negotiation)
      ensures t.kind == kind
    {
      if signaling.Stable? then this.(owed := false).In(HaveLocalOffer) else this
    }

    /** A peer that renegotiates and sends its candidates in the description has no use for the
        callbacks once nothing is left to negotiate. */
    predicate CleansUp() { connected && !needs && kind.canRenegotiate && kind.candidatesInSdp }

    function OnSignalingChange(state: Signaling): (t: Negotiation)
      ensures t.kind == kind
    {
      if !state.Stable? then In(state)
      else if signaling.HaveRemoteOffer? && connected && needs && kind.canRenegotiate
      then In(Stable).(needs := false).CreateOffer()
      else In(Stable).(emits := emits && !CleansUp())
    }

    function OnRenegotiationNeeded(): (t: Negotiation)
      ensures t.kind == kind
    {
      if !kind.canRenegotiate then this
      else if connected && signaling.Stable? then this.(needs := false).CreateOffer()
      else this.(needs := true)
    }

    function OnConnected(): (t: Negotiation)
      ensures t.kind == kind
    {
      var u := this.(connected := true);
      if needs && signaling.Stable? then u.(needs := false).CreateOffer() else u
    }

    function OnClosed(): (t: Negotiation)
      ensures t.kind == kind
    {
      OnSignalingChange(Closed).(connected := false)
    }

    function RemoteOffer(): (t: Negotiation)
      ensures t.kind == kind
    {
      match signaling
      case HaveLocalOffer =>
        this.(needs := needs || kind.canRenegotiate, owed := true, reapply := reapply + 1).OnSignalingChange(Stable)
      case Stable => OnSignalingChange(HaveRemoteOffer).(answers := answers + 1)
      case HaveRemoteOffer => this.(answers := answers + 1)
      case Closed => this
    }

    function RemoteAnswer(): (t: Negotiation)
      ensures t.kind == kind
    {
      if negotiating && signaling.HaveLocalOffer? then OnSignalingChange(Stable) else this
    }

    function OnAnswerCreated(): (t: Negotiation)
      requires answers > 0
      ensures t.kind == kind
    {
      var u := this.(answers := answers - 1);
      if signaling.HaveRemoteOffer? then u.OnSignalingChange(Stable) else u
    }

    function OnRollbackDone(): (t: Negotiation)
      requires reapply > 0
      ensures t.kind == kind
    {
      this.(reapply := reapply - 1).RemoteOffer()
    }
  }

  datatype Event =
    | ServiceOffers          // CreateOffer, called by the services whose peers do not renegotiate
    | RemoteOffers | RemoteAnswers
    | RollbackDone | AnswerCreated
    | NegotiationNeeded
    | Connects | Fails | Closes
    | Terminates

  predicate Enabled(n: Negotiation, e: Event) {
    match e
    case ServiceOffers => !n.kind.canRenegotiate
    case RollbackDone => n.reapply > 0
    case AnswerCreated => n.answers > 0
    case Connects => !n.signaling.Closed?
    case _ => true
  }

  function Step(n: Negotiation, e: Event): Negotiation
    requires Enabled(n, e)
  {
    match e
    case ServiceOffers => n.CreateOffer()
    case RemoteOffers => n.RemoteOffer()
    case RemoteAnswers => n.RemoteAnswer()
    case RollbackDone => n.OnRollbackDone()
    case AnswerCreated => n.OnAnswerCreated()
    case NegotiationNeeded => n.OnRenegotiationNeeded()
    case Connects => n.OnConnected()
    case Fails => n.(connected := false)
    case Closes => n.OnClosed()
    case Terminates => n.OnClosed().(emits := false)
  }

  function Initial(kind: Kind): Negotiation {
    Negotiation(kind, Stable, false, false, false, 0, 0, false, true)
  }

  /** Negotiation is reported to be needed while a local offer is pending and no rollback is about
      to be reported. A peer connection is assumed not to do so: it reports in the stable state. */
  predicate TooEarly(n: Negotiation, e: Event) {
    e.NegotiationNeeded? && n.signaling.HaveLocalOffer? && n.kind.canRenegotiate && n.reapply == 0
  }

  /** `states` follows from `n` by these events, none of which is a report that comes too early. */
  ghost predicate Follows(n: Negotiation, states: seq<Negotiation>, events: seq<Event>) {
    && |states| == |events| + 1
    && states[0] == n
    && forall i :: 0 <= i < |events| ==>
         Enabled(states[i], events[i]) && !TooEarly(states[i], events[i]) && states[i + 1] == Step(states[i], events[i])
  }

  ghost predicate IsRun(kind: Kind, states: seq<Negotiation>, events: seq<Event>) {
    Follows(Initial(kind), states, events)
  }

  // ----- No offer is forgotten -----

  /** A needed negotiation that nothing holds up is under way, except between a rollback and the
      remote offer that follows it. */
  predicate NotForgotten(n: Negotiation) { n.connected && n.signaling.Stable? && n.needs ==> n.reapply > 0 }

  /** From here on no needed negotiation is ever forgotten, whatever happens. */
  ghost predicate Safe(n: Negotiation) {
    forall states: seq<Negotiation>, events: seq<Event>, i | Follows(n, states, events) && 0 <= i < |states| ::
      NotForgotten(states[i])
  }

  predicate Inv(n: Negotiation) {
    && NotForgotten(n)
    && (n.signaling.HaveLocalOffer? && n.needs ==> n.reapply > 0)
    && (n.signaling.HaveRemoteOffer? ==> n.answers > 0)
    && (n.owed && n.kind.canRenegotiate && !n.signaling.Closed? ==> n.needs)
    && (n.needs ==> n.kind.canRenegotiate)
    && (n.negotiating <==> n.signaling.HaveLocalOffer? || n.signaling.HaveRemoteOffer?)
    && (n.signaling.Closed? ==> !n.connected)
  }

  /** What every step keeps, and the one it depends on. */
  lemma StepKeepsInvIff(n: Negotiation, e: Event)
    requires Inv(n) && Enabled(n, e)
    ensures Inv(Step(n, e)) <==> !TooEarly(n, e)
  {}

  lemma {:induction false} FollowsInv(n: Negotiation, states: seq<Negotiation>, events: seq<Event>, i: nat)
    requires Inv(n) && Follows(n, states, events) && i < |states|
    ensures Inv(states[i])
  {
    if i > 0 {
      FollowsInv(n, states, events, i - 1);
      StepKeepsInvIff(states[i - 1], events[i - 1]);
    }
  }

  lemma RunInv(kind: Kind, states: seq<Negotiation>, events: seq<Event>, i: nat)
    requires IsRun(kind, states, events) && i < |states|
    ensures Inv(states[i])
  {
    FollowsInv(Initial(kind), states, events, i);
  }

  lemma InvIsSafe(n: Negotiation)
    requires Inv(n)
    ensures Safe(n)
  {
    forall states: seq<Negotiation>, events: seq<Event>, i | Follows(n, states, events) && 0 <= i < |states|
      ensures NotForgotten(states[i])
    {
      FollowsInv(n, states, events, i);
    }
  }

  /** In every run a peer that is connected and stable does not need to negotiate, unless a remote
      offer is about to be applied again after a rollback; and with nothing left to come back from
      the peer connection, a rolled-back offer has been made again. */
  lemma NeverForgotten(kind: Kind, states: seq<Negotiation>, events: seq<Event>, i: nat)
    requires IsRun(kind, states, events) && i < |states|
    ensures NotForgotten(states[i])
    ensures var n := states[i];
      n.connected && n.kind.canRenegotiate && n.reapply == 0 && n.answers == 0 ==> !n.needs && !n.owed
  {
    RunInv(kind, states, events, i);
  }

  /** After a step no needed negotiation is ever forgotten, if and only if the step is not a report
      that comes too early. */
  lemma SafeIff(n: Negotiation, e: Event)
    requires Inv(n) && Enabled(n, e)
    ensures Safe(Step(n, e)) <==> !TooEarly(n, e)
  {
    if TooEarly(n, e) {
      TooEarlyIsForgotten(n, e);
    } else {
      StepKeepsInvIff(n, e);
      InvIsSafe(Step(n, e));
    }
  }

  /** At any moment of any run, the same of whatever may come next. */
  lemma NextStepIsSafeIff(kind: Kind, states: seq<Negotiation>, events: seq<Event>, i: nat, e: Event)
    requires IsRun(kind, states, events) && i < |states| && Enabled(states[i], e)
    ensures Safe(Step(states[i], e)) <==> !TooEarly(states[i], e)
  {
    RunInv(kind, states, events, i);
    SafeIff(states[i], e);
  }

  /** After such a report it is enough that the peer connects and the remote answer to the pending
      offer comes: the need is then left set, with nothing pending that could act on it. */
  lemma TooEarlyIsForgotten(n: Negotiation, e: Event)
    requires Inv(n) && TooEarly(n, e)
    ensures var t := Step(Step(Step(n, e), Connects), RemoteAnswers);
      t.signaling.Stable? && t.connected && t.needs && t.reapply == 0 && !NotForgotten(t)
    ensures !Safe(Step(n, e))
  {
    var t := Step(n, e);
    var u := Step(t, Connects);
    var states, events := [t, u, Step(u, RemoteAnswers)], [Connects, RemoteAnswers];
    assert Follows(t, states, events) && !NotForgotten(states[2]);
  }

  /** Runs of a renegotiating peer do come to where such a report would be too early: a connected
      peer that offers. */
  lemma LocalOfferPending(kind: Kind) returns (states: seq<Negotiation>, events: seq<Event>)
    requires kind.canRenegotiate
    ensures IsRun(kind, states, events) && |events| == 2
    ensures states[2].connected && TooEarly(states[2], NegotiationNeeded)
  {
    events := [Connects, NegotiationNeeded];
    var connected := Step(Initial(kind), Connects);
    states := [Initial(kind), connected, Step(connected, NegotiationNeeded)];
  }

  // ----- A rolled-back offer is made again -----

  /** How many more rollbacks can be reported before an answer is. */
  function Rollbacks(n: Negotiation): nat {
    2 * n.reapply + if n.signaling.HaveLocalOffer? && n.reapply > 0 then 1 else 0
  }

  /** Lets the peer connection report everything that is pending, and nothing else happen. */
  function Settle(n: Negotiation): Negotiation
    decreases Rollbacks(n), n.answers
  {
    if n.reapply > 0 then Settle(Step(n, RollbackDone))
    else if n.answers > 0 then Settle(Step(n, AnswerCreated))
    else n
  }

  /** Settling comes to an end with a new local offer, if one had been rolled back. */
  lemma {:induction false} RolledBackOfferIsResumed(n: Negotiation)
    requires Inv(n) && n.connected && n.kind.canRenegotiate
    ensures var t := Settle(n);
      && t.reapply == 0 && t.answers == 0 && t.connected && !t.owed && !t.needs
      && (n.owed ==> t.signaling.HaveLocalOffer?)
    decreases Rollbacks(n), n.answers
  {
    if n.owed { SettledOffer(n); }
    if n.reapply > 0 {
      StepKeepsInvIff(n, RollbackDone);
      RolledBackOfferIsResumed(Step(n, RollbackDone));
    } else if n.answers > 0 {
      StepKeepsInvIff(n, AnswerCreated);
      RolledBackOfferIsResumed(Step(n, AnswerCreated));
    }
  }

  /** A local offer, and the need for one, survive settling. */
  lemma {:induction false} SettledOffer(n: Negotiation)
    requires Inv(n) && n.connected && n.kind.canRenegotiate
    requires n.needs || n.signaling.HaveLocalOffer?
    ensures Settle(n).signaling.HaveLocalOffer?
    decreases Rollbacks(n), n.answers
  {
    if n.reapply > 0 {
      StepKeepsInvIff(n, RollbackDone);
      SettledOffer(Step(n, RollbackDone));
    } else if n.answers > 0 {
      StepKeepsInvIff(n, AnswerCreated);
      SettledOffer(Step(n, AnswerCreated));
    }
  }

  // ----- What comes of it, in terms of events and session states alone -----

  /** One step of a run. */
  lemma RunStep(kind: Kind, states: seq<Negotiation>, events: seq<Event>, i: nat)
    requires IsRun(kind, states, events) && i < |events|
    ensures Inv(states[i]) && states[i].kind == kind
    ensures Enabled(states[i], events[i]) && !TooEarly(states[i], events[i])
    ensures states[i + 1] == Step(states[i], events[i])
  {
    RunInv(kind, states, events, i);
    KindStays(kind, states, events, i);
  }

  /** A local offer is made by event `k`. */
  predicate OffersAt(states: seq<Negotiation>, k: nat)
    requires k + 1 < |states|
  {
    !states[k].signaling.HaveLocalOffer? && states[k + 1].signaling.HaveLocalOffer?
  }

  /** Nothing is still to come back from the peer connection. */
  predicate Quiet(n: Negotiation) { n.reapply == 0 && n.answers == 0 }

  /** What is needed after event `k` and has not been offered by it. */
  predicate NeedKept(states: seq<Negotiation>, k: nat)
    requires k + 1 < |states|
  {
    states[k + 1].needs || OffersAt(states, k)
  }

  /** A need stays until an offer is made. */
  lemma NeedStays(n: Negotiation, e: Event)
    requires Inv(n) && Enabled(n, e)
    requires n.needs || (e.NegotiationNeeded? && n.kind.canRenegotiate)
    ensures NeedKept([n, Step(n, e)], 0)
  {}

  lemma NeedStaysAt(kind: Kind, states: seq<Negotiation>, events: seq<Event>, k: nat)
    requires IsRun(kind, states, events) && k < |events|
    requires states[k].needs || (events[k].NegotiationNeeded? && kind.canRenegotiate)
    ensures NeedKept(states, k)
  {
    RunStep(kind, states, events, k);
    NeedStays(states[k], events[k]);
  }

  /** Still needed after event `i`, or else where the offer was made. */
  lemma {:induction false} NeedUntilOffer(states: seq<Negotiation>, i: nat, j: nat) returns (k: Option<nat>)
    requires i < j < |states| && NeedKept(states, i)
    requires forall m :: i < m < j && states[m].needs ==> NeedKept(states, m)
    ensures if k.None? then states[j].needs else i <= k.value < j && OffersAt(states, k.value)
    decreases j
  {
    k := None;
    if j > i + 1 {
      k := NeedUntilOffer(states, i, j - 1);
    }
    if k.None? && !states[j].needs {
      k := Some(j - 1);
    }
  }

  /** Whenever a direct peer is told that negotiation is needed, it has made an offer by the time it
      is connected and nothing is still to come back from the peer connection. */
  lemma NeedLeadsToOffer(kind: Kind, states: seq<Negotiation>, events: seq<Event>, i: nat, j: nat) returns (k: nat)
    requires IsRun(kind, states, events) && i < j < |states| && kind.canRenegotiate
    requires events[i] == NegotiationNeeded && states[j].connected && Quiet(states[j])
    ensures i <= k < j && OffersAt(states, k)
  {
    NeedStaysAt(kind, states, events, i);
    forall m | i < m < j && states[m].needs ensures NeedKept(states, m) {
      NeedStaysAt(kind, states, events, m);
    }
    var offered := NeedUntilOffer(states, i, j);
    RunInv(kind, states, events, j);
    k := offered.value;
  }

  /** The events that give a direct peer a reason to offer. */
  predicate Asks(n: Negotiation, e: Event) {
    e.NegotiationNeeded? || ((e.RemoteOffers? || e.RollbackDone?) && n.signaling.HaveLocalOffer?)
  }

  lemma NeedHasReason(n: Negotiation, e: Event)
    requires Inv(n) && Enabled(n, e) && n.kind.canRenegotiate
    ensures var t := Step(n, e);
      && (t.needs ==> n.needs || Asks(n, e))
      && (!n.signaling.HaveLocalOffer? && t.signaling.HaveLocalOffer? ==> (n.needs || Asks(n, e)) && !t.needs)
  {}

  /** A need that is there after event `k` was there before it, or it has its reason in it; and so has
      an offer, which leaves no need. */
  predicate ReasonAt(states: seq<Negotiation>, events: seq<Event>, k: nat)
    requires k < |events| && k + 1 < |states|
  {
    && (states[k + 1].needs ==> states[k].needs || Asks(states[k], events[k]))
    && (OffersAt(states, k) ==> (states[k].needs || Asks(states[k], events[k])) && !states[k + 1].needs)
  }

  lemma ReasonsInRun(kind: Kind, states: seq<Negotiation>, events: seq<Event>, k: nat)
    requires IsRun(kind, states, events) && k < |events| && kind.canRenegotiate
    ensures ReasonAt(states, events, k)
  {
    RunStep(kind, states, events, k);
    NeedHasReason(states[k], events[k]);
  }

  /** The reason for a need: it came after the last offer that was made. */
  lemma {:induction false} ReasonSinceOffer(states: seq<Negotiation>, events: seq<Event>, j: nat) returns (i: nat)
    requires |states| == |events| + 1 && j < |states| && states[j].needs && !states[0].needs
    requires forall k :: 0 <= k < j ==> ReasonAt(states, events, k)
    ensures i < j && Asks(states[i], events[i])
    ensures forall k :: i <= k < j ==> !OffersAt(states, k)
  {
    assert ReasonAt(states, events, j - 1);
    if Asks(states[j - 1], events[j - 1]) {
      i := j - 1;
    } else {
      i := ReasonSinceOffer(states, events, j - 1);
    }
  }

  /** A direct peer makes no offer that it was not asked for: since the last one, negotiation was
      reported to be needed, or an offer of its own was rolled back. */
  lemma OffersHaveReasons(kind: Kind, states: seq<Negotiation>, events: seq<Event>, k: nat) returns (i: nat)
    requires IsRun(kind, states, events) && k < |events| && kind.canRenegotiate && OffersAt(states, k)
    ensures i <= k && Asks(states[i], events[i])
    ensures forall m :: i <= m < k ==> !OffersAt(states, m)
  {
    forall m | 0 <= m <= k ensures ReasonAt(states, events, m) { ReasonsInRun(kind, states, events, m); }
    if Asks(states[k], events[k]) {
      i := k;
    } else {
      assert ReasonAt(states, events, k) && states[0] == Initial(kind);
      i := ReasonSinceOffer(states, events, k);
    }
  }

  /** A remote offer is answered by event `k`. */
  predicate AnswersAt(states: seq<Negotiation>, k: nat)
    requires k + 1 < |states|
  {
    states[k].signaling.HaveRemoteOffer? && !states[k + 1].signaling.HaveRemoteOffer?
  }

  /** A remote offer waits to be answered, or to be applied again. */
  predicate Waits(n: Negotiation) { n.signaling.HaveRemoteOffer? || n.reapply > 0 }

  predicate WaitKept(states: seq<Negotiation>, k: nat)
    requires k + 1 < |states|
  {
    Waits(states[k + 1]) || AnswersAt(states, k)
  }

  lemma OfferWaits(n: Negotiation, e: Event)
    requires Inv(n) && Enabled(n, e) && (e.RemoteOffers? || Waits(n))
    requires !n.signaling.Closed? && !Step(n, e).signaling.Closed?
    ensures WaitKept([n, Step(n, e)], 0)
  {}

  lemma OfferWaitsAt(kind: Kind, states: seq<Negotiation>, events: seq<Event>, k: nat)
    requires IsRun(kind, states, events) && k < |events| && (events[k].RemoteOffers? || Waits(states[k]))
    requires !states[k].signaling.Closed? && !states[k + 1].signaling.Closed?
    ensures WaitKept(states, k)
  {
    RunStep(kind, states, events, k);
    OfferWaits(states[k], events[k]);
  }

  lemma {:induction false} OfferWaitsUntil(states: seq<Negotiation>, i: nat, j: nat) returns (k: Option<nat>)
    requires i < j < |states| && WaitKept(states, i)
    requires forall m :: i < m < j && Waits(states[m]) ==> WaitKept(states, m)
    ensures if k.None? then Waits(states[j]) else i <= k.value < j && AnswersAt(states, k.value)
    decreases j
  {
    k := None;
    if j > i + 1 {
      k := OfferWaitsUntil(states, i, j - 1);
    }
    if k.None? && !Waits(states[j]) {
      k := Some(j - 1);
    }
  }

  /** Every remote offer, also one that met a local offer, has been answered by the time nothing is
      still to come back from the peer connection, unless it was closed. */
  lemma RemoteOfferIsAnswered(kind: Kind, states: seq<Negotiation>, events: seq<Event>, i: nat, j: nat)
    returns (k: nat)
    requires IsRun(kind, states, events) && i < j < |states| && events[i] == RemoteOffers && Quiet(states[j])
    requires forall k :: i <= k <= j ==> !states[k].signaling.Closed?
    ensures i <= k < j && AnswersAt(states, k)
  {
    OfferWaitsAt(kind, states, events, i);
    forall m | i < m < j && Waits(states[m]) ensures WaitKept(states, m) {
      OfferWaitsAt(kind, states, events, m);
    }
    var answered := OfferWaitsUntil(states, i, j);
    RunInv(kind, states, events, j);
    k := answered.value;
  }

  /** The changes that section 3.2 of RFC 8829 allows: a local offer is made, or answered, or rolled
      back; a remote one comes, or is answered, which may let a local one follow; or it is over. */
  predicate Allowed(from: Signaling, to: Signaling, e: Event) {
    || from == to
    || (from.Stable? && to.HaveLocalOffer? && (e.ServiceOffers? || e.NegotiationNeeded? || e.Connects?))
    || (from.HaveLocalOffer? && to.Stable? && (e.RemoteAnswers? || e.RemoteOffers? || e.RollbackDone?))
    || (from.Stable? && to.HaveRemoteOffer? && (e.RemoteOffers? || e.RollbackDone?))
    || (from.HaveRemoteOffer? && (to.Stable? || to.HaveLocalOffer?) && e.AnswerCreated?)
    || (to.Closed? && (e.Closes? || e.Terminates?))
  }

  /** The session goes from state to state as it may, an answer ends the offer it is for and nothing
      else, and the end is the end. */
  lemma SessionFollowsTheStandard(kind: Kind, states: seq<Negotiation>, events: seq<Event>, i: nat)
    requires IsRun(kind, states, events) && i < |events|
    ensures var from, to, e := states[i].signaling, states[i + 1].signaling, events[i];
      && Allowed(from, to, e)
      && (e.RemoteAnswers? && from.HaveLocalOffer? ==> to.Stable?)
      && (e.RemoteAnswers? && !from.HaveLocalOffer? ==> states[i + 1] == states[i])
      && (e.AnswerCreated? && from.HaveRemoteOffer? ==> !to.HaveRemoteOffer?)
      && (e.Closes? || e.Terminates? ==> to.Closed?)
      && (from.Closed? ==> to.Closed?)
  {
    RunStep(kind, states, events, i);
    StepIsAllowed(states[i], events[i]);
  }

  lemma StepIsAllowed(n: Negotiation, e: Event)
    requires Inv(n) && Enabled(n, e)
    ensures Allowed(n.signaling, Step(n, e).signaling, e)
    ensures n.signaling.Closed? ==> Step(n, e).signaling.Closed?
  {}

  predicate ChangesConnection(e: Event) { e.Connects? || e.Fails? || e.Closes? || e.Terminates? }

  /** The last thing said of the connection in the first `i` events is that it is there. */
  function LastConnects(events: seq<Event>): bool {
    events != [] &&
      var last := events[|events| - 1];
      last.Connects? || (!ChangesConnection(last) && LastConnects(events[..|events| - 1]))
  }

  /** A peer is connected if and only if the last thing said of its connection is that it is. */
  lemma {:induction false} ConnectedIff(kind: Kind, states: seq<Negotiation>, events: seq<Event>, i: nat)
    requires IsRun(kind, states, events) && i < |states|
    ensures states[i].connected <==> LastConnects(events[..i])
  {
    if i > 0 {
      ConnectedIff(kind, states, events, i - 1);
      RunStep(kind, states, events, i - 1);
      ConnectionStep(states[i - 1], events[i - 1]);
      assert events[..i][..i - 1] == events[..i - 1];
    }
  }

  lemma ConnectionStep(n: Negotiation, e: Event)
    requires Enabled(n, e)
    ensures Step(n, e).connected == (e.Connects? || (n.connected && !ChangesConnection(e)))
  {
    if e.RollbackDone? { assert n.(reapply := n.reapply - 1).RemoteOffer().connected == n.connected; }
  }

  /** A peer whose service renegotiates in its own way is never asked to. */
  lemma {:induction false} OthersNeverRenegotiate(kind: Kind, states: seq<Negotiation>, events: seq<Event>, i: nat)
    requires IsRun(kind, states, events) && i < |states| && !kind.canRenegotiate
    ensures !states[i].needs
  {
    RunInv(kind, states, events, i);
    KindStays(kind, states, events, i);
  }

  lemma KindStep(n: Negotiation, e: Event)
    requires Enabled(n, e)
    ensures Step(n, e).kind == n.kind
  {}

  lemma {:induction false} KindStays(kind: Kind, states: seq<Negotiation>, events: seq<Event>, i: nat)
    requires IsRun(kind, states, events) && i < |states|
    ensures states[i].kind == kind
  {
    if i > 0 {
      KindStays(kind, states, events, i - 1);
      KindStep(states[i - 1], events[i - 1]);
    }
  }

  /** The local callbacks of a peer stay until it is terminated, unless it renegotiates and also
      sends its candidates in the description; no service of this program makes such a peer. */
  lemma {:induction false} CallbacksStay(kind: Kind, states: seq<Negotiation>, events: seq<Event>, i: nat)
    requires IsRun(kind, states, events) && i < |states|
    requires !(kind.canRenegotiate && kind.candidatesInSdp)
    ensures states[i].emits <==> forall k :: 0 <= k < i ==> !events[k].Terminates?
  {
    if i > 0 {
      CallbacksStay(kind, states, events, i - 1);
      KindStays(kind, states, events, i - 1);
      CallbacksStep(states[i - 1], events[i - 1]);
    }
  }

  lemma CallbacksStep(n: Negotiation, e: Event)
    requires Enabled(n, e) && !(n.kind.canRenegotiate && n.kind.candidatesInSdp)
    ensures Step(n, e).emits == (n.emits && !e.Terminates?)
  {
    assert !n.CleansUp();
  }

  /** Making an offer in the stable state puts everything in order again. */
  lemma OfferRestoresInv(n: Negotiation)
    requires n.signaling.Stable? && !n.needs
    ensures Inv(n.CreateOffer())
  {}

  /** Coming back to the stable state keeps everything in order, and pays an owed offer at once where
      nothing holds it up. */
  lemma StableKeepsInv(n: Negotiation)
    requires Inv(n) && !n.signaling.Closed?
    ensures var t := n.OnSignalingChange(Stable);
      && Inv(t)
      && (n.signaling.HaveRemoteOffer? && n.connected && n.needs ==> t.signaling.HaveLocalOffer? && !t.owed && !t.needs)
  {}

  // ----- Expiry -----

  datatype Life = Life(expired: bool, notices: nat) {
    function MarkExpired(): Life { Life(true, if expired then notices else notices + 1) }

    function Step(e: Event): Life {
      match e
      case Closes => MarkExpired()
      case Terminates => this.(expired := true)
      case _ => this
    }

    predicate AnnouncedOnce() { notices <= 1 && (notices == 1 ==> expired) }
  }

  function LifeAfter(events: seq<Event>): Life {
    if events == [] then Life(false, 0) else LifeAfter(events[..|events| - 1]).Step(events[|events| - 1])
  }

  predicate Ends(e: Event) { e.Closes? || e.Terminates? }

  /** The first end of the connection is a close, not a Terminate. */
  ghost predicate ClosesFirst(events: seq<Event>) {
    exists k :: 0 <= k < |events| && events[k].Closes? && forall j :: 0 <= j < k ==> !Ends(events[j])
  }

  /** The expiry of a peer is announced at most once, and exactly when the connection closes before
      the peer is terminated. */
  lemma {:induction false} ExpiryIsAnnouncedOnce(events: seq<Event>)
    ensures LifeAfter(events).expired <==> exists k :: 0 <= k < |events| && Ends(events[k])
    ensures LifeAfter(events).notices == if ClosesFirst(events) then 1 else 0
  {
    if events != [] {
      var front, last := events[..|events| - 1], events[|events| - 1];
      ExpiryIsAnnouncedOnce(front);
      assert forall k :: 0 <= k < |front| ==> events[k] == front[k];
      assert LifeAfter(events) == LifeAfter(front).Step(last);
      if ClosesFirst(front) {
        var k :| 0 <= k < |front| && front[k].Closes? && forall j :: 0 <= j < k ==> !Ends(front[j]);
        assert events[k].Closes? && forall j :: 0 <= j < k ==> !Ends(events[j]);
      } else if ClosesFirst(events) {
        var k :| 0 <= k < |events| && events[k].Closes? && forall j :: 0 <= j < k ==> !Ends(events[j]);
        assert k == |front|;
      }
    }
  }

  // ----- The peer -----

  class RtcPeer {
    const kind: Kind
    var signaling: Signaling
    var negotiating: bool
    var needs: bool
    var connected: bool
    var expired: bool
    var notices: nat
    var emits: bool
    // The peer connection.
    var reapply: nat
    var answers: nat
    ghost var owed: bool

    ghost function View(): Negotiation reads this {
      Negotiation(kind, signaling, negotiating, needs, connected, reapply, answers, owed, emits)
    }

    ghost function Announced(): Life reads this { Life(expired, notices) }

    constructor (kind: Kind)
      ensures View() == Initial(kind) && Announced() == LifeAfter([])
    {
      this.kind := kind;
      signaling, negotiating, needs, connected, expired := Stable, false, false, false, false;
      notices, emits, reapply, answers, owed := 0, true, 0, 0, false;
    }

    /** In the stable state a local offer is then pending, no rolled-back one is owed any more, and
        nothing is forgotten; in any other state nothing happens. */
    method CreateOffer()
      modifies this
      ensures View() == old(View().CreateOffer())
      ensures Announced() == old(Announced())
      ensures if old(signaling.Stable?) then signaling.HaveLocalOffer? && !owed else View() == old(View())
      ensures old(signaling.Stable? && !needs) ==> Inv(View())
      decreases 1
    {
      if signaling.Stable? && !needs { OfferRestoresInv(View()); }
      if signaling.HaveLocalOffer? {
        return;
      }
      if signaling.Stable? {
        owed := false;
        OnSignalingChange(HaveLocalOffer);
      }
    }

    /** Back in the stable state nothing is forgotten; and after a remote offer, a connected peer has
        made the local one that was needed. */
    method OnSignalingChange(newState: Signaling)
      modifies this
      ensures View() == old(View()).OnSignalingChange(newState)
      ensures Announced() == old(Announced())
      ensures old(Inv(View()) && !signaling.Closed?) && newState.Stable? ==> Inv(View())
      ensures old(Inv(View()) && signaling.HaveRemoteOffer? && connected && needs) && newState.Stable? ==>
        signaling.HaveLocalOffer? && !owed && !needs
      decreases if newState.Stable? then 2 else 0
    {
      if newState.Stable? && Inv(View()) && !signaling.Closed? { StableKeepsInv(View()); }
      var previous := signaling;
      signaling := newState;
      negotiating := newState.HaveLocalOffer? || newState.HaveRemoteOffer?;
      if newState.Stable? && previous.HaveRemoteOffer? && connected && needs && kind.canRenegotiate {
        needs := false;
        CreateOffer();
      } else if newState.Stable? && connected && !needs && kind.canRenegotiate && kind.candidatesInSdp {
        emits := false;
      }
    }

    method OnRenegotiationNeeded()
      modifies this
      ensures View() == Step(old(View()), NegotiationNeeded)
      ensures Announced() == old(Announced())
      ensures old(Inv(View())) ==> (Inv(View()) <==> !old(TooEarly(View(), NegotiationNeeded)))
    {
      if Inv(View()) { StepKeepsInvIff(View(), NegotiationNeeded); }
      if !kind.canRenegotiate {
        return;
      }
      needs := true;
      if connected && signaling.Stable? {
        needs := false;
        CreateOffer();
      }
    }

    method OnConnectionChange(e: Event)
      requires (e.Connects? || e.Fails? || e.Closes?) && Enabled(View(), e)
      modifies this
      ensures View() == Step(old(View()), e) && Announced() == old(Announced()).Step(e)
      ensures old(Inv(View())) ==> Inv(View())
    {
      if Inv(View()) { StepKeepsInvIff(View(), e); }
      match e
      case Connects =>
        connected := true;
        if needs && signaling.Stable? {
          needs := false;
          CreateOffer();
        }
      case Fails =>
        connected := false;
      case Closes =>
        OnSignalingChange(Closed);
        connected := false;
        MarkExpired();
    }

    /** However often it is called, the expiry is announced once at most. */
    method MarkExpired()
      modifies this`expired, this`notices
      ensures Announced() == old(Announced()).MarkExpired()
      ensures expired && (old(Announced().AnnouncedOnce()) ==> Announced().AnnouncedOnce())
      ensures old(expired) ==> notices == old(notices)
    {
      if expired {
        return;
      }
      expired := true;
      notices := notices + 1;
    }

    method Terminate()
      modifies this
      ensures View() == Step(old(View()), Terminates) && Announced() == old(Announced()).Step(Terminates)
      ensures old(Inv(View())) ==> Inv(View())
    {
      if Inv(View()) { StepKeepsInvIff(View(), Terminates); }
      connected := false;
      expired := true;
      OnSignalingChange(Closed);
      emits := false;
    }

    method SetRemoteSdp(offer: bool)
      modifies this
      ensures View() == Step(old(View()), if offer then RemoteOffers else RemoteAnswers)
      ensures Announced() == old(Announced())
      ensures old(Inv(View())) ==> Inv(View())
    {
      if Inv(View()) { StepKeepsInvIff(View(), if offer then RemoteOffers else RemoteAnswers); }
      if !negotiating && !offer {
        return;
      }
      if offer && signaling.HaveLocalOffer? {
        RollBack();
        return;
      }
      if offer {
        if signaling.Stable? {
          OnSignalingChange(HaveRemoteOffer);
          answers := answers + 1;
        } else if signaling.HaveRemoteOffer? {
          answers := answers + 1;
        }
      } else if signaling.HaveLocalOffer? {
        OnSignalingChange(Stable);
      }
    }

    /** Glare: the pending local offer gives way to the remote one. */
    method RollBack()
      requires signaling.HaveLocalOffer?
      modifies this
      ensures View() == old(View()).RemoteOffer()
      ensures Announced() == old(Announced())
    {
      if kind.canRenegotiate {
        needs := true;
      }
      owed := true;
      reapply := reapply + 1;
      OnSignalingChange(Stable);
    }

    /** OnSuccess, with an answer. */
    method OnAnswerCreated()
      requires answers > 0
      modifies this
      ensures View() == Step(old(View()), AnswerCreated)
      ensures Announced() == old(Announced())
      ensures old(Inv(View())) ==> Inv(View())
    {
      if Inv(View()) { StepKeepsInvIff(View(), AnswerCreated); }
      answers := answers - 1;
      if signaling.HaveRemoteOffer? {
        OnSignalingChange(Stable);
      }
    }

    /** The callback of a rollback applies the remote offer again. */
    method OnRollbackDone()
      requires reapply > 0
      modifies this
      ensures View() == Step(old(View()), RollbackDone)
      ensures Announced() == old(Announced())
      ensures old(Inv(View())) ==> Inv(View())
    {
      if Inv(View()) { StepKeepsInvIff(View(), RollbackDone); }
      reapply := reapply - 1;
      SetRemoteSdp(true);
    }
  }
}
