/** The registry of peers in src/signaling/peer_registry.cpp, whose cleaner thread sweeps expired
    peers while they come, go and expire. */
module PeerRegistry {
  import opened Common

  /** Where the cleaner thread is: waiting on its condition, past the wait, going through the map
      under the registry's lock with `todo` still to visit, or done with the lock. */
  datatype Phase = Waiting | Woken | Scanning(todo: set<string>) | Reporting

  /** `peers` says of each registered peer whether it has expired. `wakes` is the number of posted
      calls of Wake. The last four fields are histories: the ids ever added, those the sweeps took
      out, and those terminated and reported after that. */
  datatype Registry = Registry(
    peers: map<string, bool>, wakes: nat, expiryPending: bool, stopped: bool, phase: Phase,
    known: set<string>, swept: seq<string>, terminated: seq<string>, reported: seq<string>)
  {
    predicate Expired(id: string) { id in peers && peers[id] }

    /** A sweep that starts from the beginning is still to come. */
    predicate WillSweep() { wakes > 0 || expiryPending || phase.Woken? }
  }

  datatype Event =
    | Add(id: string, expired: bool)
    | Remove(id: string)
    | Expire(id: string)              // MarkExpired posts a call of Wake
    | WakeRuns
    | WorkerWakes | WorkerLocks | Visit(id: string) | ScanDone
    | TerminateNext | ReportNext | WorkerDone
    | Stop | StopJoined | Start

  /** Whatever holds the registry's lock excludes the other holders; a peer may expire at any time.
      Ids are never used twice. */
  predicate Enabled(r: Registry, e: Event) {
    match e
    case Add(id, _) => id !in r.known && !r.phase.Scanning?
    case Remove(_) => !r.phase.Scanning?
    case Expire(id) => id in r.peers && !r.peers[id]
    case WakeRuns => r.wakes > 0
    case WorkerWakes => r.phase.Waiting? && r.expiryPending && !r.stopped
    case WorkerLocks => r.phase.Woken?
    case Visit(id) => r.phase.Scanning? && id in r.phase.todo
    case ScanDone => r.phase.Scanning? && r.phase.todo == {}
    case TerminateNext => r.phase.Reporting? && |r.terminated| < |r.swept|
    case ReportNext => r.phase.Reporting? && |r.terminated| == |r.swept| && |r.reported| < |r.swept|
    case WorkerDone => r.phase.Reporting? && |r.reported| == |r.swept|
    case Stop => true
    case StopJoined => r.stopped && r.phase.Waiting?
    case Start => r.stopped
  }

  function Step(r: Registry, e: Event): Registry
    requires Enabled(r, e)
  {
    match e
    case Add(id, expired) => r.(peers := r.peers[id := expired], known := r.known + {id})
    case Remove(id) => r.(peers := r.peers - {id})
    case Expire(id) => r.(peers := r.peers[id := true], wakes := r.wakes + 1)
    case WakeRuns => r.(wakes := r.wakes - 1, expiryPending := true)
    case WorkerWakes => r.(expiryPending := false, phase := Woken)
    case WorkerLocks => r.(phase := Scanning(r.peers.Keys))
    case Visit(id) =>
      var t := r.(phase := Scanning(r.phase.todo - {id}));
      if r.Expired(id) then t.(peers := r.peers - {id}, swept := r.swept + [id]) else t
    case ScanDone => r.(phase := Reporting)
    case TerminateNext =>
      if |r.terminated| < |r.swept| then r.(terminated := r.terminated + [r.swept[|r.terminated|]]) else r
    case ReportNext =>
      if |r.reported| < |r.swept| then r.(reported := r.reported + [r.swept[|r.reported|]]) else r
    case WorkerDone => r.(phase := Waiting)
    case Stop => r.(stopped := true)
    case StopJoined => r.(peers := map[])
    case Start => r.(stopped := false)
  }

  const INITIAL := Registry(map[], 0, false, false, Waiting, {}, [], [], [])

  /** Adding counts as one step. */
  ghost predicate IsRun(states: seq<Registry>, events: seq<Event>) {
    && |states| == |events| + 1
    && states[0] == INITIAL
    && forall i :: 0 <= i < |events| ==>
         Enabled(states[i], events[i]) && states[i + 1] == Step(states[i], events[i])
  }

  predicate AddsExpired(e: Event) { e.Add? && e.expired }

  /** No peer that expired before the registry listened to it is added when no sweep is to come. */
  ghost predicate AddsInTime(states: seq<Registry>, events: seq<Event>) {
    |states| == |events| + 1 && forall i :: 0 <= i < |events| && AddsExpired(events[i]) ==> states[i].WillSweep()
  }

  // ----- No expiry is lost -----

  /** Each expired peer still registered will be visited by a sweep. */
  ghost predicate NoneLost(r: Registry) {
    forall id :: r.Expired(id) ==> r.WillSweep() || (r.phase.Scanning? && id in r.phase.todo)
  }

  lemma StepKeepsNoneLost(r: Registry, e: Event)
    requires NoneLost(r) && Enabled(r, e)
    ensures NoneLost(Step(r, e)) <==> (AddsExpired(e) ==> r.WillSweep())
  {
    var t := Step(r, e);
    match e
    case Add(id, expired) =>
      if expired && !r.WillSweep() {
        assert t.Expired(id);
      } else {
        assert forall x :: t.Expired(x) ==> r.Expired(x) || (x == id && expired);
      }
    case Remove(id) => assert forall x :: t.Expired(x) ==> r.Expired(x);
    case Expire(id) =>
    case Visit(id) =>
      forall x | t.Expired(x) ensures t.WillSweep() || x in t.phase.todo {
        assert r.Expired(x) && x != id;
      }
    case StopJoined =>
    case WorkerLocks => assert forall x :: t.Expired(x) ==> x in t.phase.todo;
    case _ => assert forall x :: t.Expired(x) <==> r.Expired(x);
  }

  lemma {:induction false} NoExpiryIsLost(states: seq<Registry>, events: seq<Event>, i: nat)
    requires IsRun(states, events) && AddsInTime(states, events) && i < |states|
    ensures NoneLost(states[i])
  {
    if i > 0 {
      NoExpiryIsLost(states, events, i - 1);
      StepKeepsNoneLost(states[i - 1], events[i - 1]);
    } else {
      assert forall id :: !INITIAL.Expired(id);
    }
  }

  /** A whole run loses no expiry at any moment if and only if each peer that has expired before it
      is added comes while a sweep is still to come. */
  lemma NoExpiryIsLostIff(states: seq<Registry>, events: seq<Event>)
    requires IsRun(states, events)
    ensures (forall i :: 0 <= i < |states| ==> NoneLost(states[i])) <==> AddsInTime(states, events)
  {
    if AddsInTime(states, events) {
      forall i | 0 <= i < |states| ensures NoneLost(states[i]) { NoExpiryIsLost(states, events, i); }
    }
    if forall i :: 0 <= i < |states| ==> NoneLost(states[i]) {
      forall i | 0 <= i < |events| && AddsExpired(events[i]) ensures states[i].WillSweep() {
        assert NoneLost(states[i]) && NoneLost(states[i + 1]);
        StepKeepsNoneLost(states[i], events[i]);
      }
    }
  }

  // ----- Each swept peer is terminated and reported once -----

  ghost predicate Distinct(ids: seq<string>) { forall i, j :: 0 <= i < j < |ids| ==> ids[i] != ids[j] }

  /** No peer is swept twice; all swept peers are terminated, and then reported, in that order. */
  ghost predicate SweptOnce(r: Registry) {
    && Distinct(r.swept)
    && (forall id <- r.swept :: id !in r.peers && id in r.known)
    && r.peers.Keys <= r.known
    && r.reported <= r.terminated <= r.swept
    && (r.phase.Waiting? || r.phase.Woken? ==> r.reported == r.swept)
    && (r.phase.Scanning? ==> r.phase.todo <= r.peers.Keys)
  }

  lemma VisitKeepsSweptOnce(r: Registry, id: string)
    requires SweptOnce(r) && Enabled(r, Visit(id))
    ensures SweptOnce(Step(r, Visit(id)))
  {
    var t := Step(r, Visit(id));
    if r.Expired(id) {
      assert t.swept[..|r.swept|] == r.swept;
      assert id !in r.swept;
    }
  }

  lemma ReportingKeepsSweptOnce(r: Registry, e: Event)
    requires SweptOnce(r) && Enabled(r, e) && (e.TerminateNext? || e.ReportNext? || e.WorkerDone?)
    ensures SweptOnce(Step(r, e))
  {
    var t := Step(r, e);
    match e
    case TerminateNext => assert t.terminated == r.swept[..|r.terminated| + 1];
    case ReportNext => assert t.reported == r.swept[..|r.reported| + 1] && r.terminated == r.swept;
    case WorkerDone => assert r.reported == r.swept;
  }

  lemma StepKeepsSweptOnce(r: Registry, e: Event)
    requires SweptOnce(r) && Enabled(r, e)
    ensures SweptOnce(Step(r, e))
  {
    match e
    case Visit(id) => VisitKeepsSweptOnce(r, id);
    case TerminateNext => ReportingKeepsSweptOnce(r, e);
    case ReportNext => ReportingKeepsSweptOnce(r, e);
    case WorkerDone => ReportingKeepsSweptOnce(r, e);
    case _ =>
  }

  /** In every run, even when peers expire during a sweep, no peer is terminated or reported twice,
      or reported before it is terminated; and when the cleaner waits, all swept peers have been. */
  lemma {:induction false} EachSweptOnce(states: seq<Registry>, events: seq<Event>, i: nat)
    requires IsRun(states, events) && i < |states|
    ensures SweptOnce(states[i])
  {
    if i > 0 {
      EachSweptOnce(states, events, i - 1);
      StepKeepsSweptOnce(states[i - 1], events[i - 1]);
    }
  }

  /** A peer leaves the registry by a sweep only if it had expired. */
  lemma OnlyExpiredAreSwept(r: Registry, e: Event, id: string)
    requires SweptOnce(r) && Enabled(r, e)
    ensures id in Step(r, e).swept && id !in r.swept ==> r.Expired(id) && e == Visit(id)
  {}

  // ----- Who is registered, expired and swept, in terms of the events -----

  /** What takes a peer out: Remove, Stop, or a sweep that finds it expired. */
  predicate LeavesBy(r: Registry, e: Event, id: string) {
    e == Remove(id) || e.StopJoined? || (e == Visit(id) && r.Expired(id))
  }

  /** The peer was added, and nothing has taken it out since. */
  predicate Registered(states: seq<Registry>, events: seq<Event>, i: nat, id: string)
    requires i <= |events| < |states|
  {
    i > 0 &&
      var r, e := states[i - 1], events[i - 1];
      (e.Add? && e.id == id) || (Registered(states, events, i - 1, id) && !LeavesBy(r, e, id))
  }

  /** The peer had expired when it was added last, or has expired since. */
  predicate ExpiredSince(events: seq<Event>, id: string) {
    events != [] &&
      var front, last := events[..|events| - 1], events[|events| - 1];
      if last.Add? && last.id == id then last.expired else last == Expire(id) || ExpiredSince(front, id)
  }

  /** The registry holds exactly the peers that were added and not taken out, and knows exactly which
      of them have expired. */
  lemma {:induction false} RegisteredIff(states: seq<Registry>, events: seq<Event>, i: nat, id: string)
    requires IsRun(states, events) && i < |states|
    ensures id in states[i].peers <==> Registered(states, events, i, id)
    ensures id in states[i].peers ==> (states[i].peers[id] <==> ExpiredSince(events[..i], id))
  {
    if i > 0 {
      RegisteredIff(states, events, i - 1, id);
      assert events[..i][..i - 1] == events[..i - 1];
      assert Enabled(states[i - 1], events[i - 1]) && states[i] == Step(states[i - 1], events[i - 1]);
    }
  }

  /** The visits that find an expired peer, in order. */
  function FoundExpired(states: seq<Registry>, events: seq<Event>, i: nat): seq<string>
    requires i <= |events| < |states|
  {
    if i == 0 then [] else
      var r, e := states[i - 1], events[i - 1];
      FoundExpired(states, events, i - 1) + if e.Visit? && r.Expired(e.id) then [e.id] else []
  }

  /** Exactly the peers that a sweep finds expired are swept, in that order. */
  lemma {:induction false} SweptIsFound(states: seq<Registry>, events: seq<Event>, i: nat)
    requires IsRun(states, events) && i < |states|
    ensures states[i].swept == FoundExpired(states, events, i)
  {
    if i > 0 {
      SweptIsFound(states, events, i - 1);
      assert Enabled(states[i - 1], events[i - 1]) && states[i] == Step(states[i - 1], events[i - 1]);
    }
  }

  // ----- The cleaner gets there -----

  /** The steps that the cleaner and the posted calls take by themselves. */
  predicate OwnStep(e: Event) {
    e.WakeRuns? || e.WorkerWakes? || e.WorkerLocks? || e.Visit? || e.ScanDone?
    || e.TerminateNext? || e.ReportNext? || e.WorkerDone?
  }

  /** Nothing is left to do. */
  predicate Quiet(r: Registry) { r.wakes == 0 && !r.expiryPending && r.phase.Waiting? }

  function Left(r: Registry): nat {
    match r.phase
    case Waiting => 0
    case Woken => 0
    case Scanning(todo) => |todo|
    case Reporting =>
      if |r.terminated| <= |r.swept| && |r.reported| <= |r.swept|
      then (|r.swept| - |r.terminated|) + (|r.swept| - |r.reported|) else 0
  }

  function Stage(r: Registry): nat {
    match r.phase case Waiting => 0 case Woken => 3 case Scanning(_) => 2 case Reporting => 1
  }

  predicate Closer(t: Registry, r: Registry) {
    || t.wakes < r.wakes
    || (t.wakes == r.wakes && !t.expiryPending && r.expiryPending)
    || (t.wakes == r.wakes && t.expiryPending == r.expiryPending
        && (Stage(t) < Stage(r) || (Stage(t) == Stage(r) && Left(t) < Left(r))))
  }

  /** Left alone, a cleaner that has not been stopped always has a step to take until nothing is
      left to do, and each of its steps brings it closer. */
  lemma CleanerGetsThere(r: Registry)
    requires SweptOnce(r) && !r.stopped
    ensures !Quiet(r) ==> exists e :: OwnStep(e) && Enabled(r, e)
    ensures forall e :: OwnStep(e) && Enabled(r, e) ==> Closer(Step(r, e), r)
  {
    if !Quiet(r) { var _ := SomeStep(r); }
    forall e | OwnStep(e) && Enabled(r, e) ensures Closer(Step(r, e), r) {
      OwnStepGetsCloser(r, e);
    }
  }

  lemma SomeStep(r: Registry) returns (e: Event)
    requires SweptOnce(r) && !r.stopped && !Quiet(r)
    ensures OwnStep(e) && Enabled(r, e)
  {
    match r.phase
    case Waiting => e := if r.wakes > 0 then WakeRuns else WorkerWakes;
    case Woken => e := WorkerLocks;
    case Scanning(todo) =>
      if todo == {} {
        e := ScanDone;
      } else {
        if forall id :: id !in todo { assert false; }
        var id :| id in todo;
        e := Visit(id);
      }
    case Reporting =>
      e := if |r.terminated| < |r.swept| then TerminateNext
           else if |r.reported| < |r.swept| then ReportNext
           else WorkerDone;
  }

  lemma OwnStepGetsCloser(r: Registry, e: Event)
    requires SweptOnce(r) && OwnStep(e) && Enabled(r, e)
    ensures Closer(Step(r, e), r)
  {
    if e.Visit? {
      assert |r.phase.todo - {e.id}| < |r.phase.todo|;
    }
  }

  /** Once nothing is left to do, no registered peer has expired, and all those ever swept have been
      terminated and reported. */
  lemma QuietMeansClean(states: seq<Registry>, events: seq<Event>, i: nat)
    requires IsRun(states, events) && i < |states| && Quiet(states[i])
    ensures AddsInTime(states, events) ==> forall id :: !states[i].Expired(id)
    ensures states[i].reported == states[i].terminated == states[i].swept
  {
    if AddsInTime(states, events) { NoExpiryIsLost(states, events, i); }
    EachSweptOnce(states, events, i);
  }

  // ----- The registry -----

  class PeerRegistry {
    var peers: map<string, bool>
    var expiryPending: bool
    var stopped: bool
    ghost var terminated: seq<string>
    ghost var reported: seq<string>

    constructor ()
      ensures peers == map[] && !expiryPending && !stopped && terminated == [] && reported == []
    {
      peers, expiryPending, stopped, terminated, reported := map[], false, false, [], [];
    }

    /** Cleaner::Wake. */
    method Wake()
      modifies this`expiryPending
      ensures expiryPending
    {
      expiryPending := true;
    }

    method Add(id: string, expired: bool)
      modifies this`peers
      ensures peers == old(peers)[id := expired]
    {
      peers := peers[id := expired];
    }

    /** Never gives an expired peer. */
    method Get(id: string) returns (found: Option<string>)
      ensures found == if id in peers && !peers[id] then Some(id) else None
    {
      if id in peers && !peers[id] {
        return Some(id);
      }
      return None;
    }

    method Remove(id: string)
      modifies this
      ensures peers == old(peers) - {id}
      ensures terminated == old(terminated) + (if id in old(peers) then [id] else [])
      ensures reported == old(reported) && expiryPending == old(expiryPending) && stopped == old(stopped)
    {
      if id in peers {
        peers := peers - {id};
        terminated := terminated + [id];
      }
    }

    /** Sweep. The peers in `late` expire while the map is gone through, just before their turn. */
    method Sweep(late: set<string>) returns (expired: seq<string>)
      modifies this
      ensures Distinct(expired)
      ensures forall id :: id in expired <==> id in old(peers) && (old(peers)[id] || id in late)
      ensures peers == map id | id in old(peers) && !(old(peers)[id] || id in late) :: old(peers)[id]
      ensures terminated == old(terminated) + expired && reported == old(reported) + expired
      ensures expiryPending == old(expiryPending) && stopped == old(stopped)
    {
      expired := [];
      var todo := peers.Keys;
      ghost var before := peers;
      while todo != {}
        invariant todo <= before.Keys
        invariant Distinct(expired)
        invariant forall id :: id in expired <==> id in before && id !in todo && (before[id] || id in late)
        invariant peers == map id | id in before && (id in todo || !(before[id] || id in late)) :: before[id]
        invariant terminated == old(terminated) && reported == old(reported)
        invariant expiryPending == old(expiryPending) && stopped == old(stopped)
        decreases |todo|
      {
        if forall id :: id !in todo { assert false; }
        var id :| id in todo;
        if peers[id] || id in late {
          expired := expired + [id];
          peers := peers - {id};
        }
        todo := todo - {id};
      }
      terminated := terminated + expired;
      reported := reported + expired;
    }
  }
}
