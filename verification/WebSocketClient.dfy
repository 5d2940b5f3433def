/** One WebSocket connection (src/signaling/websocket_client.cpp): a queue with a single writer,
    and a close that waits for the queue to drain. */
module WebSocketClient {
  import opened Common

  datatype Frame = Frame(data: string, text: bool)

  /** What a callback of the owner may do with the client. */
  datatype Action = Send(data: string) | Close(code: int)

  /** What the owner sees, in order. */
  datatype Seen = Message(data: string) | OnClose(code: int)

  /** The fields of the client, the operations in progress, and what has happened so far:
      the frames accepted by Queue, those handed to async_write, and the close frames. */
  datatype State = State(
    open: bool, writing: bool, closing: bool, finished: bool, closeCode: int, queue: seq<Frame>,
    connecting: bool, reading: bool, closesInProgress: nat,
    accepted: seq<Frame>, wire: seq<Frame>, closeFrames: nat, seen: seq<Seen>)
  {
    function Finish(code: int): State {
      if finished then this
      else this.(finished := true, open := false, seen := seen + [OnClose(code)],
                 queue := if writing && queue != [] then queue[..1] else [])
    }

    function DoClose(): State {
      this.(closeFrames := closeFrames + 1, closesInProgress := closesInProgress + 1)
    }

    function DoWrite(): State {
      if writing || finished || !open then this
      else if queue == [] then if closing then DoClose() else this
      else this.(writing := true, wire := wire + [queue[0]])
    }

    function Queue(data: string, text: bool): State {
      if finished || closing || !open then this
      else this.(queue := queue + [Frame(data, text)], accepted := accepted + [Frame(data, text)]).DoWrite()
    }

    function DoCloseRequest(code: int): State {
      if finished || closing then this else
        var t := this.(closing := true, closeCode := code);
        if !open then t.Finish(code) else t.DoWrite()
    }

    function Act(a: Action): State {
      match a
      case Send(data) => Queue(data, false)
      case Close(code) => DoCloseRequest(code)
    }

    function ActAll(actions: seq<Action>): State {
      if actions == [] then this else ActAll(actions[..|actions| - 1]).Act(actions[|actions| - 1])
    }

    function OnHandshake(ok: bool, onOpen: seq<Action>): State {
      var t := this.(connecting := false);
      if finished then t
      else if !ok then t.Finish(0)
      else t.(open := true, reading := true).ActAll(onOpen).DoWrite()
    }

    function OnRead(outcome: ReadOutcome): State {
      var t := this.(reading := false);
      if finished then t else t.Handle(outcome)
    }

    function Handle(outcome: ReadOutcome): State {
      match outcome
      case Received(data, text, onMessage) =>
        var u := if text then this else this.(seen := seen + [Message(data)]).ActAll(onMessage);
        if u.finished then u else u.(reading := true)
      case ServerClosed(code) => Finish(code)
      case Lost => Finish(if closing then closeCode else 0)
    }

    function OnWritten(ok: bool): State {
      var t := this.(writing := false);
      if finished then t.(queue := [])
      else if !ok then t.Finish(0)
      else t.(queue := if queue == [] then [] else queue[1..]).DoWrite()
    }

    function OnCloseDone(): State
      requires closesInProgress > 0
    {
      this.(closesInProgress := closesInProgress - 1).Finish(closeCode)
    }
  }

  datatype ReadOutcome =
    | Received(data: string, text: bool, onMessage: seq<Action>)
    | ServerClosed(code: int)
    | Lost

  datatype Event =
    | ConnectFails               // resolve, connect or TLS
    | HandshakeDone(ok: bool)
    | ReadDone(outcome: ReadOutcome)
    | WriteDone(ok: bool)
    | CloseDone
    | Calls(action: Action)      // from outside any callback
    | PingTimer | SilenceTimer

  const INITIAL: State :=
    State(false, false, false, false, 1000, [], true, false, 0, [], [], 0, [])

  predicate Enabled(s: State, e: Event) {
    match e
    case ConnectFails => s.connecting
    case HandshakeDone(_) => s.connecting
    case ReadDone(_) => s.reading
    case WriteDone(_) => s.writing
    case CloseDone => s.closesInProgress > 0
    case Calls(_) => true
    case PingTimer => s.open
    case SilenceTimer => true
  }

  /** `onOpen` is what the owner's open callback does. */
  function Step(onOpen: seq<Action>, s: State, e: Event): State
    requires Enabled(s, e)
  {
    match e
    case ConnectFails => s.(connecting := false).Finish(0)
    case HandshakeDone(ok) => s.OnHandshake(ok, onOpen)
    case ReadDone(outcome) => s.OnRead(outcome)
    case WriteDone(ok) => s.OnWritten(ok)
    case CloseDone => s.OnCloseDone()
    case Calls(action) => s.Act(action)
    case PingTimer => if s.closing then s else s.Queue("ping", true)
    case SilenceTimer => s.Finish(0)
  }

  ghost predicate IsRun(onOpen: seq<Action>, states: seq<State>, events: seq<Event>) {
    && |states| == |events| + 1
    && states[0] == INITIAL
    && forall i :: 0 <= i < |events| ==>
         Enabled(states[i], events[i]) && states[i + 1] == Step(onOpen, states[i], events[i])
  }

  // ----- What every run keeps -----

  /** The frames whose write has completed or failed. */
  function Written(s: State): seq<Frame> {
    if s.writing && s.wire != [] then s.wire[..|s.wire| - 1] else s.wire
  }

  /** At most one write is in progress and its frame stays at the front of the queue; the wire
      carries the accepted frames in order; a close frame goes out only after all of them, with no
      write in progress. */
  ghost predicate WireInOrder(s: State) {
    && (s.writing ==> s.queue != [] && s.wire != [] && s.wire[|s.wire| - 1] == s.queue[0])
    && s.wire <= s.accepted
    && (s.closeFrames > 0 ==> s.closing && !s.writing && s.wire == s.accepted)
  }

  /** Nothing accepted is forgotten before the end. */
  ghost predicate NothingForgotten(s: State) { !s.finished ==> s.accepted == Written(s) + s.queue }

  ghost predicate WriterDiscipline(s: State) { WireInOrder(s) && NothingForgotten(s) }

  /** Nothing gets stuck: queued frames are being written, and a requested close is under way. */
  ghost predicate MakesProgress(s: State) {
    && (s.open && s.queue != [] ==> s.writing)
    && (s.open && s.closing ==> s.writing || s.closesInProgress > 0)
    && (s.open ==> s.reading)
  }

  /** OnClose fires exactly when the client finishes, once, and no message follows it. */
  ghost predicate ClosesOnce(s: State) {
    && (s.finished ==> s.seen != [] && s.seen[|s.seen| - 1].OnClose?)
    && forall i :: 0 <= i < |s.seen| && s.seen[i].OnClose? ==> s.finished && i == |s.seen| - 1
  }

  /** What even a failed write keeps. */
  ghost predicate Sound(s: State) {
    && WireInOrder(s) && ClosesOnce(s)
    && (s.open ==> !s.finished && !s.connecting)
    && (!s.open && !s.finished ==> s.queue == [] && !s.writing && s.closeFrames == 0 && s.closesInProgress == 0)
    && (s.finished ==> |s.queue| == if s.writing then 1 else 0)
    && s.closesInProgress <= s.closeFrames
    && (s.connecting ==> !s.reading)
  }

  /** What is kept between looking at the queue. */
  ghost predicate Consistent(s: State) {
    Sound(s) && NothingForgotten(s) && (!s.open && !s.finished ==> !s.closing)
  }

  ghost predicate Core(s: State) {
    && Consistent(s)
    && (s.open && s.queue != [] ==> s.writing)
    && (s.open && s.closing ==> s.writing || s.closesInProgress > 0)
  }

  ghost predicate Inv(s: State) { Core(s) && (!s.finished ==> (s.open <==> s.reading)) }

  /** At most one close frame has gone out, and only after Close. */
  predicate Single(s: State) { s.closeFrames <= 1 && (s.closeFrames > 0 ==> s.closing) }

  lemma FinishKeepsInv(s: State, code: int)
    requires Sound(s)
    ensures Inv(s.Finish(code)) && s.Finish(code).finished
  {}

  /** Looking at the queue gets things going again. */
  lemma DoWriteKeepsCore(s: State)
    requires Consistent(s)
    ensures Core(s.DoWrite())
  {}

  function Enqueued(s: State, f: Frame): State { s.(queue := s.queue + [f], accepted := s.accepted + [f]) }

  lemma EnqueuedIsConsistent(s: State, f: Frame)
    requires Core(s) && s.open && !s.closing
    ensures Consistent(Enqueued(s, f))
  {
    var t := Enqueued(s, f);
    assert Written(t) == Written(s);
    assert t.accepted == Written(s) + s.queue + [f] == Written(s) + (s.queue + [f]);
  }

  lemma QueueKeepsCore(s: State, data: string, text: bool)
    requires Core(s)
    ensures var t := s.Queue(data, text);
      && Core(t)
      && (if s.open && !s.closing then t.accepted == s.accepted + [Frame(data, text)] && t.writing else t == s)
  {
    if s.open && !s.closing {
      EnqueuedIsConsistent(s, Frame(data, text));
      DoWriteKeepsCore(Enqueued(s, Frame(data, text)));
    }
  }

  lemma CloseKeepsCore(s: State, code: int)
    requires Core(s)
    ensures Core(s.DoCloseRequest(code))
  {
    var t := s.(closing := true, closeCode := code);
    if !s.finished && !s.closing {
      if !s.open { FinishKeepsInv(t, code); } else { DoWriteKeepsCore(t); }
    }
  }

  lemma ActKeepsCore(s: State, a: Action)
    requires Core(s)
    ensures Core(s.Act(a)) && (Single(s) ==> Single(s.Act(a)))
    ensures s.Act(a).reading == s.reading && s.Act(a).connecting == s.connecting
    ensures s.open ==> s.Act(a).open && (s.writing ==> s.Act(a).writing)
    ensures s.closing ==> s.Act(a) == s
  {
    match a
    case Send(data) => QueueKeepsCore(s, data, false);
    case Close(code) => CloseKeepsCore(s, code);
  }

  lemma {:induction false} ActionsKeepCore(s: State, actions: seq<Action>)
    requires Core(s)
    ensures var t := s.ActAll(actions);
      && Core(t) && (Single(s) ==> Single(t))
      && t.reading == s.reading && t.connecting == s.connecting
      && (s.open ==> t.open && (s.writing ==> t.writing))
      && (s.closing ==> t == s)
  {
    if actions != [] {
      ActionsKeepCore(s, actions[..|actions| - 1]);
      ActKeepsCore(s.ActAll(actions[..|actions| - 1]), actions[|actions| - 1]);
    }
  }

  lemma {:induction false} ActAllCons(s: State, actions: seq<Action>)
    requires actions != []
    ensures s.ActAll(actions) == s.Act(actions[0]).ActAll(actions[1..])
  {
    if |actions| == 1 {
      assert actions[..0] == [] && actions[1..] == [];
    } else {
      var front := actions[..|actions| - 1];
      ActAllCons(s, front);
      assert front[1..] == actions[1..][..|actions| - 2];
    }
  }

  /** The open callback closes the client before sending anything. */
  predicate ClosesFirst(onOpen: seq<Action>) { onOpen != [] && onOpen[0].Close? }

  /** The handshake completes: the open callback runs, and the queue is looked at once more. */
  lemma HandshakeKeepsInv(s: State, onOpen: seq<Action>)
    requires Inv(s) && s.connecting && !s.finished
    ensures var t := s.OnHandshake(true, onOpen);
      && Inv(t) && t.reading
      && (if ClosesFirst(onOpen) then t.closeFrames == 2 else Single(t))
  {
    var u := s.(connecting := false, open := true, reading := true);
    ActionsKeepCore(u, onOpen);
    if onOpen != [] {
      ActAllCons(u, onOpen);
      var v := u.Act(onOpen[0]);
      ActKeepsCore(u, onOpen[0]);
      ActionsKeepCore(v, onOpen[1..]);
    }
  }

  lemma WrittenKeepsInv(s: State, ok: bool)
    requires Inv(s) && s.writing
    ensures Inv(s.OnWritten(ok))
    ensures Single(s) ==> Single(s.OnWritten(ok))
    ensures s.OnWritten(ok).reading == s.reading
  {
    if !s.finished {
      assert s.accepted == s.wire + s.queue[1..];
    }
  }

  lemma StopReading(s: State)
    requires Inv(s)
    ensures Core(s.(reading := false))
  {}

  lemma MessageKeepsInv(s: State, data: string, onMessage: seq<Action>)
    requires Inv(s) && s.reading && !s.finished
    ensures var t := s.OnRead(Received(data, false, onMessage)); Inv(t) && (Single(s) ==> Single(t))
  {
    var u := s.(reading := false, seen := s.seen + [Message(data)]);
    StopReading(s);
    assert Core(u);
    ActionsKeepCore(u, onMessage);
  }

  lemma ReadKeepsInv(s: State, outcome: ReadOutcome)
    requires Inv(s) && s.reading
    ensures Inv(s.OnRead(outcome))
    ensures Single(s) ==> Single(s.OnRead(outcome))
  {
    var t := s.(reading := false);
    StopReading(s);
    if !s.finished {
      match outcome
      case Received(data, text, onMessage) =>
        if text {
          assert s.OnRead(outcome) == s;
        } else {
          MessageKeepsInv(s, data, onMessage);
        }
      case ServerClosed(code) => FinishKeepsInv(t, code);
      case Lost => FinishKeepsInv(t, if t.closing then t.closeCode else 0);
    }
  }

  lemma CloseDoneKeepsInv(s: State)
    requires Inv(s) && s.closesInProgress > 0
    ensures Inv(s.OnCloseDone()) && (Single(s) ==> Single(s.OnCloseDone()))
  {}

  lemma PingKeepsInv(s: State)
    requires Inv(s) && s.open && !s.closing
    ensures Inv(s.Queue("ping", true)) && (Single(s) ==> Single(s.Queue("ping", true)))
  {
    QueueKeepsCore(s, "ping", true);
  }

  lemma RestKeepsInv(onOpen: seq<Action>, s: State, e: Event)
    requires Inv(s) && Enabled(s, e)
    requires e.ConnectFails? || e.CloseDone? || e.PingTimer? || e.SilenceTimer?
    ensures Inv(Step(onOpen, s, e))
    ensures Single(s) ==> Single(Step(onOpen, s, e))
  {
    match e
    case ConnectFails => FinishKeepsInv(s.(connecting := false), 0);
    case CloseDone => CloseDoneKeepsInv(s);
    case SilenceTimer => FinishKeepsInv(s, 0);
    case PingTimer => if !s.closing { PingKeepsInv(s); }
  }

  lemma StepKeepsInv(onOpen: seq<Action>, s: State, e: Event)
    requires Inv(s) && Enabled(s, e)
    ensures Inv(Step(onOpen, s, e))
    ensures Single(s) && !ClosesFirst(onOpen) ==> Single(Step(onOpen, s, e))
  {
    match e
    case HandshakeDone(ok) =>
      if ok && !s.finished {
        HandshakeKeepsInv(s, onOpen);
      }
    case ReadDone(outcome) => ReadKeepsInv(s, outcome);
    case WriteDone(ok) => WrittenKeepsInv(s, ok);
    case Calls(action) => ActKeepsCore(s, action);
    case _ => RestKeepsInv(onOpen, s, e);
  }

  lemma {:induction false} RunInv(onOpen: seq<Action>, states: seq<State>, events: seq<Event>, i: nat)
    requires IsRun(onOpen, states, events) && i < |states|
    ensures Inv(states[i])
    ensures !ClosesFirst(onOpen) ==> Single(states[i])
  {
    if i > 0 {
      RunInv(onOpen, states, events, i - 1);
      assert Enabled(states[i - 1], events[i - 1])
          && states[i] == Step(onOpen, states[i - 1], events[i - 1]);
      StepKeepsInv(onOpen, states[i - 1], events[i - 1]);
    }
  }

  /** Every run keeps the writer's discipline, never gets stuck, and closes once; whatever the
      callbacks do and in whatever order the operations complete. */
  lemma RunsAreDisciplined(onOpen: seq<Action>, states: seq<State>, events: seq<Event>, i: nat)
    requires IsRun(onOpen, states, events) && i < |states|
    ensures WriterDiscipline(states[i]) && MakesProgress(states[i]) && ClosesOnce(states[i])
  {
    RunInv(onOpen, states, events, i);
  }

  lemma NothingMore(onOpen: seq<Action>, s: State, e: Event)
    requires Inv(s) && Enabled(s, e) && s.finished
    ensures var t := Step(onOpen, s, e);
      t.finished && t.seen == s.seen && t.wire == s.wire && t.closeFrames == s.closeFrames
    ensures var t := Step(onOpen, s, e);
      t.accepted == s.accepted && t.closing == s.closing && t.closeCode == s.closeCode && !t.open
  {}

  /** Once OnClose has fired the owner sees nothing more, and nothing more is sent, ever. */
  lemma {:induction false} NothingAfterClose(onOpen: seq<Action>, states: seq<State>, events: seq<Event>,
                                             i: nat, j: nat)
    requires IsRun(onOpen, states, events) && i <= j < |states| && states[i].finished
    ensures states[j].finished && states[j].seen == states[i].seen
    ensures states[j].wire == states[i].wire && states[j].closeFrames == states[i].closeFrames
    decreases j
  {
    if i < j {
      NothingAfterClose(onOpen, states, events, i, j - 1);
      RunInv(onOpen, states, events, j - 1);
      NothingMore(onOpen, states[j - 1], events[j - 1]);
    }
  }

  ghost predicate AtMostOneCloseFrame(onOpen: seq<Action>) {
    forall states: seq<State>, events: seq<Event>, i | IsRun(onOpen, states, events) && 0 <= i < |states| ::
      states[i].closeFrames <= 1
  }

  /** The close frame goes out at most once in every run if and only if the open callback does not
      close the client before it sends anything: DoWrite would then be reached twice with an empty
      queue. */
  lemma OneCloseFrameIff(onOpen: seq<Action>)
    ensures AtMostOneCloseFrame(onOpen) <==> !ClosesFirst(onOpen)
  {
    if ClosesFirst(onOpen) {
      var events := [HandshakeDone(true)];
      var states := [INITIAL, Step(onOpen, INITIAL, HandshakeDone(true))];
      HandshakeKeepsInv(INITIAL, onOpen);
      assert IsRun(onOpen, states, events) && states[1].closeFrames == 2;
    } else {
      forall states: seq<State>, events: seq<Event>, i | IsRun(onOpen, states, events) && 0 <= i < |states|
        ensures states[i].closeFrames <= 1
      {
        RunInv(onOpen, states, events, i);
      }
    }
  }

  // ----- What the owner sees, and what is accepted, in terms of the events alone -----

  /** What the owner's callbacks and calls ask for during an event. */
  function Asked(onOpen: seq<Action>, s: State, e: Event): seq<Action> {
    if s.finished then []
    else match e
      case HandshakeDone(true) => onOpen
      case ReadDone(Received(_, false, onMessage)) => onMessage
      case Calls(action) => [action]
      case _ => []
  }

  function FirstClose(actions: seq<Action>): Option<int> {
    if actions == [] then None else
      var front, last := FirstClose(actions[..|actions| - 1]), actions[|actions| - 1];
      if front.Some? then front else if last.Close? then Some(last.code) else None
  }

  function SentBeforeClose(actions: seq<Action>): seq<Frame> {
    if actions == [] then [] else
      var front, last := actions[..|actions| - 1], actions[|actions| - 1];
      SentBeforeClose(front) + if FirstClose(front).None? && last.Send? then [Frame(last.data, false)] else []
  }

  /** The code of the first close the owner asked for in the first `k` events. */
  function Requested(onOpen: seq<Action>, states: seq<State>, events: seq<Event>, k: nat): Option<int>
    requires k <= |events| < |states|
  {
    if k == 0 then None else
      var before := Requested(onOpen, states, events, k - 1);
      if before.Some? then before else FirstClose(Asked(onOpen, states[k - 1], events[k - 1]))
  }

  /** The binary messages the server sent in the first `k` events. */
  function Heard(states: seq<State>, events: seq<Event>, k: nat): seq<string>
    requires k <= |events| < |states|
  {
    if k == 0 then [] else
      Heard(states, events, k - 1) + HeardIn(states[k - 1], events[k - 1])
  }

  function HeardIn(s: State, e: Event): seq<string> {
    if e.ReadDone? && e.outcome.Received? && !e.outcome.text && !s.finished then [e.outcome.data] else []
  }

  function Messages(seen: seq<Seen>): seq<string> {
    if seen == [] then [] else
      var last := seen[|seen| - 1];
      Messages(seen[..|seen| - 1]) + if last.Message? then [last.data] else []
  }

  /** The client is open while event `e` is handled. */
  predicate OpenDuring(s: State, e: Event) { !s.finished && (s.open || e == HandshakeDone(true)) }

  /** The frames an event has to put on the wire: what the owner sends before it asks for a close,
      and the ping. */
  function FramesOf(onOpen: seq<Action>, s: State, e: Event): seq<Frame> {
    if !OpenDuring(s, e) || s.closing then []
    else if e.PingTimer? then [Frame("ping", true)]
    else SentBeforeClose(Asked(onOpen, s, e))
  }

  function AllFrames(onOpen: seq<Action>, states: seq<State>, events: seq<Event>, k: nat): seq<Frame>
    requires k <= |events| < |states|
  {
    if k == 0 then [] else AllFrames(onOpen, states, events, k - 1) + FramesOf(onOpen, states[k - 1], events[k - 1])
  }

  /** The events that end a client. */
  predicate Ends(s: State, e: Event) {
    match e
    case ConnectFails => true
    case HandshakeDone(ok) => !ok
    case ReadDone(outcome) => !outcome.Received?
    case WriteDone(ok) => !ok
    case CloseDone => true
    case Calls(action) => action.Close? && !s.open
    case PingTimer => false
    case SilenceTimer => true
  }

  /** The code an ending is reported with: the server's, the one the owner asked for, or none. */
  function EndCode(e: Event, requested: Option<int>): int {
    match e
    case ReadDone(ServerClosed(code)) => code
    case ReadDone(Lost) => if requested.Some? then requested.value else 0
    case CloseDone => if requested.Some? then requested.value else 0
    case Calls(Close(code)) => code
    case _ => 0
  }

  lemma MessagesAppend(seen: seq<Seen>, last: Seen)
    ensures Messages(seen + [last]) == Messages(seen) + if last.Message? then [last.data] else []
  {
    assert (seen + [last])[..|seen|] == seen;
  }

  /** What is asked of an open client changes neither what was seen nor that it is open. */
  lemma {:induction false} ActAllWhileOpen(s: State, actions: seq<Action>)
    requires s.open && !s.finished
    ensures var t, close := s.ActAll(actions), FirstClose(actions);
      && t.open && !t.finished && t.seen == s.seen
      && t.closing == (s.closing || close.Some?)
      && t.closeCode == (if !s.closing && close.Some? then close.value else s.closeCode)
      && t.accepted == s.accepted + (if s.closing then [] else SentBeforeClose(actions))
  {
    if actions != [] {
      ActAllWhileOpen(s, actions[..|actions| - 1]);
    }
  }

  /** One event: what the owner then sees. */
  lemma SeenStep(onOpen: seq<Action>, s: State, e: Event)
    requires Inv(s) && Enabled(s, e) && !s.finished
    ensures var t := Step(onOpen, s, e);
      && (t.finished <==> Ends(s, e))
      && (if Ends(s, e) then t.seen == s.seen + [OnClose(EndCode(e, if s.closing then Some(s.closeCode) else None))]
          else t.seen == s.seen + (if HeardIn(s, e) == [] then [] else [Message(HeardIn(s, e)[0])]))
  {
    match e
    case HandshakeDone(true) => ActAllWhileOpen(s.(connecting := false, open := true, reading := true), onOpen);
    case ReadDone(Received(data, false, onMessage)) =>
      ActAllWhileOpen(s.(reading := false, seen := s.seen + [Message(data)]), onMessage);
    case _ =>
  }

  /** What an event changes of what the owner asked for. */
  predicate AsksFor(onOpen: seq<Action>, s: State, e: Event, t: State) {
    var close := FirstClose(Asked(onOpen, s, e));
    && t.closing == (s.closing || close.Some?)
    && t.closeCode == (if !s.closing && close.Some? then close.value else s.closeCode)
    && t.accepted == s.accepted + FramesOf(onOpen, s, e)
    && t.open == (OpenDuring(s, e) && !Ends(s, e))
  }

  lemma HandshakeAsksFor(onOpen: seq<Action>, s: State)
    requires Inv(s) && s.connecting && !s.finished
    ensures AsksFor(onOpen, s, HandshakeDone(true), s.OnHandshake(true, onOpen))
  {
    ActAllWhileOpen(s.(connecting := false, open := true, reading := true), onOpen);
  }

  lemma MessageAsksFor(onOpen: seq<Action>, s: State, data: string, onMessage: seq<Action>)
    requires Inv(s) && s.reading && !s.finished
    ensures var outcome := Received(data, false, onMessage);
      AsksFor(onOpen, s, ReadDone(outcome), s.OnRead(outcome))
  {
    ActAllWhileOpen(s.(reading := false, seen := s.seen + [Message(data)]), onMessage);
  }

  lemma CallAsksFor(onOpen: seq<Action>, s: State, action: Action)
    requires Inv(s) && !s.finished
    ensures AsksFor(onOpen, s, Calls(action), s.Act(action))
  {
    var actions := Asked(onOpen, s, Calls(action));
    assert actions == [action] && actions[..0] == [];
    assert FirstClose(actions) == if action.Close? then Some(action.code) else None;
    assert SentBeforeClose(actions) == if action.Send? then [Frame(action.data, false)] else [];
  }

  lemma OthersAskForNothing(onOpen: seq<Action>, s: State, e: Event)
    requires Inv(s) && Enabled(s, e) && !s.finished && !e.Calls? && !e.HandshakeDone?
    requires e.ReadDone? ==> !e.outcome.Received? || e.outcome.text
    ensures AsksFor(onOpen, s, e, Step(onOpen, s, e))
  {
    assert Asked(onOpen, s, e) == [];
  }

  /** One event: what is accepted, and whether a close is asked for. */
  lemma AskedStep(onOpen: seq<Action>, s: State, e: Event)
    requires Inv(s) && Enabled(s, e) && !s.finished
    ensures AsksFor(onOpen, s, e, Step(onOpen, s, e))
  {
    match e
    case HandshakeDone(true) => HandshakeAsksFor(onOpen, s);
    case HandshakeDone(false) => assert Asked(onOpen, s, e) == [];
    case ReadDone(Received(data, false, onMessage)) => MessageAsksFor(onOpen, s, data, onMessage);
    case Calls(action) => CallAsksFor(onOpen, s, action);
    case _ => OthersAskForNothing(onOpen, s, e);
  }

  /** In every run the owner has seen exactly the server's binary messages, in order, until the
      client finished. */
  lemma {:induction false} MessagesReachTheOwner(onOpen: seq<Action>, states: seq<State>, events: seq<Event>, i: nat)
    requires IsRun(onOpen, states, events) && i < |states|
    ensures Messages(states[i].seen) == Heard(states, events, i)
  {
    if i > 0 {
      MessagesReachTheOwner(onOpen, states, events, i - 1);
      RunInv(onOpen, states, events, i - 1);
      var s, e := states[i - 1], events[i - 1];
      if s.finished {
        NothingMore(onOpen, s, e);
      } else {
        SeenStep(onOpen, s, e);
        if states[i].seen != s.seen { MessagesAppend(s.seen, states[i].seen[|s.seen|]); }
      }
    }
  }

  /** In every run what was accepted for the wire is exactly what the owner sent while the client was
      open and before it asked for a close, with the pings in between. */
  lemma {:induction false} AcceptedIsWhatWasSent(onOpen: seq<Action>, states: seq<State>, events: seq<Event>, i: nat)
    requires IsRun(onOpen, states, events) && i < |states|
    ensures states[i].accepted == AllFrames(onOpen, states, events, i)
    ensures var requested := Requested(onOpen, states, events, i);
      && states[i].closing == requested.Some?
      && (requested.Some? ==> states[i].closeCode == requested.value)
  {
    if i > 0 {
      AcceptedIsWhatWasSent(onOpen, states, events, i - 1);
      RunInv(onOpen, states, events, i - 1);
      var s, e := states[i - 1], events[i - 1];
      if s.finished {
        NothingMore(onOpen, s, e);
      } else {
        AskedStep(onOpen, s, e);
      }
    }
  }

  /** A client is open from the end of a handshake until it finishes. */
  lemma {:induction false} OpenSinceHandshake(onOpen: seq<Action>, states: seq<State>, events: seq<Event>, i: nat)
    requires IsRun(onOpen, states, events) && i < |states|
    ensures states[i].open <==> !states[i].finished && exists k :: 0 <= k < i && events[k] == HandshakeDone(true)
  {
    if i > 0 {
      OpenSinceHandshake(onOpen, states, events, i - 1);
      RunInv(onOpen, states, events, i - 1);
      RunInv(onOpen, states, events, i);
      var s, e := states[i - 1], events[i - 1];
      if !s.finished {
        AskedStep(onOpen, s, e);
        SeenStep(onOpen, s, e);
      } else {
        NothingMore(onOpen, s, e);
      }
    }
  }

  /** A finished client was ended by one event, and has told its owner the code of that event, after
      everything it had shown before. */
  lemma {:induction false} ClosedWithItsReason(onOpen: seq<Action>, states: seq<State>, events: seq<Event>, i: nat)
    returns (k: nat)
    requires IsRun(onOpen, states, events) && i < |states| && states[i].finished
    ensures k < i && !states[k].finished && Ends(states[k], events[k])
    ensures states[i].seen
         == states[k].seen + [OnClose(EndCode(events[k], Requested(onOpen, states, events, k)))]
  {
    assert i > 0;
    RunInv(onOpen, states, events, i - 1);
    var s, e := states[i - 1], events[i - 1];
    if s.finished {
      k := ClosedWithItsReason(onOpen, states, events, i - 1);
      NothingMore(onOpen, s, e);
    } else {
      k := i - 1;
      SeenStep(onOpen, s, e);
      AcceptedIsWhatWasSent(onOpen, states, events, k);
    }
  }

  /** Until one of these events comes, a client is not finished. */
  lemma NotFinishedBefore(onOpen: seq<Action>, states: seq<State>, events: seq<Event>, i: nat)
    requires IsRun(onOpen, states, events) && i < |events| && !states[i].finished
    ensures states[i + 1].finished <==> Ends(states[i], events[i])
  {
    RunInv(onOpen, states, events, i);
    SeenStep(onOpen, states[i], events[i]);
  }

  // ----- The client itself -----

  class WebSocketClient {
    var open: bool
    var writing: bool
    var closing: bool
    var finished: bool
    var closeCode: int
    var writeQueue: seq<Frame>
    // operations in progress
    var connecting: bool
    var reading: bool
    var closesInProgress: nat
    // history
    ghost var accepted: seq<Frame>
    ghost var wire: seq<Frame>
    ghost var closeFrames: nat
    ghost var seen: seq<Seen>

    ghost function View(): State
      reads this
    {
      State(open, writing, closing, finished, closeCode, writeQueue, connecting, reading,
            closesInProgress, accepted, wire, closeFrames, seen)
    }

    constructor ()
      ensures View() == INITIAL
    {
      open, writing, closing, finished, closeCode := false, false, false, false, 1000;
      writeQueue, connecting, reading, closesInProgress := [], true, false, 0;
      accepted, wire, closeFrames, seen := [], [], 0, [];
    }

    /** The owner is told once, and all bookkeeping is left as in a finished client. */
    method Finish(code: int)
      requires Sound(View())
      modifies this
      ensures View() == old(View()).Finish(code)
      ensures Inv(View()) && finished
      ensures old(finished) ==> View() == old(View())
    {
      FinishKeepsInv(View(), code);
      if finished {
        return;
      }
      finished := true;
      open := false;
      writeQueue := if writing && writeQueue != [] then writeQueue[..1] else [];
      seen := seen + [OnClose(code)];
    }

    method DoClose()
      modifies this
      ensures View() == old(View()).DoClose()
    {
      closesInProgress := closesInProgress + 1;
      closeFrames := closeFrames + 1;
    }

    /** Afterwards queued frames are being written and a requested close is under way. */
    method DoWrite()
      requires Consistent(View())
      modifies this
      ensures View() == old(View()).DoWrite()
      ensures Core(View())
    {
      DoWriteKeepsCore(View());
      if writing || finished || !open {
        return;
      }
      if writeQueue == [] {
        if closing {
          DoClose();
        }
        return;
      }
      writing := true;
      wire := wire + [writeQueue[0]];
    }

    /** A frame is accepted, behind all earlier ones, exactly while the client is open and not
        closing; and then something is being written. */
    method Queue(data: string, text: bool)
      requires Core(View())
      modifies this
      ensures View() == old(View()).Queue(data, text)
      ensures Core(View())
      ensures if old(open && !closing) then accepted == old(accepted) + [Frame(data, text)] && writing
              else View() == old(View())
    {
      QueueKeepsCore(View(), data, text);
      if finished || closing {
        return;
      }
      if !open {
        return;
      }
      EnqueuedIsConsistent(View(), Frame(data, text));
      writeQueue := writeQueue + [Frame(data, text)];
      accepted := accepted + [Frame(data, text)];
      DoWrite();
    }

    /** Afterwards the client is finished, or the close will follow the frames accepted before it. */
    method Close(code: int)
      requires Core(View())
      modifies this
      ensures View() == old(View()).DoCloseRequest(code)
      ensures Core(View()) && accepted == old(accepted)
      ensures finished || (closing && (writing || closesInProgress > 0))
    {
      if finished || closing {
        return;
      }
      closing := true;
      closeCode := code;
      if !open {
        Finish(code);
        return;
      }
      DoWrite();
    }

    /** Runs a callback of the owner. */
    method RunCallback(actions: seq<Action>)
      requires Core(View())
      modifies this
      ensures View() == old(View()).ActAll(actions)
      ensures Core(View())
    {
      var i := 0;
      while i < |actions|
        invariant 0 <= i <= |actions|
        invariant View() == old(View()).ActAll(actions[..i]) && Core(View())
      {
        match actions[i] {
          case Send(data) => Queue(data, false);
          case Close(code) => Close(code);
        }
        assert actions[..i + 1][..i] == actions[..i];
        i := i + 1;
      }
      assert actions[..i] == actions;
    }

    method OnHandshake(ok: bool, onOpen: seq<Action>)
      requires Inv(View()) && connecting
      modifies this
      ensures View() == Step(onOpen, old(View()), HandshakeDone(ok)) && Inv(View())
    {
      StepKeepsInv(onOpen, View(), HandshakeDone(ok));
      connecting := false;
      if finished {
        return;
      }
      if !ok {
        Finish(0);
        return;
      }
      open := true;
      reading := true;
      RunCallback(onOpen);
      DoWrite();
    }

    /** A message for the owner, who may use the client at once. */
    method Deliver(data: string, onMessage: seq<Action>)
      requires Core(View()) && !finished
      modifies this
      ensures View() == old(View().(seen := seen + [Message(data)]).ActAll(onMessage))
      ensures Core(View())
    {
      seen := seen + [Message(data)];
      RunCallback(onMessage);
    }

    method OnRead(outcome: ReadOutcome, ghost onOpen: seq<Action>)
      requires Inv(View()) && reading
      modifies this
      ensures View() == Step(onOpen, old(View()), ReadDone(outcome)) && Inv(View())
    {
      StepKeepsInv(onOpen, View(), ReadDone(outcome));
      StopReading(View());
      reading := false;
      if finished {
        return;
      }
      Handle(outcome);
    }

    method Handle(outcome: ReadOutcome)
      requires Core(View()) && !finished
      modifies this
      ensures View() == old(View()).Handle(outcome)
    {
      match outcome
      case ServerClosed(code) => Finish(code);
      case Lost => Finish(if closing then closeCode else 0);
      case Received(data, text, onMessage) =>
        if !text {
          Deliver(data, onMessage);
        }
        if !finished {
          reading := true;
        }
    }

    method OnWritten(ok: bool, ghost onOpen: seq<Action>)
      requires Inv(View()) && writing
      modifies this
      ensures View() == Step(onOpen, old(View()), WriteDone(ok)) && Inv(View())
    {
      StepKeepsInv(onOpen, View(), WriteDone(ok));
      writing := false;
      if finished {
        writeQueue := [];
        return;
      }
      if !ok {
        Finish(0);
        return;
      }
      writeQueue := if writeQueue == [] then [] else writeQueue[1..];
      DoWrite();
    }

    method OnCloseDone(ghost onOpen: seq<Action>)
      requires Inv(View()) && closesInProgress > 0
      modifies this
      ensures View() == Step(onOpen, old(View()), CloseDone) && Inv(View())
    {
      StepKeepsInv(onOpen, View(), CloseDone);
      closesInProgress := closesInProgress - 1;
      Finish(closeCode);
    }
  }
}
