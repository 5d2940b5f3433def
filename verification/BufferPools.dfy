/** The bounded queue of src/common/thread_safe_queue.h, and the two pools whose buffers travel
    through it: JetsonScaler (src/codecs/jetson/jetson_scaler.cpp) and the input buffers of
    V4L2Codec (src/codecs/v4l2/v4l2_codec.cpp). */
module BufferPools {
  import opened Common

  // ----- The queue -----

  /** `push`: a full queue refuses. */
  function Push<T>(queue: seq<T>, maxSize: nat, t: T): (r: seq<T>)
    ensures r == if |queue| >= maxSize then queue else queue + [t]
  {
    if |queue| < maxSize then queue + [t] else queue
  }

  class ThreadSafeQueue<T(0)> {
    var queue: seq<T>
    const maxSize: nat

    ghost predicate Valid() reads this { |queue| <= maxSize }

    constructor (maxSize: nat)
      ensures Valid() && queue == [] && this.maxSize == maxSize
    {
      this.queue, this.maxSize := [], maxSize;
    }

    method Push(t: T) returns (ok: bool)
      requires Valid()
      modifies this
      ensures Valid() && ok == (|old(queue)| < maxSize)
      ensures queue == if ok then old(queue) + [t] else old(queue)
    {
      if |queue| >= maxSize {
        return false;
      }
      queue := queue + [t];
      return true;
    }

    /** Both forms of `pop`: the one with a timeout gives nothing when the queue stays empty. */
    method Pop() returns (item: Option<T>)
      requires Valid()
      modifies this
      ensures Valid() && (item.None? <==> old(queue) == [])
      ensures item.None? ==> queue == []
      ensures item.Some? ==> old(queue) == [item.value] + queue
    {
      if queue == [] {
        return None;
      }
      item := Some(queue[0]);
      queue := queue[1..];
    }

    method Clear()
      modifies this
      ensures Valid() && queue == []
    {
      queue := [];
    }
  }

  lemma PoppedBag(queue: seq<int>)
    requires queue != []
    ensures multiset(queue) == multiset{queue[0]} + multiset(queue[1..])
  {
    assert queue == [queue[0]] + queue[1..];
  }

  // ----- The scaler's surfaces -----

  const NUM_BUFFER := 2

  /** Where the surfaces are: in the two queues, with a thread inside EmplaceBuffer, with the worker
      running a capture's callback, or lost because a full queue refused them. */
  datatype Scaler = Scaler(
    free: seq<int>, tasks: seq<int>, producers: multiset<int>, worker: Option<int>, lost: multiset<int>)
  {
    function Working(): multiset<int> { Bag(worker) }

    function OnHand(): seq<int> { if worker.Some? then [worker.value] else [] }

    function InPlay(): multiset<int> { multiset(free) + multiset(tasks) + producers + Working() }

    function FreePushed(fd: int): Scaler {
      if |free| < NUM_BUFFER then this.(free := free + [fd]) else this.(lost := lost + multiset{fd})
    }
  }

  datatype ScalerStep =
    | Take                      // EmplaceBuffer: pops a free surface
    | GiveBack(fd: int)         // EmplaceBuffer: the transform failed, or the capture queue was full
    | Submit(fd: int)           // EmplaceBuffer: queues the capture
    | WorkerTakes               // CaptureBuffer: takes a queued capture
    | WorkerReturns             // the end of its callback

  predicate ScalerEnabled(s: Scaler, e: ScalerStep) {
    match e
    case Take => true
    case GiveBack(fd) => fd in s.producers
    case Submit(fd) => fd in s.producers
    case WorkerTakes => s.worker.None?
    case WorkerReturns => s.worker.Some?
  }

  /** Each step is one queue operation; those of different threads interleave freely. */
  function ScalerNext(s: Scaler, e: ScalerStep): Scaler
    requires ScalerEnabled(s, e)
  {
    match e
    case Take =>
      if s.free == [] then s else s.(free := s.free[1..], producers := s.producers + multiset{s.free[0]})
    case GiveBack(fd) => s.(producers := s.producers - multiset{fd}).FreePushed(fd)
    case Submit(fd) =>
      if |s.tasks| < NUM_BUFFER then s.(tasks := s.tasks + [fd], producers := s.producers - multiset{fd}) else s
    case WorkerTakes =>
      if s.tasks == [] then s else s.(tasks := s.tasks[1..], worker := Some(s.tasks[0]))
    case WorkerReturns => s.(worker := None).FreePushed(s.worker.value)
  }

  /** Initialize: surfaces are allocated and pushed until one allocation fails. */
  function Allocated(allocations: seq<Option<int>>): seq<int> {
    if allocations == [] || allocations[0].None? then []
    else [allocations[0].value] + Allocated(allocations[1..])
  }

  lemma AllocatedNext(before: seq<int>, allocations: seq<Option<int>>, i: nat)
    requires i < |allocations| && allocations[i].Some?
    ensures before + Allocated(allocations[i..]) == before + [allocations[i].value] + Allocated(allocations[i + 1..])
  {
    assert allocations[i..][1..] == allocations[i + 1..];
  }

  function ScalerInitial(surfaces: seq<int>): Scaler { Scaler(surfaces, [], multiset{}, None, multiset{}) }

  ghost predicate ScalerRun(surfaces: seq<int>, states: seq<Scaler>, steps: seq<ScalerStep>) {
    && |surfaces| <= NUM_BUFFER
    && |states| == |steps| + 1
    && states[0] == ScalerInitial(surfaces)
    && forall i :: 0 <= i < |steps| ==>
         ScalerEnabled(states[i], steps[i]) && states[i + 1] == ScalerNext(states[i], steps[i])
  }

  /** The surfaces are partitioned: each is in exactly one place, and none is lost. */
  ghost predicate ScalerInv(surfaces: seq<int>, s: Scaler) {
    && s.InPlay() == multiset(surfaces)
    && s.lost == multiset{}
  }

  /** Whoever holds a surface finds room for it in either queue. */
  lemma HolderHasRoom(surfaces: seq<int>, s: Scaler)
    requires ScalerInv(surfaces, s) && |surfaces| <= NUM_BUFFER
    requires s.producers != multiset{} || s.worker.Some?
    ensures |s.free| < NUM_BUFFER && |s.tasks| < NUM_BUFFER
  {
    assert |s.InPlay()| == |multiset(surfaces)|;
    assert |s.producers + s.Working()| >= 1;
    assert s.InPlay() == multiset(s.free) + multiset(s.tasks) + (s.producers + s.Working());
  }

  lemma TakeKeeps(s: Scaler)
    ensures ScalerNext(s, Take).InPlay() == s.InPlay()
  {
    if s.free != [] {
      var x, rest := s.free[0], multiset(s.free[1..]);
      PoppedBag(s.free);
      var t := ScalerNext(s, Take);
      assert t.InPlay() == rest + multiset(s.tasks) + (s.producers + multiset{x}) + s.Working();
      assert s.InPlay() == multiset{x} + rest + multiset(s.tasks) + s.producers + s.Working();
    }
  }

  lemma GiveBackKeeps(s: Scaler, fd: int)
    requires fd in s.producers && |s.free| < NUM_BUFFER
    ensures ScalerNext(s, GiveBack(fd)).InPlay() == s.InPlay()
  {
    var t := ScalerNext(s, GiveBack(fd));
    assert t.InPlay()
        == multiset(s.free) + multiset{fd} + multiset(s.tasks) + (s.producers - multiset{fd}) + s.Working();
  }

  lemma SubmitKeeps(s: Scaler, fd: int)
    requires fd in s.producers
    ensures ScalerNext(s, Submit(fd)).InPlay() == s.InPlay()
  {
    if |s.tasks| < NUM_BUFFER {
      var t := ScalerNext(s, Submit(fd));
      assert t.InPlay()
          == multiset(s.free) + (multiset(s.tasks) + multiset{fd}) + (s.producers - multiset{fd}) + s.Working();
    }
  }

  lemma WorkerTakesKeeps(s: Scaler)
    requires s.worker.None?
    ensures ScalerNext(s, WorkerTakes).InPlay() == s.InPlay()
  {
    if s.tasks != [] {
      PoppedBag(s.tasks);
      var t := ScalerNext(s, WorkerTakes);
      assert t.InPlay() == multiset(s.free) + multiset(s.tasks[1..]) + s.producers + multiset{s.tasks[0]};
    }
  }

  lemma WorkerReturnsKeeps(s: Scaler)
    requires s.worker.Some? && |s.free| < NUM_BUFFER
    ensures ScalerNext(s, WorkerReturns).InPlay() == s.InPlay()
  {
    var t := ScalerNext(s, WorkerReturns);
    assert t.InPlay() == multiset(s.free) + multiset{s.worker.value} + multiset(s.tasks) + s.producers + multiset{};
  }

  lemma ScalerNextKeeps(surfaces: seq<int>, s: Scaler, e: ScalerStep)
    requires ScalerInv(surfaces, s) && |surfaces| <= NUM_BUFFER && ScalerEnabled(s, e)
    ensures ScalerInv(surfaces, ScalerNext(s, e))
  {
    if s.producers != multiset{} || s.worker.Some? { HolderHasRoom(surfaces, s); }
    match e
    case Take => TakeKeeps(s);
    case GiveBack(fd) => GiveBackKeeps(s, fd);
    case Submit(fd) => SubmitKeeps(s, fd);
    case WorkerTakes => WorkerTakesKeeps(s);
    case WorkerReturns => WorkerReturnsKeeps(s);
  }

  /** In every interleaving of producers and the worker the surfaces stay partitioned, no surface is
      ever lost, and no push can fail. */
  lemma {:induction false} SurfacesAreConserved(surfaces: seq<int>, states: seq<Scaler>, steps: seq<ScalerStep>, i: nat)
    requires ScalerRun(surfaces, states, steps) && i < |states|
    ensures states[i].InPlay() == multiset(surfaces) && states[i].lost == multiset{}
    ensures states[i].producers != multiset{} || states[i].worker.Some? ==>
      |states[i].free| < NUM_BUFFER && |states[i].tasks| < NUM_BUFFER
  {
    if i > 0 {
      SurfacesAreConserved(surfaces, states, steps, i - 1);
      ScalerNextKeeps(surfaces, states[i - 1], steps[i - 1]);
    }
    if states[i].producers != multiset{} || states[i].worker.Some? {
      HolderHasRoom(surfaces, states[i]);
    }
  }

  /** The surfaces that producers submitted, and those that the worker took, in order. */
  function Submitted(steps: seq<ScalerStep>): seq<int> {
    if steps == [] then [] else
      var last := steps[|steps| - 1];
      Submitted(steps[..|steps| - 1]) + if last.Submit? then [last.fd] else []
  }

  function Taken(states: seq<Scaler>, steps: seq<ScalerStep>, i: nat): seq<int>
    requires i <= |steps| < |states|
  {
    if i == 0 then [] else
      Taken(states, steps, i - 1) + if steps[i - 1].WorkerTakes? then states[i].OnHand() else []
  }

  /** What step `k` does to the queued captures. */
  predicate QueuedAt(states: seq<Scaler>, steps: seq<ScalerStep>, k: nat)
    requires k < |steps| < |states|
  {
    states[k].tasks + (if steps[k].Submit? then [steps[k].fd] else [])
    == (if steps[k].WorkerTakes? then states[k + 1].OnHand() else []) + states[k + 1].tasks
  }

  lemma {:induction false} QueuedSoFar(states: seq<Scaler>, steps: seq<ScalerStep>, i: nat)
    requires |states| == |steps| + 1 && i < |states| && states[0].tasks == []
    requires forall k :: 0 <= k < |steps| ==> QueuedAt(states, steps, k)
    ensures Submitted(steps[..i]) == Taken(states, steps, i) + states[i].tasks
  {
    if i > 0 {
      QueuedSoFar(states, steps, i - 1);
      assert steps[..i][..i - 1] == steps[..i - 1];
      assert QueuedAt(states, steps, i - 1);
      var e, before, after := steps[i - 1], states[i - 1].tasks, states[i].tasks;
      var added, hand := if e.Submit? then [e.fd] else [], if e.WorkerTakes? then states[i].OnHand() else [];
      calc {
        Submitted(steps[..i]);
        Taken(states, steps, i - 1) + before + added;
        Taken(states, steps, i - 1) + (before + added);
        Taken(states, steps, i - 1) + (hand + after);
        Taken(states, steps, i) + after;
      }
    }
  }

  /** In every interleaving the worker takes the submitted frames in order, and none is left out. */
  lemma FramesComeOutInOrder(surfaces: seq<int>, states: seq<Scaler>, steps: seq<ScalerStep>, i: nat)
    requires ScalerRun(surfaces, states, steps) && i < |states|
    ensures Submitted(steps[..i]) == Taken(states, steps, i) + states[i].tasks
  {
    forall k | 0 <= k < |steps| ensures QueuedAt(states, steps, k) {
      SurfacesAreConserved(surfaces, states, steps, k);
      assert ScalerEnabled(states[k], steps[k]) && states[k + 1] == ScalerNext(states[k], steps[k]);
      QueueStep(states[k], steps[k]);
    }
    QueuedSoFar(states, steps, i);
  }

  lemma QueueStep(s: Scaler, e: ScalerStep)
    requires ScalerEnabled(s, e) && (e.Submit? ==> |s.tasks| < NUM_BUFFER)
    ensures var t := ScalerNext(s, e);
      s.tasks + (if e.Submit? then [e.fd] else []) == (if e.WorkerTakes? then t.OnHand() else []) + t.tasks
  {
    if e.WorkerTakes? && s.tasks != [] { assert s.tasks == [s.tasks[0]] + s.tasks[1..]; }
  }

  /** A whole call of EmplaceBuffer that no other thread interrupts. */
  function Emplaced(s: Scaler, transformed: bool): Scaler {
    if s.free == [] then s else
      var fd := s.free[0];
      var taken := ScalerNext(s, Take);
      assert fd in taken.producers;
      ScalerNext(taken, if transformed && |s.tasks| < NUM_BUFFER then Submit(fd) else GiveBack(fd))
  }

  lemma EmplacedIs(s: Scaler, transformed: bool)
    requires s.producers == multiset{} && s.free != [] && |s.free| <= NUM_BUFFER
    ensures Emplaced(s, transformed) == (if transformed && |s.tasks| < NUM_BUFFER
      then s.(free := s.free[1..], tasks := s.tasks + [s.free[0]]) else s.(free := s.free[1..] + [s.free[0]]))
  {
    assert ScalerNext(s, Take).producers - multiset{s.free[0]} == multiset{};
  }

  lemma EmplacedKeeps(surfaces: seq<int>, s: Scaler, transformed: bool)
    requires ScalerInv(surfaces, s) && |surfaces| <= NUM_BUFFER && s.producers == multiset{}
    ensures ScalerInv(surfaces, Emplaced(s, transformed))
    ensures s.free != [] ==> |s.tasks| < NUM_BUFFER
  {
    if s.free != [] {
      var taken := ScalerNext(s, Take);
      ScalerNextKeeps(surfaces, s, Take);
      HolderHasRoom(surfaces, taken);
      ScalerNextKeeps(surfaces, taken, if transformed then Submit(s.free[0]) else GiveBack(s.free[0]));
    }
  }

  function Bag(item: Option<int>): multiset<int> { if item.Some? then multiset{item.value} else multiset{} }

  /** A whole call of CaptureBuffer that no other thread interrupts. */
  function Captured(s: Scaler): Scaler {
    if s.tasks == [] || s.worker.Some? then s else ScalerNext(ScalerNext(s, WorkerTakes), WorkerReturns)
  }

  /** It keeps the partition. */
  lemma CapturedKeeps(surfaces: seq<int>, s: Scaler)
    requires ScalerInv(surfaces, s) && |surfaces| <= NUM_BUFFER
    requires s.tasks != [] && s.producers == multiset{} && s.worker.None?
    ensures |s.free| < NUM_BUFFER
    ensures ScalerInv(surfaces, Captured(s)) && Captured(s) == s.(free := s.free + [s.tasks[0]], tasks := s.tasks[1..])
  {
    ScalerNextKeeps(surfaces, s, WorkerTakes);
    HolderHasRoom(surfaces, ScalerNext(s, WorkerTakes));
    ScalerNextKeeps(surfaces, ScalerNext(s, WorkerTakes), WorkerReturns);
  }

  class JetsonScaler {
    const freeBuffers: ThreadSafeQueue<int>
    const capturingTasks: ThreadSafeQueue<int>
    ghost var surfaces: seq<int>

    ghost predicate Shape() reads this, freeBuffers, capturingTasks {
      && freeBuffers != capturingTasks && |surfaces| <= NUM_BUFFER
      && freeBuffers.maxSize == NUM_BUFFER && capturingTasks.maxSize == NUM_BUFFER
      && freeBuffers.Valid() && capturingTasks.Valid()
    }

    /** The scaler between two calls: no thread holds a surface. */
    ghost function View(): Scaler reads this, freeBuffers, capturingTasks {
      Scaler(freeBuffers.queue, capturingTasks.queue, multiset{}, None, multiset{})
    }

    ghost predicate Valid() reads this, freeBuffers, capturingTasks {
      Shape() && ScalerInv(surfaces, View())
    }

    constructor ()
      ensures Valid() && surfaces == [] && View() == ScalerInitial([])
      ensures fresh(freeBuffers) && fresh(capturingTasks)
    {
      freeBuffers := new ThreadSafeQueue(NUM_BUFFER);
      capturingTasks := new ThreadSafeQueue(NUM_BUFFER);
      surfaces := [];
    }

    /** `allocations` is what the driver answers; a failure leaves the scaler with the surfaces
        allocated before it, for the destructor to release. */
    method Initialize(allocations: seq<Option<int>>) returns (ok: bool)
      requires Valid() && View() == ScalerInitial([]) && |allocations| == NUM_BUFFER
      modifies this`surfaces, freeBuffers
      ensures Valid() && surfaces == Allocated(allocations) && View() == ScalerInitial(surfaces)
      ensures ok <==> |surfaces| == NUM_BUFFER
    {
      var i := 0;
      while i < NUM_BUFFER && allocations[i].Some?
        invariant 0 <= i <= NUM_BUFFER && |freeBuffers.queue| == i && freeBuffers.Valid()
        invariant freeBuffers.queue + Allocated(allocations[i..]) == Allocated(allocations)
        modifies freeBuffers
      {
        AllocatedNext(freeBuffers.queue, allocations, i);
        var _ := freeBuffers.Push(allocations[i].value);
        i := i + 1;
      }
      assert Allocated(allocations[i..]) == [];
      surfaces := freeBuffers.queue;
      ok := i == NUM_BUFFER;
    }

    /** `transformed` is whether the hardware transform succeeded. */
    method EmplaceBuffer(transformed: bool) returns (queued: bool)
      requires Shape()
      modifies freeBuffers, capturingTasks
      ensures Shape() && View() == Emplaced(old(View()), transformed)
      ensures old(Valid()) ==> Valid() && (queued <==> transformed && old(freeBuffers.queue) != [])
      ensures queued ==> old(freeBuffers.queue) != []
      ensures queued ==> capturingTasks.queue == old(capturingTasks.queue) + [old(freeBuffers.queue)[0]]
    {
      if Valid() { EmplacedKeeps(surfaces, View(), transformed); }
      if freeBuffers.queue != [] { EmplacedIs(View(), transformed); }
      var item := freeBuffers.Pop();
      if item.None? {
        return false;
      }
      if !transformed {
        var _ := freeBuffers.Push(item.value);
        return false;
      }
      queued := capturingTasks.Push(item.value);
      if !queued {
        var _ := freeBuffers.Push(item.value);
      }
    }

    /** With the callback of the capture. */
    method CaptureBuffer() returns (delivered: Option<int>)
      requires Valid()
      modifies freeBuffers, capturingTasks
      ensures Valid() && View() == Captured(old(View()))
      ensures delivered == if old(capturingTasks.queue) == [] then None else Some(old(capturingTasks.queue)[0])
    {
      if capturingTasks.queue != [] { CapturedKeeps(surfaces, View()); }
      delivered := capturingTasks.Pop();
      if delivered.Some? {
        var _ := freeBuffers.Push(delivered.value);
      }
    }

    /** The destructor's first loop: unused captures give their surfaces back. */
    method DrainTasks()
      requires Valid()
      modifies freeBuffers, capturingTasks
      ensures Valid() && capturingTasks.queue == []
    {
      while capturingTasks.queue != []
        invariant Valid()
        modifies freeBuffers, capturingTasks
        decreases |capturingTasks.queue|
      {
        CapturedKeeps(surfaces, View());
        var task := capturingTasks.Pop();
        var _ := freeBuffers.Push(task.value);
      }
    }

    /** The destructor: every surface that was allocated is destroyed exactly once. */
    method Destroy() returns (destroyed: seq<int>)
      requires Valid()
      modifies freeBuffers, capturingTasks
      ensures multiset(destroyed) == multiset(surfaces)
      ensures freeBuffers.queue == [] && capturingTasks.queue == []
    {
      DrainTasks();
      destroyed := DestroyFree();
    }

    /** The destructor's second loop: destroys what is free. */
    method DestroyFree() returns (destroyed: seq<int>)
      requires freeBuffers.Valid()
      modifies freeBuffers
      ensures multiset(destroyed) == multiset(old(freeBuffers.queue)) && freeBuffers.queue == []
    {
      ghost var all := freeBuffers.queue;
      destroyed := [];
      while freeBuffers.queue != []
        invariant freeBuffers.Valid()
        invariant multiset(destroyed) + multiset(freeBuffers.queue) == multiset(all)
        modifies freeBuffers
        decreases |freeBuffers.queue|
      {
        PoppedBag(freeBuffers.queue);
        var item := freeBuffers.Pop();
        destroyed := destroyed + [item.value];
      }
    }
  }

  // ----- The codec's input buffers -----

  /** The default capacity of a queue, which is that of the codec's index queue. */
  const QUEUE_SIZE := 8

  /** Where the input indices are: free, with a thread inside EmplaceBuffer, with the driver, or lost. */
  datatype Codec = Codec(free: seq<int>, hands: multiset<int>, driver: multiset<int>, lost: multiset<int>) {
    function InPlay(): multiset<int> { multiset(free) + hands + driver }

    function FreePushed(index: int): Codec {
      if |free| < QUEUE_SIZE then this.(free := free + [index]) else this.(lost := lost + multiset{index})
    }
  }

  datatype CodecStep =
    | Pop                       // EmplaceBuffer: takes a free index
    | Refuse(index: int)        // EmplaceBuffer: the frame does not fit, or queueing failed
    | Queue(index: int)         // EmplaceBuffer: QueueBuffer succeeds
    | Dequeue(index: int)       // CaptureBuffer: the driver is done with an input

  predicate CodecEnabled(c: Codec, e: CodecStep) {
    match e
    case Pop => true
    case Refuse(i) => i in c.hands
    case Queue(i) => i in c.hands
    case Dequeue(i) => i in c.driver
  }

  function CodecNext(c: Codec, e: CodecStep): Codec
    requires CodecEnabled(c, e)
  {
    match e
    case Pop => if c.free == [] then c else c.(free := c.free[1..], hands := c.hands + multiset{c.free[0]})
    case Refuse(i) => c.(hands := c.hands - multiset{i}).FreePushed(i)
    case Queue(i) => c.(hands := c.hands - multiset{i}, driver := c.driver + multiset{i})
    case Dequeue(i) => c.(driver := c.driver - multiset{i}).FreePushed(i)
  }

  function UpTo(n: nat): seq<int> { seq(n, i => i) }

  function Usable(bufferNum: nat): nat { if bufferNum < QUEUE_SIZE then bufferNum else QUEUE_SIZE }

  function Beyond(bufferNum: nat): (r: set<int>)
    ensures forall i :: i in r <==> QUEUE_SIZE <= i < bufferNum
  {
    if bufferNum <= QUEUE_SIZE then {} else Beyond(bufferNum - 1) + {bufferNum - 1}
  }

  /** The queue takes the first eight indices; the others are lost. */
  function Prepared(bufferNum: nat): Codec {
    Codec(UpTo(Usable(bufferNum)), multiset{}, multiset{}, multiset(Beyond(bufferNum)))
  }

  lemma PreparedNext(n: nat)
    ensures Prepared(n + 1) == Prepared(n).FreePushed(n)
  {
    if n < QUEUE_SIZE {
      assert UpTo(n + 1) == UpTo(n) + [n];
    } else {
      assert Beyond(n + 1) == Beyond(n) + {n};
    }
  }

  /** PrepareBuffer pushes the indices of the output buffers one after the other. */
  method PrepareBuffer(bufferNum: nat) returns (c: Codec)
    ensures c == Prepared(bufferNum)
  {
    c := Codec([], multiset{}, multiset{}, multiset{});
    assert UpTo(0) == [] && Beyond(0) == {};
    for i := 0 to bufferNum
      invariant c == Prepared(i)
    {
      PreparedNext(i);
      c := c.FreePushed(i);
    }
  }

  ghost predicate CodecRun(bufferNum: nat, states: seq<Codec>, steps: seq<CodecStep>) {
    && |states| == |steps| + 1
    && states[0] == Prepared(bufferNum)
    && forall i :: 0 <= i < |steps| ==>
         CodecEnabled(states[i], steps[i]) && states[i + 1] == CodecNext(states[i], steps[i])
  }

  lemma IndexHolderHasRoom(c: Codec)
    requires |c.InPlay()| <= QUEUE_SIZE && (c.hands != multiset{} || c.driver != multiset{})
    ensures |c.free| < QUEUE_SIZE
  {
    assert |c.hands + c.driver| >= 1;
    assert c.InPlay() == multiset(c.free) + (c.hands + c.driver);
  }

  lemma PopKeeps(c: Codec)
    ensures CodecNext(c, Pop).InPlay() == c.InPlay()
  {
    if c.free != [] {
      PoppedBag(c.free);
      assert CodecNext(c, Pop).InPlay() == multiset(c.free[1..]) + (c.hands + multiset{c.free[0]}) + c.driver;
    }
  }

  lemma RefuseKeeps(c: Codec, i: int)
    requires i in c.hands && |c.free| < QUEUE_SIZE
    ensures CodecNext(c, Refuse(i)).InPlay() == c.InPlay()
  {
    assert CodecNext(c, Refuse(i)).InPlay() == multiset(c.free) + multiset{i} + (c.hands - multiset{i}) + c.driver;
  }

  lemma DequeueKeeps(c: Codec, i: int)
    requires i in c.driver && |c.free| < QUEUE_SIZE
    ensures CodecNext(c, Dequeue(i)).InPlay() == c.InPlay()
  {
    assert CodecNext(c, Dequeue(i)).InPlay() == multiset(c.free) + multiset{i} + c.hands + (c.driver - multiset{i});
  }

  lemma CodecNextKeeps(c: Codec, e: CodecStep)
    requires CodecEnabled(c, e) && |c.InPlay()| <= QUEUE_SIZE
    ensures CodecNext(c, e).InPlay() == c.InPlay() && CodecNext(c, e).lost == c.lost
  {
    if c.hands != multiset{} || c.driver != multiset{} { IndexHolderHasRoom(c); }
    match e
    case Pop => PopKeeps(c);
    case Refuse(i) => RefuseKeeps(c, i);
    case Dequeue(i) => DequeueKeeps(c, i);
    case Queue(_) =>
  }

  /** In every interleaving the first eight indices stay partitioned among queue, threads and
      driver; the indices beyond them are lost when the codec is prepared, and never come back. */
  lemma {:induction false} IndicesAreConserved(bufferNum: nat, states: seq<Codec>, steps: seq<CodecStep>, i: nat)
    requires CodecRun(bufferNum, states, steps) && i < |states|
    ensures states[i].InPlay() == multiset(UpTo(Usable(bufferNum)))
    ensures states[i].lost == multiset(Beyond(bufferNum))
  {
    if i > 0 {
      IndicesAreConserved(bufferNum, states, steps, i - 1);
      assert |multiset(UpTo(Usable(bufferNum)))| <= QUEUE_SIZE;
      CodecNextKeeps(states[i - 1], steps[i - 1]);
    }
  }

  /** No index is ever lost if and only if the codec has at most eight input buffers. */
  lemma NoIndexLostIff(bufferNum: nat, states: seq<Codec>, steps: seq<CodecStep>, i: nat)
    requires CodecRun(bufferNum, states, steps) && i < |states|
    ensures states[i].lost == multiset{} <==> bufferNum <= QUEUE_SIZE
  {
    IndicesAreConserved(bufferNum, states, steps, i);
    if bufferNum > QUEUE_SIZE {
      assert QUEUE_SIZE in Beyond(bufferNum);
    } else {
      assert Beyond(bufferNum) == {};
    }
  }
}
