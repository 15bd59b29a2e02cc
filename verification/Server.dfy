/** The request queue of the server under the FIFO (or ANY) policy: one thread accepts connections, n
    threads serve them, and lock_list_request guards the queue. Every step is one access to shared data
    between two points where another thread may run. */
module Server {
  import opened Runs
  import opened Lists

  /** The counters of an entry of the array threads. */
  datatype Counts = Counts(executions: nat, static_content: nat, dynamic_content: nat)

  /** What the locks guard. */
  datatype Data = Data(queue: seq<int>, threads: seq<Counts>, arrivals: nat, dispatched: nat, completed: nat)

  /** How doit ends: with an error reply, or after static or dynamic content is served. */
  datatype Outcome = Refused | Static | Dynamic

  // The accesses to shared data.

  function Append(d: Data, fd: int): Data { d.(queue := d.queue + [fd]) }

  function CountArrival(d: Data): Data { d.(arrivals := d.arrivals + 1) }

  function CountDispatch(d: Data): Data { d.(dispatched := d.dispatched + 1) }

  function CountExecution(d: Data, i: nat): Data
    requires i < |d.threads|
  {
    var t := d.threads[i];
    d.(threads := d.threads[i := t.(executions := t.executions + 1)])
  }

  function CountContent(d: Data, i: nat, outcome: Outcome): Data
    requires i < |d.threads|
  {
    var t := d.threads[i];
    match outcome
    case Refused => d
    case Static => d.(threads := d.threads[i := t.(static_content := t.static_content + 1)])
    case Dynamic => d.(threads := d.threads[i := t.(dynamic_content := t.dynamic_content + 1)])
  }

  function CountCompleted(d: Data): Data { d.(completed := d.completed + 1) }

  function Remove(d: Data, fd: int): Data
    requires fd in d.queue
  {
    d.(queue := RemoveFirst(d.queue, fd))
  }

  /** All that serving the head of the queue changes: it is gone, and each counter that is due went up by one. */
  function AfterService(d: Data, i: nat, outcome: Outcome): Data
    requires d.queue != [] && i < |d.threads|
  {
    var t := d.threads[i];
    Data(d.queue[1..],
         d.threads[i := Counts(t.executions + 1,
                               t.static_content + (if outcome.Static? then 1 else 0),
                               t.dynamic_content + (if outcome.Dynamic? then 1 else 0))],
         d.arrivals, d.dispatched + 1, d.completed + (if outcome.Refused? then 0 else 1))
  }

  // The threads.

  datatype Holder = Free | Main | Worker(i: nat)

  /** Where main is in its loop. */
  datatype MainPc =
    | Idle                   // about to lock and read the size
    | Sizing                 // holds the lock
    | Accepting              // the size was under the limit
    | Accepted(fd: int)      // about to lock and append
    | Appending(fd: int)     // holds the lock
    | Appended               // about to lock and count the arrival
    | Counting               // holds the lock

  /** Where a serving thread is; in every place but Waiting it holds the lock. */
  datatype WorkerPc =
    | Waiting                // about to lock
    | Locked                 // about to test whether the list is empty
    | Nonempty               // about to lock lock_statistics
    | Dispatching            // holds it, about to count the dispatch
    | Dispatched             // about to count the execution and read the descriptor at the head
    | Serving(fd: int)       // in doit; when it has read the request it counts the content if it serves any
    | Served(fd: int)        // about to lock lock_statistics
    | Completing(fd: int)    // holds it, about to count the completion
    | Answering(fd: int)     // about to lock lock_statistics
    | Reporting(fd: int)     // holds it, about to put the counters into the answer
    | Closing(fd: int)       // about to close the descriptor
    | Removing(fd: int)      // about to remove the request
    | Done                   // about to unlock

  /** holder and statistics are the holders of lock_list_request and lock_statistics, and open is the set of
      connection descriptors in use. The last fields only record the history: the descriptors in the order they were
      appended and taken, and the data that the last serving thread to take the lock found. */
  datatype State = State(
    holder: Holder, statistics: Option<nat>, main: MainPc, workers: seq<WorkerPc>, data: Data, open: set<int>,
    appended: seq<int>, taken: seq<int>, found: Data)

  datatype Config = Config(threads: nat, maxRequests: nat)

  function Init(c: Config): State {
    var d := Data([], seq(c.threads, _ => Counts(0, 0, 0)), 0, 0, 0);
    State(Free, None, Idle, seq(c.threads, _ => Waiting), d, {}, [], [], d)
  }

  datatype Action = MainStep(accepted: int) | WorkerStep(i: nat, outcome: Outcome)

  function Step(c: Config, s: State, a: Action): Option<State> {
    match a
    case MainStep(fd) => StepMain(c, s, fd)
    case WorkerStep(i, outcome) => if i < |s.workers| == |s.data.threads| then StepWorker(s, i, outcome) else None
  }

  /** The next step of main; fd is the descriptor accept would return, one not in use. */
  function StepMain(c: Config, s: State, fd: int): Option<State> {
    match s.main
    case Idle => if s.holder.Free? then Some(s.(holder := Main, main := Sizing)) else None
    case Sizing =>
      Some(s.(holder := Free, main := if |s.data.queue| < c.maxRequests then Accepting else Idle))
    case Accepting => if fd in s.open then None else Some(s.(open := s.open + {fd}, main := Accepted(fd)))
    case Accepted(f) => if s.holder.Free? then Some(s.(holder := Main, main := Appending(f))) else None
    case Appending(f) =>
      Some(s.(holder := Free, main := Appended, data := Append(s.data, f), appended := s.appended + [f]))
    case Appended => if s.holder.Free? then Some(s.(holder := Main, main := Counting)) else None
    case Counting => Some(s.(holder := Free, main := Idle, data := CountArrival(s.data)))
  }

  /** The next step of serving thread i; outcome is how doit ends. */
  function StepWorker(s: State, i: nat, outcome: Outcome): Option<State>
    requires i < |s.workers| == |s.data.threads|
  {
    match s.workers[i]
    case Waiting =>
      if s.holder.Free? then Some(s.(holder := Worker(i), workers := s.workers[i := Locked], found := s.data)) else None
    case Locked =>
      if s.data.queue == [] then Some(s.(workers := s.workers[i := Done]))
      else Some(s.(workers := s.workers[i := Nonempty]))
    case Nonempty => TakeStatistics(s, i, Dispatching)
    case Dispatching =>
      Some(s.(data := CountDispatch(s.data), statistics := None, workers := s.workers[i := Dispatched]))
    case Dispatched =>
      if s.data.queue == [] then None
      else
        var fd := s.data.queue[0];
        Some(s.(data := CountExecution(s.data, i), workers := s.workers[i := Serving(fd)], taken := s.taken + [fd]))
    case Serving(fd) =>
      Some(s.(data := CountContent(s.data, i, outcome),
              workers := s.workers[i := if outcome.Refused? then Closing(fd) else Served(fd)]))
    case Served(fd) => TakeStatistics(s, i, Completing(fd))
    case Completing(fd) =>
      Some(s.(data := CountCompleted(s.data), statistics := None, workers := s.workers[i := Answering(fd)]))
    case Answering(fd) => TakeStatistics(s, i, Reporting(fd))
    case Reporting(fd) => Some(s.(statistics := None, workers := s.workers[i := Closing(fd)]))
    case Closing(fd) => Some(s.(open := s.open - {fd}, workers := s.workers[i := Removing(fd)]))
    case Removing(fd) =>
      if fd !in s.data.queue then None
      else Some(s.(data := Remove(s.data, fd), workers := s.workers[i := Done]))
    case Done => Some(s.(holder := Free, workers := s.workers[i := Waiting]))
  }

  /** Thread i locks lock_statistics. */
  function TakeStatistics(s: State, i: nat, next: WorkerPc): Option<State>
    requires i < |s.workers|
  {
    if s.statistics.Some? then None else Some(s.(statistics := Some(i), workers := s.workers[i := next]))
  }

  // The invariant.

  function Executions(ts: seq<Counts>): nat { Sum(seq(|ts|, i requires 0 <= i < |ts| => ts[i].executions)) }

  function Contents(ts: seq<Counts>): nat {
    Sum(seq(|ts|, i requires 0 <= i < |ts| => ts[i].static_content + ts[i].dynamic_content))
  }

  predicate MainHolds(pc: MainPc) { pc.Sizing? || pc.Appending? || pc.Counting? }

  /** The place of the thread that holds the lock, or Waiting if none of the serving threads does. */
  function Inside(s: State): WorkerPc {
    if s.holder.Worker? && s.holder.i < |s.workers| then s.workers[s.holder.i] else Waiting
  }

  predicate HoldsStatistics(pc: WorkerPc) { pc.Dispatching? || pc.Completing? || pc.Reporting? }

  /** The locks are held by whom the program counters say, so lock_statistics only inside lock_list_request. */
  ghost predicate LockInv(c: Config, s: State) {
    && |s.workers| == |s.data.threads| == c.threads
    && (s.holder.Worker? ==> s.holder.i < c.threads && !s.workers[s.holder.i].Waiting?)
    && (s.holder.Main? <==> MainHolds(s.main))
    && (forall i :: 0 <= i < c.threads && s.holder != Worker(i) ==> s.workers[i].Waiting?)
    && s.statistics == (if s.holder.Worker? && HoldsStatistics(Inside(s)) then Some(s.holder.i) else None)
  }

  /** The descriptor that the thread inside has read from the head and not yet removed. */
  function Current(pc: WorkerPc): Option<int> {
    if pc.Serving? || pc.Served? || pc.Completing? || pc.Answering? || pc.Reporting? || pc.Closing? || pc.Removing?
    then Some(pc.fd)
    else None
  }

  predicate Started(pc: WorkerPc) { pc.Dispatched? || Current(pc).Some? }

  /** Requests are taken in the order they were appended, and the head stays in the queue while served. */
  ghost predicate Ordered(q: seq<int>, pc: WorkerPc, taken: seq<int>, appended: seq<int>) {
    && (pc.Nonempty? || pc.Dispatching? || Started(pc) ==> q != [])
    && (Current(pc).Some? ==> q[0] == Current(pc).value)
    && taken + (if Current(pc).Some? then q[1..] else q) == appended
  }

  ghost predicate OrderInv(s: State) {
    Ordered(s.data.queue, Inside(s), s.taken, s.appended)
  }

  /** The queue is bounded, though its size is checked and a request appended under separate locks. */
  ghost predicate BoundInv(c: Config, s: State) {
    && |s.data.queue| <= c.maxRequests
    && (s.main.Accepting? || s.main.Accepted? || s.main.Appending? ==> |s.data.queue| < c.maxRequests)
  }

  /** The queue without a head that is closed but not yet removed. */
  function Live(s: State): seq<int> {
    var q := s.data.queue;
    if Inside(s).Removing? && q != [] then q[1..] else q
  }

  /** Main has accepted fd and not yet appended it. */
  predicate InHand(pc: MainPc, fd: int) { (pc.Accepted? || pc.Appending?) && pc.fd == fd }

  /** Queued descriptors are distinct, and the open connection descriptors are exactly the queued ones and the one main
      has in hand, although the head is closed before it is removed and accept may hand it out again in between. */
  ghost predicate DescriptorInv(s: State) {
    && Distinct(s.data.queue)
    && (forall fd :: fd in s.open <==> fd in Live(s) || InHand(s.main, fd))
    && (forall fd :: InHand(s.main, fd) ==> fd !in Live(s))
  }

  /** The counters agree, up to the step that the thread inside is about to take; pending requests are appended and
      not yet counted. */
  ghost predicate Agree(d: Data, pc: WorkerPc, pending: nat) {
    && d.dispatched + |d.queue| == d.arrivals + pending + (if Started(pc) then 1 else 0)
    && d.dispatched == Executions(d.threads) + (if pc.Dispatched? then 1 else 0)
    && Contents(d.threads) == d.completed + (if pc.Served? || pc.Completing? then 1 else 0)
  }

  function Pending(pc: MainPc): nat { if pc.Appended? || pc.Counting? then 1 else 0 }

  ghost predicate CounterInv(s: State) {
    Agree(s.data, Inside(s), Pending(s.main))
  }

  /** The data when thread i is at pc inside the lock, if it found d there and doit ends with the outcome. */
  function Midway(d: Data, i: nat, pc: WorkerPc, outcome: Outcome): Data
    requires i < |d.threads|
  {
    var e := CountExecution(CountDispatch(d), i);
    match pc
    case Waiting | Locked | Nonempty | Dispatching | Done => d
    case Dispatched => CountDispatch(d)
    case Serving(_) => e
    case Served(_) | Completing(_) => CountContent(e, i, outcome)
    case Answering(_) | Reporting(_) | Closing(_) | Removing(_) =>
      if outcome.Refused? then e else CountCompleted(CountContent(e, i, outcome))
  }

  /** What doit may still end with, or ended with: content is answered only if it was served. */
  predicate Possible(pc: WorkerPc, outcome: Outcome) {
    pc.Served? || pc.Completing? || pc.Answering? || pc.Reporting? ==> !outcome.Refused?
  }

  /** What thread i, inside, has made of the data it found; at the end, all that a service does, or nothing if the
      queue was empty. */
  ghost predicate Turned(found: Data, i: nat, pc: WorkerPc, d: Data)
    requires i < |found.threads|
  {
    if pc.Done? then
      if found.queue == [] then d == found else exists outcome :: d == AfterService(found, i, outcome)
    else
      && (pc.Waiting? || pc.Locked? || found.queue != [])
      && exists outcome :: Possible(pc, outcome) && d == Midway(found, i, pc, outcome)
  }

  /** Whatever main does in the meantime. */
  ghost predicate TurnInv(s: State) {
    s.holder.Worker? ==> s.holder.i < |s.found.threads| && Turned(s.found, s.holder.i, Inside(s), s.data)
  }

  ghost predicate Inv(c: Config, s: State) {
    LockInv(c, s) && OrderInv(s) && BoundInv(c, s) && DescriptorInv(s) && CounterInv(s) && TurnInv(s)
  }

  lemma ZeroSum(xs: seq<nat>)
    requires forall i :: 0 <= i < |xs| ==> xs[i] == 0
    ensures Sum(xs) == 0
  {}

  lemma InitInv(c: Config)
    ensures Inv(c, Init(c))
  {
    ZeroSum(seq(c.threads, _ => 0));
    var ts := Init(c).data.threads;
    assert seq(|ts|, i requires 0 <= i < |ts| => ts[i].executions) == seq(c.threads, _ => 0);
    assert seq(|ts|, i requires 0 <= i < |ts| => ts[i].static_content + ts[i].dynamic_content) == seq(c.threads, _ => 0);
  }

  lemma SumsAfter(ts: seq<Counts>, i: nat, t: Counts)
    requires i < |ts|
    ensures Executions(ts[i := t]) + ts[i].executions == Executions(ts) + t.executions
    ensures Contents(ts[i := t]) + ts[i].static_content + ts[i].dynamic_content
         == Contents(ts) + t.static_content + t.dynamic_content
  {
    var us := ts[i := t];
    var e := seq(|ts|, k requires 0 <= k < |ts| => ts[k].executions);
    var f := seq(|ts|, k requires 0 <= k < |ts| => ts[k].static_content + ts[k].dynamic_content);
    assert seq(|us|, k requires 0 <= k < |us| => us[k].executions) == e[i := t.executions];
    assert seq(|us|, k requires 0 <= k < |us| => us[k].static_content + us[k].dynamic_content)
        == f[i := t.static_content + t.dynamic_content];
    SumUpdate(e, i, t.executions);
    SumUpdate(f, i, t.static_content + t.dynamic_content);
  }

  /** A step of main is not seen by the threads inside. */
  lemma MainInside(c: Config, s: State, fd: int)
    requires LockInv(c, s) && StepMain(c, s, fd).Some?
    ensures var s' := StepMain(c, s, fd).value;
            && LockInv(c, s') && Inside(s') == Inside(s) && s'.taken == s.taken && s'.found == s.found
            && (s.holder.Worker? ==> s'.holder == s.holder && s'.data == s.data && s'.appended == s.appended)
            && (!s.holder.Worker? ==> !s'.holder.Worker? && Inside(s).Waiting?)
  {}

  lemma MainKeepsDescriptors(c: Config, s: State, fd: int)
    requires LockInv(c, s) && DescriptorInv(s) && StepMain(c, s, fd).Some?
    ensures DescriptorInv(StepMain(c, s, fd).value)
  {
    MainInside(c, s, fd);
    hide LockInv, Inside;
    var s' := StepMain(c, s, fd).value;
    if s.main.Appending? {
      assert InHand(s.main, s.main.fd) && Live(s) == s.data.queue;
      assert Live(s') == s.data.queue + [s.main.fd];
    } else {
      assert Live(s') == Live(s);
      hide Live;
    }
  }

  lemma MainStepKeeps(c: Config, s: State, fd: int)
    requires Inv(c, s) && StepMain(c, s, fd).Some?
    ensures Inv(c, StepMain(c, s, fd).value)
  {
    MainInside(c, s, fd);
    MainKeepsDescriptors(c, s, fd);
    hide LockInv, Inside, Executions, Contents, DescriptorInv, Turned;
  }

  /** Only the thread that holds the lock moves, unless it is the one that takes the lock. */
  lemma WorkerInside(c: Config, s: State, i: nat, outcome: Outcome)
    requires LockInv(c, s) && i < |s.workers| && StepWorker(s, i, outcome).Some?
    ensures var pc, s' := s.workers[i], StepWorker(s, i, outcome).value;
            && LockInv(c, s') && s'.main == s.main && !MainHolds(s.main)
            && Inside(s) == pc && Inside(s') == (if pc.Done? then Waiting else s'.workers[i])
  {
    hide RemoveFirst;
  }

  /** remove_request finds the descriptor at the head, where it was read. */
  lemma RemovesHead(s: State)
    requires OrderInv(s) && Inside(s).Removing?
    ensures s.data.queue != [] && Remove(s.data, Inside(s).fd) == s.data.(queue := s.data.queue[1..])
  {
    var q := s.data.queue;
    assert FirstIndex(q, q[0]) == 0;
    assert q[..0] + q[1..] == q[1..];
  }

  /** What a step inside the lock does to the place of the thread and to the data. */
  ghost predicate Moves(pc: WorkerPc, pc': WorkerPc, d: Data, d': Data, i: nat, outcome: Outcome)
    requires i < |d.threads|
  {
    match pc
    case Locked => d' == d && pc' == if d.queue == [] then Done else Nonempty
    case Nonempty => d' == d && pc' == Dispatching
    case Dispatching => d' == CountDispatch(d) && pc' == Dispatched
    case Dispatched => d.queue != [] && d' == CountExecution(d, i) && pc' == Serving(d.queue[0])
    case Serving(fd) => d' == CountContent(d, i, outcome) && pc' == if outcome.Refused? then Closing(fd) else Served(fd)
    case Served(fd) => d' == d && pc' == Completing(fd)
    case Completing(fd) => d' == CountCompleted(d) && pc' == Answering(fd)
    case Answering(fd) => d' == d && pc' == Reporting(fd)
    case Reporting(fd) => d' == d && pc' == Closing(fd)
    case Closing(fd) => d' == d && pc' == Removing(fd)
    case Removing(_) => d.queue != [] && d' == d.(queue := d.queue[1..]) && pc' == Done
    case Waiting | Done => false
  }

  /** What a step of a serving thread at pc does, seen from outside: it leaves main and the list of appended requests
      alone, and is then at pc'. */
  ghost predicate Effect(s: State, s': State, pc: WorkerPc, pc': WorkerPc, i: nat, outcome: Outcome)
    requires i < |s.data.threads|
  {
    && s'.main == s.main && s'.appended == s.appended
    && (if pc.Waiting? then pc'.Locked? && s'.data == s'.found == s.data && s'.holder == Worker(i)
        else if pc.Done? then pc'.Waiting? && s'.data == s.data && s'.holder.Free?
        else s'.found == s.found && s'.holder == s.holder && Moves(pc, pc', s.data, s'.data, i, outcome))
    && s'.open == (if pc.Closing? then s.open - {pc.fd} else s.open)
    && s'.taken == (if pc.Dispatched? && s.data.queue != [] then s.taken + [s.data.queue[0]] else s.taken)
  }

  lemma WorkerEffect(c: Config, s: State, i: nat, outcome: Outcome)
    requires LockInv(c, s) && OrderInv(s) && i < |s.workers| && StepWorker(s, i, outcome).Some?
    ensures var s' := StepWorker(s, i, outcome).value; Effect(s, s', Inside(s), Inside(s'), i, outcome)
  {
    WorkerInside(c, s, i, outcome);
    if Inside(s).Removing? {
      RemovesHead(s);
    }
    hide Remove, Inside, LockInv, OrderInv, CountContent, CountExecution, CountDispatch, CountCompleted;
  }

  lemma MovesOrdered(d: Data, d': Data, pc: WorkerPc, pc': WorkerPc, i: nat, outcome: Outcome, taken: seq<int>,
                     appended: seq<int>)
    requires i < |d.threads| && Ordered(d.queue, pc, taken, appended) && Moves(pc, pc', d, d', i, outcome)
    ensures Ordered(d'.queue, pc', if pc.Dispatched? then taken + [d.queue[0]] else taken, appended)
  {
    if pc.Dispatched? {
      assert taken + d.queue == (taken + [d.queue[0]]) + d.queue[1..];
    }
  }

  lemma WorkerKeepsOrder(c: Config, s: State, i: nat, outcome: Outcome)
    requires LockInv(c, s) && OrderInv(s) && i < |s.workers| && StepWorker(s, i, outcome).Some?
    ensures OrderInv(StepWorker(s, i, outcome).value)
  {
    WorkerEffect(c, s, i, outcome);
    var s' := StepWorker(s, i, outcome).value;
    assert Inside(s).Dispatched? ==> s.data.queue != [];
    hide StepWorker, Inside, LockInv, Moves;
    if !Inside(s).Waiting? && !Inside(s).Done? {
      hide Ordered;
      MovesOrdered(s.data, s'.data, Inside(s), Inside(s'), i, outcome, s.taken, s.appended);
    }
  }

  lemma WorkerKeepsBound(c: Config, s: State, i: nat, outcome: Outcome)
    requires LockInv(c, s) && OrderInv(s) && BoundInv(c, s) && i < |s.workers| && StepWorker(s, i, outcome).Some?
    ensures BoundInv(c, StepWorker(s, i, outcome).value)
  {
    WorkerEffect(c, s, i, outcome);
    hide StepWorker, Inside, LockInv, OrderInv;
  }

  lemma DropHead(q: seq<int>)
    requires Distinct(q) && q != []
    ensures Distinct(q[1..]) && forall x :: x in q[1..] <==> x in q && x != q[0]
  {
    assert q == [q[0]] + q[1..];
  }

  /** Closing the head takes it out of the live descriptors, and nothing else changes them. */
  lemma WorkerLive(c: Config, s: State, i: nat, outcome: Outcome)
    requires LockInv(c, s) && OrderInv(s) && i < |s.workers| && StepWorker(s, i, outcome).Some?
    ensures var q, q' := s.data.queue, StepWorker(s, i, outcome).value.data.queue;
            var live, live' := Live(s), Live(StepWorker(s, i, outcome).value);
            && (q' == q || (q != [] && q' == q[1..]))
            && if Inside(s).Closing? then live != [] && live == q && live[0] == Inside(s).fd && live' == live[1..]
               else live' == live
  {
    WorkerEffect(c, s, i, outcome);
    hide StepWorker, Inside, LockInv;
  }

  lemma WorkerKeepsDescriptors(c: Config, s: State, i: nat, outcome: Outcome)
    requires LockInv(c, s) && OrderInv(s) && DescriptorInv(s) && i < |s.workers| && StepWorker(s, i, outcome).Some?
    ensures DescriptorInv(StepWorker(s, i, outcome).value)
  {
    WorkerEffect(c, s, i, outcome);
    WorkerLive(c, s, i, outcome);
    hide StepWorker, Inside, LockInv, OrderInv, Moves, Live;
    if s.data.queue != [] {
      DropHead(s.data.queue);
    }
  }

  lemma MovesAgree(d: Data, d': Data, pc: WorkerPc, pc': WorkerPc, i: nat, outcome: Outcome, pending: nat)
    requires i < |d.threads| && Agree(d, pc, pending) && Moves(pc, pc', d, d', i, outcome)
    ensures Agree(d', pc', pending)
  {
    var ts, t := d.threads, d.threads[i];
    if pc.Dispatched? {
      SumsAfter(ts, i, t.(executions := t.executions + 1));
    } else if pc.Serving? && outcome.Static? {
      SumsAfter(ts, i, t.(static_content := t.static_content + 1));
    } else if pc.Serving? && outcome.Dynamic? {
      SumsAfter(ts, i, t.(dynamic_content := t.dynamic_content + 1));
    }
    hide Executions, Contents;
  }

  lemma WorkerKeepsCounters(c: Config, s: State, i: nat, outcome: Outcome)
    requires LockInv(c, s) && OrderInv(s) && CounterInv(s) && i < |s.workers| && StepWorker(s, i, outcome).Some?
    ensures CounterInv(StepWorker(s, i, outcome).value)
  {
    WorkerEffect(c, s, i, outcome);
    hide StepWorker, Inside, LockInv, OrderInv, Moves, Executions, Contents;
    var s' := StepWorker(s, i, outcome).value;
    if !Inside(s).Waiting? && !Inside(s).Done? {
      MovesAgree(s.data, s'.data, Inside(s), Inside(s'), i, outcome, Pending(s.main));
    }
  }

  /** The counts of a service on the way, and the removal of the head, make the whole service. */
  lemma ServiceIsWhole(found: Data, i: nat, fd: int, outcome: Outcome)
    requires i < |found.threads| && found.queue != []
    ensures var d := Midway(found, i, Removing(fd), outcome);
            d.queue != [] && d.(queue := d.queue[1..]) == AfterService(found, i, outcome)
  {
    var t := found.threads[i];
    var u := t.(executions := t.executions + 1);
    assert found.threads[i := u][i := u] == found.threads[i := u];
  }

  lemma TurnStarts(d: Data, i: nat)
    requires i < |d.threads|
    ensures Turned(d, i, Locked, d)
  {
    assert Possible(Locked, Refused) && d == Midway(d, i, Locked, Refused);
  }

  lemma TurnMoves(found: Data, i: nat, pc: WorkerPc, pc': WorkerPc, d: Data, d': Data, outcome: Outcome)
    requires i < |found.threads| && i < |d.threads| && Turned(found, i, pc, d) && Moves(pc, pc', d, d', i, outcome)
    ensures Turned(found, i, pc', d')
  {
    assert CountContent(d, i, Refused) == d;
    hide AfterService, CountContent, CountExecution, CountDispatch, CountCompleted;
    var o :| Possible(pc, o) && d == Midway(found, i, pc, o);
    if pc.Removing? {
      ServiceIsWhole(found, i, pc.fd, o);
    } else if pc.Serving? {
      assert Possible(pc', outcome) && d' == Midway(found, i, pc', outcome);
    } else {
      assert !pc'.Done? ==> Possible(pc', o) && d' == Midway(found, i, pc', o);
    }
  }

  lemma WorkerKeepsTurn(c: Config, s: State, i: nat, outcome: Outcome)
    requires LockInv(c, s) && OrderInv(s) && TurnInv(s) && i < |s.workers| && StepWorker(s, i, outcome).Some?
    ensures TurnInv(StepWorker(s, i, outcome).value)
  {
    WorkerInside(c, s, i, outcome);
    WorkerEffect(c, s, i, outcome);
    hide LockInv, OrderInv, StepWorker, Turned, Moves, Inside;
    var s' := StepWorker(s, i, outcome).value;
    if Inside(s).Waiting? {
      TurnStarts(s.data, i);
    } else if !Inside(s).Done? {
      TurnMoves(s.found, i, Inside(s), Inside(s'), s.data, s'.data, outcome);
    }
  }

  lemma StepKeeps(c: Config, s: State, a: Action)
    requires Inv(c, s) && Step(c, s, a).Some?
    ensures Inv(c, Step(c, s, a).value)
  {
    match a
    case MainStep(fd) => MainStepKeeps(c, s, fd);
    case WorkerStep(i, outcome) =>
      WorkerInside(c, s, i, outcome);
      WorkerKeepsOrder(c, s, i, outcome);
      WorkerKeepsBound(c, s, i, outcome);
      WorkerKeepsDescriptors(c, s, i, outcome);
      WorkerKeepsCounters(c, s, i, outcome);
      WorkerKeepsTurn(c, s, i, outcome);
  }

  // Results over all runs.

  function Steps(c: Config): (State, Action) -> Option<State> {
    (s: State, a: Action) => Step(c, s, a)
  }

  ghost function Run(c: Config, actions: seq<Action>): Option<State> {
    After(Steps(c), Init(c), actions)
  }

  lemma RunInv(c: Config, actions: seq<Action>)
    ensures Run(c, actions).Some? ==> Inv(c, Run(c, actions).value)
  {
    InitInv(c);
    forall s, a | Inv(c, s) && Step(c, s, a).Some? ensures Inv(c, Step(c, s, a).value) {
      StepKeeps(c, s, a);
    }
    hide Inv, Step, Init;
    InvariantHolds(Steps(c), Init(c), s => Inv(c, s), actions);
  }

  /** Whenever the list lock is free, the descriptors taken so far and then the queue are the descriptors
      appended, in order; the queue is within its bound and its descriptors are distinct; the open connection
      descriptors are those in the queue and the one that main has accepted and not appended; and the counters agree,
      the arrivals but for one appended request that main has yet to count. */
  lemma QueueSafety(c: Config, actions: seq<Action>)
    requires Run(c, actions).Some?
    ensures var s := Run(c, actions).value;
            |s.data.queue| <= c.maxRequests && Distinct(s.data.queue)
    ensures var s := Run(c, actions).value;
            s.holder.Free? ==>
              && s.taken + s.data.queue == s.appended
              && (forall fd :: fd in s.open <==> fd in s.data.queue || (s.main.Accepted? && fd == s.main.fd))
              && s.data.dispatched + |s.data.queue| == s.data.arrivals + (if s.main.Appended? then 1 else 0)
              && s.data.dispatched == Executions(s.data.threads)
              && s.data.completed == Contents(s.data.threads)
  {
    RunInv(c, actions);
    hide Run, Executions, Contents;
  }

  /** If doit returns, a thread that was let into the lock is never stuck there: its next step is enabled however doit
      ends. With the lock free every serving thread may take it. Main's next step is enabled unless it waits for the lock,
      or is at accept with a descriptor that is in use. That doit returns is an assumption: the step from Serving stands
      for all of it, and module Headers says for which requests it never ends. */
  lemma NeverStuck(c: Config, actions: seq<Action>, i: nat, outcome: Outcome, fd: int)
    requires Run(c, actions).Some? && i < c.threads
    ensures var s := Run(c, actions).value;
            && (Step(c, s, WorkerStep(i, outcome)).Some? <==> s.holder == Worker(i) || s.holder.Free?)
            && (Step(c, s, MainStep(fd)).Some? <==>
                  if s.main.Accepting? then fd !in s.open else s.holder == Main || s.holder.Free?)
  {
    RunInv(c, actions);
    hide Run;
  }

  /** Main can accept once without the lock. */
  function AcceptsLeft(pc: MainPc): nat { if pc.Accepting? then 1 else 0 }

  lemma {:induction false} OthersWait(c: Config, s: State, i: nat, more: seq<Action>)
    requires Inv(c, s) && s.holder == Worker(i) && Inside(s).Serving?
    requires forall a :: a in more && a.WorkerStep? ==> a.i != i
    requires After(Steps(c), s, more).Some?
    ensures var s' := After(Steps(c), s, more).value;
            && Inv(c, s') && s'.holder == s.holder && s'.workers == s.workers && s'.data == s.data
            && |more| + AcceptsLeft(s'.main) <= AcceptsLeft(s.main)
  {
    if more != [] {
      var init, a := more[..|more| - 1], more[|more| - 1];
      OthersWait(c, s, i, init);
      var t := After(Steps(c), s, init).value;
      assert Step(c, t, a) == After(Steps(c), s, more);
      StepKeeps(c, t, a);
      OnlyAccepts(c, t, a, i);
    }
  }

  lemma OnlyAccepts(c: Config, s: State, a: Action, i: nat)
    requires Inv(c, s) && s.holder == Worker(i) && Step(c, s, a).Some? && (a.WorkerStep? ==> a.i != i)
    ensures var s' := Step(c, s, a).value;
            && s.main.Accepting? && s'.main.Accepted?
            && s'.holder == s.holder && s'.workers == s.workers && s'.data == s.data
  {
    hide OrderInv, BoundInv, DescriptorInv, CounterInv, TurnInv;
  }

  /** While a serving thread is in doit no other serving thread moves and no data change; main may accept once, and then
      does not move either. So if doit does not return the server stops. */
  lemma AllWaitForDoit(c: Config, actions: seq<Action>, more: seq<Action>, i: nat)
    requires Run(c, actions).Some? && Run(c, actions + more).Some?
    requires var s := Run(c, actions).value; s.holder == Worker(i) && i < |s.workers| && s.workers[i].Serving?
    requires forall a :: a in more && a.WorkerStep? ==> a.i != i
    ensures var s, s' := Run(c, actions).value, Run(c, actions + more).value;
            && s'.holder == s.holder && s'.workers == s.workers && s'.data == s.data
            && |more| <= (if s.main.Accepting? then 1 else 0)
  {
    AfterAppend(Steps(c), Init(c), actions, more);
    RunInv(c, actions);
    hide Inv, Step, Init;
    OthersWait(c, Run(c, actions).value, i, more);
  }

  /** From lock to unlock a serving thread does one whole service on the data it found, or nothing if the queue was
      empty, although main may accept between its steps. */
  lemma TurnIsService(c: Config, actions: seq<Action>, i: nat)
    requires Run(c, actions).Some? && i < |Run(c, actions).value.workers| && Run(c, actions).value.workers[i].Done?
    ensures var s := Run(c, actions).value;
            && i < |s.found.threads|
            && if s.found.queue == [] then s.data == s.found
               else exists outcome :: s.data == AfterService(s.found, i, outcome)
  {
    RunInv(c, actions);
    hide Run, OrderInv, BoundInv, DescriptorInv, CounterInv, AfterService;
  }

  // Main uses the room there is.

  /** With the lock free main reads the size and goes on to accept exactly if there is room; else it is where it was. */
  lemma MainReadsSize(c: Config, actions: seq<Action>, fd: int, fd': int)
    requires Run(c, actions).Some? && Run(c, actions).value.main.Idle? && Run(c, actions).value.holder.Free?
    ensures var s := Run(c, actions).value;
            Run(c, actions + [MainStep(fd), MainStep(fd')])
            == Some(if |s.data.queue| < c.maxRequests then s.(main := Accepting) else s)
  {
    var s := Run(c, actions).value;
    assert actions + [MainStep(fd), MainStep(fd')] == (actions + [MainStep(fd)]) + [MainStep(fd')];
    AfterNext(Steps(c), Init(c), actions, MainStep(fd));
    AfterNext(Steps(c), Init(c), actions + [MainStep(fd)], MainStep(fd'));
    hide After, Init;
  }

  /** What accept would return at each of the steps of main in a run. */
  function MainArguments(actions: seq<Action>): seq<int> {
    if actions == [] then []
    else
      var last := actions[|actions| - 1];
      MainArguments(actions[..|actions| - 1]) + (if last.MainStep? then [last.accepted] else [])
  }

  /** Where main is after up to seven steps from the start of its loop, with room in the queue. */
  function MainAt(fds: seq<int>): MainPc
    requires |fds| <= 7
  {
    match |fds|
    case 0 => Idle
    case 1 => Sizing
    case 2 => Accepting
    case 3 => Accepted(fds[2])
    case 4 => Appending(fds[2])
    case 5 => Appended
    case 6 => Counting
    case 7 => Idle
  }

  /** What those steps have done: the descriptor of the third is appended at the fifth and counted at the seventh. */
  ghost predicate OnTheWay(s: State, s': State, fds: seq<int>) {
    && |fds| <= 7 && s'.main == MainAt(fds)
    && s'.appended == s.appended + (if |fds| >= 5 then [fds[2]] else [])
    && s'.data.arrivals == s.data.arrivals + (if |fds| == 7 then 1 else 0)
    && (|fds| < 5 ==> |s'.data.queue| <= |s.data.queue|)
  }

  lemma MainOnTheWay(c: Config, s: State, t: State, fd: int, fds: seq<int>)
    requires OnTheWay(s, t, fds) && |fds| < 7 && |s.data.queue| < c.maxRequests && StepMain(c, t, fd).Some?
    ensures OnTheWay(s, StepMain(c, t, fd).value, fds + [fd])
  {}

  lemma WorkerOnTheWay(c: Config, s: State, t: State, i: nat, outcome: Outcome, fds: seq<int>)
    requires Inv(c, t) && OnTheWay(s, t, fds) && i < |t.workers| && StepWorker(t, i, outcome).Some?
    ensures OnTheWay(s, StepWorker(t, i, outcome).value, fds)
  {
    WorkerEffect(c, t, i, outcome);
    hide StepWorker, Inside, LockInv, OrderInv, BoundInv, DescriptorInv, CounterInv, TurnInv, MainAt;
  }

  lemma {:induction false} MainGoesOn(c: Config, s: State, b: seq<Action>)
    requires Inv(c, s) && s.main.Idle? && |s.data.queue| < c.maxRequests
    requires After(Steps(c), s, b).Some? && |MainArguments(b)| <= 7
    ensures var s' := After(Steps(c), s, b).value; Inv(c, s') && OnTheWay(s, s', MainArguments(b))
  {
    if b != [] {
      var init, a := b[..|b| - 1], b[|b| - 1];
      MainGoesOn(c, s, init);
      var t := After(Steps(c), s, init).value;
      assert Step(c, t, a) == After(Steps(c), s, b);
      StepKeeps(c, t, a);
      hide Inv, OnTheWay, StepMain, StepWorker;
      match a
      case MainStep(fd) => MainOnTheWay(c, s, t, fd, MainArguments(init));
      case WorkerStep(i, outcome) => WorkerOnTheWay(c, s, t, i, outcome, MainArguments(init));
    }
  }

  /** If there is room when main is at the start of its loop then, whatever the serving threads do in between, seven steps
      of main accept one connection, append its descriptor and count it. */
  lemma MainServesRoom(c: Config, a: seq<Action>, b: seq<Action>)
    requires Run(c, a).Some? && Run(c, a + b).Some? && |MainArguments(b)| == 7
    requires var s := Run(c, a).value; s.main.Idle? && |s.data.queue| < c.maxRequests
    ensures var s, s' := Run(c, a).value, Run(c, a + b).value;
            && s'.appended == s.appended + [MainArguments(b)[2]]
            && s'.data.arrivals == s.data.arrivals + 1 && s'.main.Idle?
  {
    AfterAppend(Steps(c), Init(c), a, b);
    RunInv(c, a);
    hide Inv, Step, Init, After, MainArguments;
    MainGoesOn(c, Run(c, a).value, b);
  }

  // Progress.

  /** How many steps the serving threads are from the next taking of a request, if there are requests. */
  function Toward(pc: WorkerPc): nat {
    match pc
    case Dispatched => 1
    case Dispatching => 2
    case Nonempty => 3
    case Locked => 4
    case Waiting => 5
    case Done => 6
    case Removing(_) => 7
    case Closing(_) => 8
    case Reporting(_) => 9
    case Answering(_) => 10
    case Completing(_) => 11
    case Served(_) => 12
    case Serving(_) => 13
  }

  /** How many of the actions are steps of serving threads. */
  function WorkerSteps(actions: seq<Action>): nat {
    if actions == [] then 0
    else WorkerSteps(actions[..|actions| - 1]) + (if actions[|actions| - 1].WorkerStep? then 1 else 0)
  }

  /** While requests are waiting every step of a serving thread takes one or is a step toward it; steps of main
      neither help nor harm. */
  lemma StepTowardTaking(c: Config, s: State, a: Action)
    requires Inv(c, s) && Step(c, s, a).Some? && |s.taken| < |s.appended|
    ensures var s' := Step(c, s, a).value;
            && s.appended <= s'.appended && |s.taken| <= |s'.taken|
            && (a.MainStep? ==> s'.taken == s.taken && Toward(Inside(s')) == Toward(Inside(s)))
            && (a.WorkerStep? ==> Toward(Inside(s')) + 1 <= 14 * (|s'.taken| - |s.taken|) + Toward(Inside(s)))
  {
    hide BoundInv, DescriptorInv, CounterInv, TurnInv;
    match a
    case MainStep(fd) =>
      MainInside(c, s, fd);
      hide LockInv, Inside;
    case WorkerStep(i, outcome) =>
      WorkerEffect(c, s, i, outcome);
      hide LockInv, Inside, StepWorker;
  }

  /** Nothing that was appended or taken is forgotten. */
  lemma StepHistory(c: Config, s: State, a: Action)
    requires Inv(c, s) && Step(c, s, a).Some?
    ensures var s' := Step(c, s, a).value; s.appended <= s'.appended && s.taken <= s'.taken
  {
    hide LockInv, OrderInv, BoundInv, DescriptorInv, CounterInv, TurnInv, Remove;
  }

  lemma {:induction false} TakingGoesOn(c: Config, s: State, b: seq<Action>)
    requires Inv(c, s) && After(Steps(c), s, b).Some?
    ensures var s' := After(Steps(c), s, b).value;
            && Inv(c, s') && s.appended <= s'.appended && |s.taken| <= |s'.taken|
            && (|s'.taken| >= |s.appended|
                || WorkerSteps(b) + Toward(Inside(s')) <= 14 * (|s'.taken| - |s.taken|) + Toward(Inside(s)))
  {
    hide Inv, Step, Inside, Toward;
    if b != [] {
      var init, a := b[..|b| - 1], b[|b| - 1];
      TakingGoesOn(c, s, init);
      var t, s' := After(Steps(c), s, init).value, After(Steps(c), s, b).value;
      assert Step(c, t, a) == Some(s');
      StepKeeps(c, t, a);
      StepHistory(c, t, a);
      if |t.taken| < |s.appended| {
        StepTowardTaking(c, t, a);
      }
    }
  }

  lemma TakenFirst(s: State)
    requires OrderInv(s)
    ensures s.taken <= s.appended && |s.appended| <= |s.taken| + |s.data.queue|
  {
    hide Inside;
  }

  lemma ShorterPrefix<T>(x: seq<T>, y: seq<T>, z: seq<T>)
    requires x <= z && y <= z && |x| <= |y|
    ensures x <= y
  {
    assert x == z[..|x|] && y == z[..|y|];
  }

  lemma TowardBound(pc: WorkerPc)
    ensures 1 <= Toward(pc) <= 13
  {}

  lemma AllAreTaken(c: Config, s: State, b: seq<Action>)
    requires Inv(c, s) && After(Steps(c), s, b).Some? && WorkerSteps(b) >= 14 * |s.data.queue|
    ensures s.appended <= After(Steps(c), s, b).value.taken
  {
    TakingGoesOn(c, s, b);
    var s' := After(Steps(c), s, b).value;
    assert OrderInv(s) && OrderInv(s');
    hide Inv, OrderInv, After, Steps, Step, WorkerSteps, Toward, Inside;
    TowardBound(Inside(s));
    TakenFirst(s);
    TakenFirst(s');
    ShorterPrefix(s.appended, s'.taken, s'.appended);
  }

  /** Whatever run comes after a reachable state, and whatever main does in it, all requests that are waiting are taken,
      in order, within 14 steps of serving threads for each; doit, taken to return, is one of the steps. */
  lemma WaitingAreTaken(c: Config, a: seq<Action>, b: seq<Action>)
    requires Run(c, a + b).Some?
    requires Run(c, a).Some? ==> WorkerSteps(b) >= 14 * |Run(c, a).value.data.queue|
    ensures Run(c, a).Some? && Run(c, a).value.appended <= Run(c, a + b).value.taken
  {
    AfterAppend(Steps(c), Init(c), a, b);
    RunInv(c, a);
    hide Inv, Step, Init, WorkerSteps;
    AllAreTaken(c, Run(c, a).value, b);
  }
}
