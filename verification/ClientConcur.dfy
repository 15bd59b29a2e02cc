/** The CONCUR policy of the client: in every round each of n threads sends one request, under a mutex, and
    then waits at a barrier for the others. */
module ClientConcur {
  import opened Arithmetic
  import opened Folds
  import opened Runs
  import opened ClientFiles

  datatype Config = Config(n: nat, twoFiles: bool)

  /** Where a thread is in its loop. */
  datatype Pc =
    | AtLock      // about to lock thread_lock
    | Inside      // holds it, about to choose a file and send its request
    | Sent        // holds it, about to unlock
    | AtBarrier   // about to call pthread_barrier_wait
    | Blocked     // in pthread_barrier_wait
    | Released    // about to close its socket and start again

  /** waiting is what the barrier has counted. The last two fields only record the history: the orders in which
      the threads sent in the complete rounds, and in the round under way. */
  datatype State = State(
    holder: Option<nat>, threads: seq<Pc>, waiting: set<nat>, file_index: nat, log: seq<Entry>,
    rounds: seq<seq<nat>>, current: seq<nat>)

  function Init(c: Config): State {
    State(None, seq(c.n, _ => AtLock), {}, 0, [], [], [])
  }

  /** The next step of thread i. The last thread to arrive at the barrier releases them all. */
  function Step(c: Config, s: State, i: nat): Option<State> {
    if !(i < c.n == |s.threads|) then None
    else match s.threads[i]
      case AtLock => if s.holder.Some? then None else Some(s.(holder := Some(i), threads := s.threads[i := Inside]))
      case Inside =>
        var file := NextFile(c.twoFiles, s.file_index);
        Some(s.(threads := s.threads[i := Sent], file_index := file, log := s.log + [Entry(i, file)],
                current := s.current + [i]))
      case Sent => Some(s.(holder := None, threads := s.threads[i := AtBarrier]))
      case AtBarrier =>
        if |s.waiting| + 1 < c.n then Some(s.(waiting := s.waiting + {i}, threads := s.threads[i := Blocked]))
        else Some(s.(waiting := {}, rounds := s.rounds + [s.current], current := [],
                     threads := seq(c.n, j requires 0 <= j < c.n =>
                       if j == i || j in s.waiting then Released else s.threads[j])))
      case Blocked => None
      case Released => Some(s.(threads := s.threads[i := AtLock]))
  }

  // The invariant.

  predicate Holds(pc: Pc) { pc.Inside? || pc.Sent? }

  /** The thread has sent its request of the round under way. */
  predicate HasSent(pc: Pc) { pc.Sent? || pc.AtBarrier? || pc.Blocked? }

  ghost predicate LockInv(c: Config, s: State) {
    && |s.threads| == c.n
    && (s.holder.Some? ==> s.holder.value < c.n)
    && (forall i: nat :: i < c.n ==> (Holds(s.threads[i]) <==> s.holder == Some(i)))
  }

  ghost predicate BarrierInv(c: Config, s: State) {
    && |s.threads| == c.n
    && |s.waiting| < c.n
    && forall i: nat :: i in s.waiting <==> i < c.n && s.threads[i].Blocked?
  }

  /** Every thread id once. */
  ghost predicate IsPermutation(n: nat, xs: seq<nat>) {
    |xs| == n && Distinct(xs) && forall i: nat :: i in xs <==> i < n
  }

  /** The complete rounds are permutations, and the threads that have sent in this round are recorded once. */
  ghost predicate RoundInv(c: Config, s: State) {
    && |s.threads| == c.n
    && (forall r :: r in s.rounds ==> IsPermutation(c.n, r))
    && Distinct(s.current)
    && (forall i: nat :: i in s.current <==> i < c.n && HasSent(s.threads[i]))
  }

  /** The threads that have sent, in order: the rounds one after the other. */
  function Order(s: State): seq<nat> { Concat(s.rounds) + s.current }

  /** The log is by those threads. */
  ghost predicate LoggedBy(log: seq<Entry>, order: seq<nat>) {
    |log| == |order| && forall k :: 0 <= k < |log| ==> log[k].thread == order[k]
  }

  ghost predicate LogInv(c: Config, s: State) {
    LoggedBy(s.log, Order(s)) && FilesInv(c.twoFiles, s.file_index, s.log)
  }

  ghost predicate Inv(c: Config, s: State) {
    c.n > 0 && LockInv(c, s) && BarrierInv(c, s) && RoundInv(c, s) && LogInv(c, s)
  }

  lemma InitInv(c: Config)
    requires c.n > 0
    ensures Inv(c, Init(c))
  {}

  // The last arrival.

  function Elements(xs: seq<nat>): (es: set<nat>)
    ensures forall x :: x in es <==> x in xs
  {
    if xs == [] then {} else Elements(xs[..|xs| - 1]) + {xs[|xs| - 1]}
  }

  /** When all but one thread are counted by the barrier the rest are all blocked. */
  lemma LastToArrive(c: Config, s: State, i: nat)
    requires BarrierInv(c, s) && i < c.n && s.threads[i].AtBarrier? && |s.waiting| + 1 >= c.n
    ensures forall j :: 0 <= j < c.n && j != i ==> s.threads[j].Blocked?
  {
    SubsetOfSameSize(s.waiting + {i}, Below(c.n));
    forall j | 0 <= j < c.n && j != i ensures s.threads[j].Blocked? {
      assert j in s.waiting + {i};
    }
  }

  lemma {:induction false} DistinctSize(xs: seq<nat>)
    requires Distinct(xs)
    ensures |Elements(xs)| == |xs|
  {
    if xs != [] {
      var n := |xs| - 1;
      DistinctSize(xs[..n]);
      assert xs[n] !in xs[..n];
    }
  }

  lemma RoundComplete(n: nat, xs: seq<nat>)
    requires Distinct(xs) && forall i: nat :: i in xs <==> i < n
    ensures IsPermutation(n, xs)
  {
    DistinctSize(xs);
    assert Elements(xs) == Below(n);
  }

  // Every step keeps the invariant.

  lemma StepKeepsLockAndBarrier(c: Config, s: State, i: nat)
    requires LockInv(c, s) && BarrierInv(c, s) && c.n > 0 && Step(c, s, i).Some?
    ensures LockInv(c, Step(c, s, i).value) && BarrierInv(c, Step(c, s, i).value)
  {
    if s.threads[i].AtBarrier? && |s.waiting| + 1 >= c.n {
      LastToArrive(c, s, i);
    }
  }

  lemma StepKeepsRounds(c: Config, s: State, i: nat)
    requires BarrierInv(c, s) && RoundInv(c, s) && Step(c, s, i).Some?
    ensures RoundInv(c, Step(c, s, i).value)
  {
    if s.threads[i].AtBarrier? && |s.waiting| + 1 >= c.n {
      LastToArrive(c, s, i);
      RoundComplete(c.n, s.current);
    }
  }

  lemma OrderAfter(c: Config, s: State, i: nat)
    requires Step(c, s, i).Some?
    ensures Order(Step(c, s, i).value) == if s.threads[i].Inside? then Order(s) + [i] else Order(s)
  {
    ConcatLast(s.rounds, s.current);
    hide Concat, NextFile;
  }

  lemma StepKeepsLog(c: Config, s: State, i: nat)
    requires LogInv(c, s) && Step(c, s, i).Some?
    ensures LogInv(c, Step(c, s, i).value)
  {
    FilesKept(c.twoFiles, s.file_index, s.log, i);
    OrderAfter(c, s, i);
    hide Order, FilesInv, NextFile;
  }

  lemma StepKeeps(c: Config, s: State, i: nat)
    requires Inv(c, s) && Step(c, s, i).Some?
    ensures Inv(c, Step(c, s, i).value)
  {
    StepKeepsLockAndBarrier(c, s, i);
    StepKeepsRounds(c, s, i);
    StepKeepsLog(c, s, i);
  }

  // Results over all runs.

  function Steps(c: Config): (State, nat) -> Option<State> {
    (s: State, i: nat) => Step(c, s, i)
  }

  ghost function Run(c: Config, actions: seq<nat>): Option<State> {
    After(Steps(c), Init(c), actions)
  }

  ghost function Invs(c: Config): State -> bool {
    s => Inv(c, s)
  }

  lemma RunInv(c: Config, actions: seq<nat>)
    requires c.n > 0 && Run(c, actions).Some?
    ensures Inv(c, Run(c, actions).value)
  {
    InitInv(c);
    forall s, i: nat | Inv(c, s) && Step(c, s, i).Some? ensures Inv(c, Step(c, s, i).value) {
      StepKeeps(c, s, i);
    }
    hide Inv, Step, Init;
    InvariantHolds(Steps(c), Init(c), Invs(c), actions);
  }

  /** The thread of every request, in order. */
  function Senders(s: State): (xs: seq<nat>)
    ensures |xs| == |s.log|
  {
    seq(|s.log|, k requires 0 <= k < |s.log| => s.log[k].thread)
  }

  // Rounds are permutations.

  lemma {:induction false} ConcatSize(n: nat, xs: seq<seq<nat>>)
    requires forall x :: x in xs ==> |x| == n
    ensures |Concat(xs)| == n * |xs|
  {
    if xs != [] {
      var m := |xs| - 1;
      ConcatSize(n, xs[..m]);
      assert Concat(xs) == Concat(xs[..m]) + xs[m];
      hide Concat;
      MulNext(n, m);
    }
  }

  lemma {:induction false} ConcatSlice(n: nat, xs: seq<seq<nat>>, r: nat)
    requires r < |xs| && forall x :: x in xs ==> |x| == n
    ensures 0 <= n * r <= n * r + n <= |Concat(xs)| && Concat(xs)[n * r..n * r + n] == xs[r]
  {
    var m := |xs| - 1;
    assert Concat(xs) == Concat(xs[..m]) + xs[m];
    hide Concat;
    ConcatSize(n, xs[..m]);
    if r < m {
      ConcatSlice(n, xs[..m], r);
    }
  }

  /** Every n consecutive requests, counted from the first, are by all n threads, once each. */
  lemma BlocksArePermutations(c: Config, actions: seq<nat>, r: nat)
    requires c.n > 0 && Run(c, actions).Some? && c.n * r + c.n <= |Run(c, actions).value.log|
    ensures IsPermutation(c.n, Senders(Run(c, actions).value)[c.n * r..c.n * r + c.n])
  {
    RunInv(c, actions);
    SendersBlock(c, Run(c, actions).value, r);
  }

  /** A whole block lies in the complete rounds, or is the round under way when everyone has sent. */
  lemma BlockPlace(n: nat, m: nat, r: nat, k: nat)
    requires n > 0 && n * r + n <= n * m + k && k <= n
    ensures r < m || (r == m && k == n)
  {
    assert n * (m + 1) == n * m + n;
    if r > m {
      MulMonotone(n, m + 1, r);
    }
  }

  lemma SliceOfSum(xs: seq<nat>, ys: seq<nat>, i: nat, j: nat)
    requires i <= j <= |xs| + |ys|
    ensures j <= |xs| ==> (xs + ys)[i..j] == xs[i..j]
    ensures i == |xs| && j == |xs| + |ys| ==> (xs + ys)[i..j] == ys
  {}

  lemma BlockOfRounds(n: nat, rounds: seq<seq<nat>>, current: seq<nat>, r: nat)
    requires n > 0 && (forall x :: x in rounds ==> IsPermutation(n, x))
    requires |current| <= n && (|current| == n ==> IsPermutation(n, current))
    requires n * r + n <= |Concat(rounds) + current|
    ensures IsPermutation(n, (Concat(rounds) + current)[n * r..n * r + n])
  {
    assert forall x :: x in rounds ==> |x| == n;
    hide IsPermutation, Concat;
    ConcatSize(n, rounds);
    BlockPlace(n, |rounds|, r, |current|);
    SliceOfSum(Concat(rounds), current, n * r, n * r + n);
    if r < |rounds| {
      ConcatSlice(n, rounds, r);
    }
  }

  lemma SendersBlock(c: Config, s: State, r: nat)
    requires Inv(c, s) && c.n * r + c.n <= |s.log|
    ensures IsPermutation(c.n, Senders(s)[c.n * r..c.n * r + c.n])
  {
    assert Senders(s) == Concat(s.rounds) + s.current;
    CurrentSize(c, s);
    hide LockInv, BarrierInv, LogInv, Senders, Concat, IsPermutation;
    if |s.current| == c.n {
      AllSent(c, s);
    }
    BlockOfRounds(c.n, s.rounds, s.current, r);
  }

  lemma CurrentSize(c: Config, s: State)
    requires RoundInv(c, s)
    ensures |s.current| <= c.n
  {
    DistinctSize(s.current);
    assert Below(c.n) == Elements(s.current) + (Below(c.n) - Elements(s.current));
  }

  lemma AllSent(c: Config, s: State)
    requires RoundInv(c, s) && |s.current| == c.n
    ensures IsPermutation(c.n, s.current)
  {
    DistinctSize(s.current);
    SubsetOfSameSize(Elements(s.current), Below(c.n));
    assert forall i: nat :: i in s.current <==> i in Elements(s.current);
  }

  // Counts.

  /** How many of xs are i. */
  function Count(xs: seq<nat>, i: nat): nat {
    if xs == [] then 0 else Count(xs[..|xs| - 1], i) + (if xs[|xs| - 1] == i then 1 else 0)
  }

  lemma {:induction false} CountAppend(xs: seq<nat>, ys: seq<nat>, i: nat)
    ensures Count(xs + ys, i) == Count(xs, i) + Count(ys, i)
  {
    if ys == [] {
      assert xs + ys == xs;
    } else {
      assert (xs + ys)[..|xs + ys| - 1] == xs + ys[..|ys| - 1];
      CountAppend(xs, ys[..|ys| - 1], i);
    }
  }

  lemma {:induction false} CountDistinct(xs: seq<nat>, i: nat)
    requires Distinct(xs)
    ensures Count(xs, i) == if i in xs then 1 else 0
  {
    if xs != [] {
      CountDistinct(xs[..|xs| - 1], i);
    }
  }

  lemma {:induction false} CountRounds(n: nat, rounds: seq<seq<nat>>, i: nat)
    requires i < n && forall r :: r in rounds ==> IsPermutation(n, r)
    ensures Count(Concat(rounds), i) == |rounds|
  {
    if rounds != [] {
      var init, last := rounds[..|rounds| - 1], rounds[|rounds| - 1];
      assert IsPermutation(n, last);
      CountRounds(n, init, i);
      CountAppend(Concat(init), last, i);
      CountDistinct(last, i);
    }
  }

  /** A thread has sent one request in every complete round and at most one in the round under way, so no two
      threads are ever more than one request apart; and with two files the requests alternate between them. */
  lemma RequestsAreBalanced(c: Config, actions: seq<nat>, i: nat, k: nat)
    requires c.n > 0 && Run(c, actions).Some? && i < c.n
    ensures var s := Run(c, actions).value;
            |s.rounds| <= Count(Senders(s), i) <= |s.rounds| + 1
    ensures var s := Run(c, actions).value;
            k < |s.log| ==> s.log[k].file == (if c.twoFiles then (k + 1) % 2 else 0)
  {
    RunInv(c, actions);
    var s := Run(c, actions).value;
    hide Run, LockInv, BarrierInv, Concat, Count;
    assert Senders(s) == Concat(s.rounds) + s.current;
    CountAppend(Concat(s.rounds), s.current, i);
    CountRounds(c.n, s.rounds, i);
    CountDistinct(s.current, i);
  }

  /** In every reachable state the only threads that cannot move are those that wait for the lock while another holds
      it, and those in the barrier. */
  lemma OnlyLockAndBarrierBlock(c: Config, actions: seq<nat>, i: nat)
    requires c.n > 0 && Run(c, actions).Some? && i < c.n
    ensures var s := Run(c, actions).value;
            && i < |s.threads|
            && (Step(c, s, i).None? <==>
                  (s.threads[i].AtLock? && s.holder.Some? && s.holder.value != i) || i in s.waiting)
  {
    RunInv(c, actions);
    hide Run, LogInv, RoundInv;
  }

  /** In no reachable state are all threads blocked, if the server answers: sending a request and reading the answer is
      one step. */
  lemma NoDeadlock(c: Config, actions: seq<nat>)
    requires c.n > 0 && Run(c, actions).Some?
    ensures exists i: nat :: Step(c, Run(c, actions).value, i).Some?
  {
    RunInv(c, actions);
    var s := Run(c, actions).value;
    hide Run, LogInv, RoundInv;
    if s.holder.Some? {
      assert Step(c, s, s.holder.value).Some?;
    } else {
      var i: nat :| i < c.n && i !in s.waiting by {
        if forall i: nat :: i < c.n ==> i in s.waiting {
          SubsetOfSameSize(Below(c.n), s.waiting);
        }
      }
      assert Step(c, s, i).Some?;
    }
  }

  // Progress without any assumption on scheduling.

  /** Places round the loop until the thread sends its next request. */
  function Weight(pc: Pc): nat {
    match pc
    case Inside => 0
    case AtLock => 1
    case Released => 2
    case Blocked => 3
    case AtBarrier => 4
    case Sent => 5
  }

  function Rest(s: State): nat { Distance(Weight, s.threads) }

  function Requests(s: State): nat { |s.log| }

  lemma StepAdvances(c: Config, s: State, i: nat)
    requires Inv(c, s) && Step(c, s, i).Some?
    ensures var s' := Step(c, s, i).value;
            && Inv(c, s') && Rest(s') <= 5 * c.n
            && (Requests(s') == Requests(s) + 1 || (Requests(s') == Requests(s) && Rest(s') < Rest(s)))
  {
    StepKeeps(c, s, i);
    var s' := Step(c, s, i).value;
    hide LockInv, RoundInv, LogInv, Distance;
    DistanceBound(Weight, s'.threads, 5);
    if !s.threads[i].Inside? {
      StepLessens(c, s, i);
      hide Step, BarrierInv;
      DistanceLess(Weight, s.threads, s'.threads, i);
    }
  }

  /** A step that is not a request takes its thread nearer to one, and no thread farther from one. */
  lemma StepLessens(c: Config, s: State, i: nat)
    requires BarrierInv(c, s) && Step(c, s, i).Some? && !s.threads[i].Inside?
    ensures var s' := Step(c, s, i).value;
            && |s'.threads| == c.n && Requests(s') == Requests(s)
            && Weight(s'.threads[i]) < Weight(s.threads[i])
            && forall j :: 0 <= j < c.n ==> Weight(s'.threads[j]) <= Weight(s.threads[j])
  {
    var s' := Step(c, s, i).value;
    forall j | 0 <= j < c.n ensures Weight(s'.threads[j]) <= Weight(s.threads[j]) {
      assert j in s.waiting ==> s.threads[j].Blocked?;
    }
  }

  lemma StepsAdvance(c: Config)
    ensures Advances(Steps(c), Invs(c), Requests, Rest, 5 * c.n)
  {
    forall t, j: nat | Inv(c, t) && Step(c, t, j).Some?
      ensures var t' := Step(c, t, j).value;
              && Inv(c, t') && Rest(t') <= 5 * c.n
              && (Requests(t') == Requests(t) + 1 || (Requests(t') == Requests(t) && Rest(t') < Rest(t)))
    {
      StepAdvances(c, t, j);
    }
    hide Inv, Step, Rest, Requests;
  }

  lemma RequestsKeepComing(c: Config, s: State, b: seq<nat>)
    requires Inv(c, s) && After(Steps(c), s, b).Some? && |b| >= (5 * c.n + 1) * (2 * c.n)
    ensures |After(Steps(c), s, b).value.log| >= |s.log| + 2 * c.n
  {
    assert c.n == |s.threads|;
    DistanceBound(Weight, s.threads, 5);
    StepsAdvance(c);
    hide Inv, Step, Distance, Advances;
    EnoughSteps(Steps(c), Invs(c), Requests, Rest, 5 * c.n, s, b, 2 * c.n);
  }

  /** Whatever run comes after a reachable state, each thread sends a request within (5n + 1) * 2n steps,
      although the mutex may let threads in in any order. */
  lemma EveryThreadAgain(c: Config, a: seq<nat>, b: seq<nat>, i: nat)
    requires c.n > 0 && Run(c, a + b).Some? && i < c.n
    requires |b| >= (5 * c.n + 1) * (2 * c.n)
    ensures Run(c, a).Some?
    ensures exists k :: |Run(c, a).value.log| <= k < |Run(c, a + b).value.log| && Run(c, a + b).value.log[k].thread == i
  {
    AfterAppend(Steps(c), Init(c), a, b);
    RunInv(c, a);
    RunInv(c, a + b);
    var s, s' := Run(c, a).value, Run(c, a + b).value;
    RequestsKeepComing(c, s, b);
    hide Run, Inv;
    var k := SentWithin(c, s', |s.log|, i);
  }

  /** Any 2n consecutive requests contain a whole block, and so every thread. */
  lemma SentWithin(c: Config, s: State, l: nat, i: nat) returns (k: nat)
    requires Inv(c, s) && |s.log| >= l + 2 * c.n && i < c.n
    ensures l <= k < |s.log| && s.log[k].thread == i
  {
    hide Inv;
    var n := c.n;
    var r, start := NextBlock(n, l);
    SendersBlock(c, s, r);
    var xs := Senders(s);
    var block := xs[start..start + n];
    assert i in block;
    var j: nat :| j < n && block[j] == i;
    k := start + j;
    assert xs[k] == i;
  }

  /** The first block that begins after l. */
  lemma NextBlock(n: nat, l: nat) returns (r: nat, start: nat)
    requires n > 0
    ensures start == n * r && l <= start <= l + n
  {
    r := l / n + 1;
    start := n * r;
    assert l == n * (l / n) + l % n && start == n * (l / n) + n;
  }
}
