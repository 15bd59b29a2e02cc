/** The FIFO policy of the client: n threads in a ring of semaphores, of which the first starts at one. */
module ClientFifo {
  import opened Arithmetic
  import opened Runs
  import opened ClientFiles

  datatype Config = Config(n: nat, twoFiles: bool)

  /** Where a thread is in its loop. */
  datatype Pc =
    | Waiting    // about to wait on its semaphore
    | Entered    // about to choose a file and send its request
    | Sent       // about to post the next semaphore
    | Posted     // about to close its socket and start again

  datatype State = State(semaphores: seq<nat>, threads: seq<Pc>, file_index: nat, log: seq<Entry>)

  function Semaphores(n: nat): (s: seq<nat>)
    ensures |s| == n
  {
    seq(n, i => if i == 0 then 1 else 0)
  }

  /** create_semaphores; max_threads is at least one. */
  method CreateSemaphores(max_threads: nat) returns (semaphores: array<nat>)
    requires max_threads > 0
    ensures fresh(semaphores) && semaphores[..] == Semaphores(max_threads)
  {
    semaphores := new nat[max_threads];
    semaphores[0] := 1;
    for i := 1 to max_threads
      invariant forall j :: 0 <= j < i ==> semaphores[j] == Semaphores(max_threads)[j]
    {
      semaphores[i] := 0;
    }
  }

  function Init(c: Config): State {
    State(Semaphores(c.n), seq(c.n, _ => Waiting), 0, [])
  }

  /** The thread after i in the ring. */
  function Succ(n: nat, i: nat): nat {
    if i + 1 == n then 0 else i + 1
  }

  /** The next step of thread i. */
  function Step(c: Config, s: State, i: nat): Option<State> {
    if !(i < c.n == |s.threads| == |s.semaphores|) then None
    else match s.threads[i]
      case Waiting =>
        if s.semaphores[i] == 0 then None
        else Some(s.(semaphores := s.semaphores[i := s.semaphores[i] - 1], threads := s.threads[i := Entered]))
      case Entered =>
        var file := NextFile(c.twoFiles, s.file_index);
        Some(s.(threads := s.threads[i := Sent], file_index := file, log := s.log + [Entry(i, file)]))
      case Sent =>
        var next := Succ(c.n, i);
        if next >= c.n then None
        else Some(s.(semaphores := s.semaphores[next := s.semaphores[next] + 1], threads := s.threads[i := Posted]))
      case Posted => Some(s.(threads := s.threads[i := Waiting]))
  }

  /** Whose turn request k is, going round the ring. */
  function Turn(n: nat, k: nat): nat {
    if k == 0 then 0 else Succ(n, Turn(n, k - 1))
  }

  lemma {:induction false} TurnIsModulo(n: nat, k: nat)
    requires n > 0
    ensures Turn(n, k) == k % n
  {
    if k == 0 {
      ModUnique(0, n, 0, 0);
    } else {
      TurnIsModulo(n, k - 1);
      var q, r := (k - 1) / n, (k - 1) % n;
      assert k - 1 == n * q + r;
      if r + 1 == n {
        assert n * (q + 1) == n * q + n;
        ModUnique(k, n, q + 1, 0);
      } else {
        ModUnique(k, n, q, r + 1);
      }
    }
  }

  function TokenAt(n: nat, i: nat): seq<nat> {
    seq(n, j => if j == i then 1 else 0)
  }

  predicate Outside(pc: Pc) { pc.Waiting? || pc.Posted? }

  /** The token is at the semaphore of the thread whose turn it is. */
  ghost predicate TokenWaits(c: Config, s: State)
    requires |s.threads| == c.n
  {
    && s.semaphores == TokenAt(c.n, Turn(c.n, |s.log|))
    && forall i :: 0 <= i < c.n ==> Outside(s.threads[i])
  }

  /** The token is with the thread whose turn it is. */
  ghost predicate TokenHeld(c: Config, s: State)
    requires |s.threads| == c.n
  {
    && s.semaphores == TokenAt(c.n, c.n)
    && forall i :: 0 <= i < c.n ==>
         if i == Turn(c.n, |s.log|) then s.threads[i].Entered? else Outside(s.threads[i])
  }

  /** The token is with the thread that sent the last request. */
  ghost predicate TokenPasses(c: Config, s: State)
    requires |s.threads| == c.n
  {
    && s.semaphores == TokenAt(c.n, c.n) && s.log != []
    && forall i :: 0 <= i < c.n ==>
         if i == Turn(c.n, |s.log| - 1) then s.threads[i].Sent? else Outside(s.threads[i])
  }

  /** There is one token. */
  ghost predicate TokenInv(c: Config, s: State)
    requires |s.threads| == c.n
  {
    TokenWaits(c, s) || TokenHeld(c, s) || TokenPasses(c, s)
  }

  ghost predicate RingInv(c: Config, s: State) {
    && c.n > 0 && |s.threads| == |s.semaphores| == c.n
    && Turn(c.n, |s.log|) < c.n && (s.log != [] ==> Turn(c.n, |s.log| - 1) < c.n)
    && TokenInv(c, s)
  }

  ghost predicate LogInv(c: Config, s: State) {
    && FilesInv(c.twoFiles, s.file_index, s.log)
    && forall k :: 0 <= k < |s.log| ==> s.log[k].thread == Turn(c.n, k)
  }

  ghost predicate Inv(c: Config, s: State) {
    RingInv(c, s) && LogInv(c, s)
  }

  lemma StepKeepsRing(c: Config, s: State, i: nat)
    requires RingInv(c, s) && Step(c, s, i).Some?
    ensures RingInv(c, Step(c, s, i).value)
  {
    var s', k := Step(c, s, i).value, |s.log|;
    assert Turn(c.n, k + 1) == Succ(c.n, Turn(c.n, k));
    assert k > 0 ==> Turn(c.n, k) == Succ(c.n, Turn(c.n, k - 1));
    hide Turn;
    match s.threads[i] {
      case Waiting =>
        assert s'.semaphores == TokenAt(c.n, c.n);
        assert TokenHeld(c, s');
      case Entered => assert TokenPasses(c, s');
      case Sent =>
        assert s'.semaphores == TokenAt(c.n, Turn(c.n, k));
        assert TokenWaits(c, s');
      case Posted =>
    }
  }

  lemma StepKeeps(c: Config, s: State, i: nat)
    requires Inv(c, s) && Step(c, s, i).Some?
    ensures Inv(c, Step(c, s, i).value)
  {
    StepKeepsRing(c, s, i);
    FilesKept(c.twoFiles, s.file_index, s.log, i);
    hide Turn;
  }

  lemma InitInv(c: Config)
    requires c.n > 0
    ensures Inv(c, Init(c))
  {
    assert Semaphores(c.n) == TokenAt(c.n, 0);
  }

  function Steps(c: Config): (State, nat) -> Option<State> {
    (s: State, i: nat) => Step(c, s, i)
  }

  ghost function Run(c: Config, actions: seq<nat>): Option<State> {
    After(Steps(c), Init(c), actions)
  }

  lemma RunInv(c: Config, actions: seq<nat>)
    requires c.n > 0 && Run(c, actions).Some?
    ensures Inv(c, Run(c, actions).value)
  {
    InitInv(c);
    forall s, i | Inv(c, s) && Step(c, s, i).Some? ensures Inv(c, Step(c, s, i).value) {
      StepKeeps(c, s, i);
    }
    hide Inv, Step, Init;
    InvariantHolds(Steps(c), Init(c), s => Inv(c, s), actions);
  }

  // Results over all runs.

  /** The threads between wait and post. */
  ghost function Inside(s: State): set<nat> {
    set i: nat | i < |s.threads| && !Outside(s.threads[i])
  }

  lemma {:induction false} SumOfToken(n: nat, i: nat)
    ensures Sum(TokenAt(n, i)) == if i < n then 1 else 0
  {
    if n > 0 {
      assert TokenAt(n, i)[..n - 1] == TokenAt(n - 1, i);
      SumOfToken(n - 1, i);
    }
  }

  /** At every moment the semaphores and the threads inside add up to one token. */
  lemma OneToken(c: Config, actions: seq<nat>)
    requires c.n > 0 && Run(c, actions).Some?
    ensures var s := Run(c, actions).value; Sum(s.semaphores) + |Inside(s)| == 1
  {
    RunInv(c, actions);
    var s := Run(c, actions).value;
    hide Run, Turn;
    var k := |s.log|;
    SumOfToken(c.n, Turn(c.n, k));
    SumOfToken(c.n, c.n);
    if s.semaphores == TokenAt(c.n, Turn(c.n, k)) {
      assert TokenAt(c.n, Turn(c.n, k))[Turn(c.n, k)] == 1;
      assert Inside(s) == {};
    } else if s.threads[Turn(c.n, k)].Entered? {
      assert Inside(s) == {Turn(c.n, k)};
    } else {
      assert Inside(s) == {Turn(c.n, k - 1)};
    }
  }

  /** Request number k is sent by thread k modulo n, and with two files it is for file k + 1 modulo 2. */
  lemma RequestsGoRound(c: Config, actions: seq<nat>, k: nat)
    requires c.n > 0 && Run(c, actions).Some? && k < |Run(c, actions).value.log|
    ensures Run(c, actions).value.log[k] == Entry(k % c.n, if c.twoFiles then (k + 1) % 2 else 0)
  {
    RunInv(c, actions);
    TurnIsModulo(c.n, k);
    hide Run;
  }

  /** In every reachable state the only thread that cannot move is one that waits for its semaphore. */
  lemma OnlyWaitingBlocks(c: Config, actions: seq<nat>, i: nat)
    requires c.n > 0 && Run(c, actions).Some? && i < c.n
    ensures var s := Run(c, actions).value;
            && i < |s.threads| == |s.semaphores|
            && (Step(c, s, i).None? <==> s.threads[i].Waiting? && s.semaphores[i] == 0)
  {
    RunInv(c, actions);
    hide Run, Turn, TokenInv;
  }

  /** In no reachable state are all threads blocked, if the server answers: sending a request and reading the answer is
      one step. */
  lemma NoDeadlock(c: Config, actions: seq<nat>)
    requires c.n > 0 && Run(c, actions).Some?
    ensures exists i: nat :: Step(c, Run(c, actions).value, i).Some?
  {
    RunInv(c, actions);
    var s := Run(c, actions).value;
    hide Run, Turn;
    var i := Turn(c.n, |s.log|);
    assert Step(c, s, i).Some? || s.semaphores[i] == 0;
    if s.log != [] {
      var j := Turn(c.n, |s.log| - 1);
      assert Step(c, s, j).Some? || Step(c, s, i).Some?;
    }
  }

  // Progress without any assumption on scheduling.

  /** How far a thread is from sending its next request without counting what others must do first. */
  function Weight(pc: Pc): nat {
    match pc case Entered => 0 case Waiting => 1 case Posted => 2 case Sent => 3
  }

  function Rest(s: State): nat { Distance(Weight, s.threads) }

  function Requests(s: State): nat { |s.log| }

  ghost function Invs(c: Config): State -> bool {
    s => Inv(c, s)
  }

  lemma StepAdvances(c: Config, s: State, i: nat)
    requires Inv(c, s) && Step(c, s, i).Some?
    ensures var s' := Step(c, s, i).value;
            && Inv(c, s') && Rest(s') <= 3 * c.n
            && (Requests(s') == Requests(s) + 1 || (Requests(s') == Requests(s) && Rest(s') < Rest(s)))
  {
    StepKeeps(c, s, i);
    var s' := Step(c, s, i).value;
    hide Inv, Distance;
    assert |s'.threads| == c.n && forall j :: 0 <= j < c.n && j != i ==> s'.threads[j] == s.threads[j];
    DistanceBound(Weight, s'.threads, 3);
    if !s.threads[i].Entered? {
      assert Weight(s'.threads[i]) < Weight(s.threads[i]);
      hide Step;
      DistanceLess(Weight, s.threads, s'.threads, i);
    }
  }

  lemma StepsAdvance(c: Config)
    ensures Advances(Steps(c), Invs(c), Requests, Rest, 3 * c.n)
  {
    forall t, j: nat | Inv(c, t) && Step(c, t, j).Some?
      ensures var t' := Step(c, t, j).value;
              && Inv(c, t') && Rest(t') <= 3 * c.n
              && (Requests(t') == Requests(t) + 1 || (Requests(t') == Requests(t) && Rest(t') < Rest(t)))
    {
      StepAdvances(c, t, j);
    }
    hide Inv, Step, Rest, Requests;
  }

  lemma RequestsKeepComing(c: Config, s: State, b: seq<nat>)
    requires Inv(c, s) && After(Steps(c), s, b).Some? && |b| >= (3 * c.n + 1) * c.n
    ensures |After(Steps(c), s, b).value.log| >= |s.log| + c.n
  {
    assert c.n == |s.threads|;
    DistanceBound(Weight, s.threads, 3);
    StepsAdvance(c);
    hide Inv, Step, Distance, Advances;
    EnoughSteps(Steps(c), Invs(c), Requests, Rest, 3 * c.n, s, b, c.n);
  }

  /** Whatever run comes after a reachable state, each thread sends a request within (3n + 1) * n steps. */
  lemma EveryThreadAgain(c: Config, a: seq<nat>, b: seq<nat>, i: nat)
    requires c.n > 0 && Run(c, a + b).Some? && i < c.n
    requires |b| >= (3 * c.n + 1) * c.n
    ensures Run(c, a).Some?
    ensures exists k :: |Run(c, a).value.log| <= k < |Run(c, a + b).value.log| && Run(c, a + b).value.log[k].thread == i
  {
    AfterAppend(Steps(c), Init(c), a, b);
    RunInv(c, a);
    RunInv(c, a + b);
    var s, s' := Run(c, a).value, Run(c, a + b).value;
    RequestsKeepComing(c, s, b);
    hide Run, Turn;
    var k := NextTurn(c.n, |s.log|, i);
    assert s'.log[k].thread == i;
  }

  /** The next request number from l on that is the turn of thread i. */
  lemma NextTurn(n: nat, l: nat, i: nat) returns (k: nat)
    requires i < n
    ensures l <= k < l + n && Turn(n, k) == i
  {
    var q, r := l / n, l % n;
    assert l == n * q + r;
    if i >= r {
      k := l + (i - r);
      ModUnique(k, n, q, i);
    } else {
      k := l + (n + i - r);
      assert n * (q + 1) == n * q + n;
      ModUnique(k, n, q + 1, i);
    }
    TurnIsModulo(n, k);
  }
}
