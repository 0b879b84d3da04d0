/** The accept queue of the HTTP server: an acceptor, a pool of workers and the
    thread that stops them, as steps over a mutex, a condition variable, an
    atomic flag and a bounded queue. */
module AcceptQueue {

  const MAX_QUEUE_DEPTH: nat := 1024

  /** Sockets are numbered in the order in which they are accepted. */
  type Socket = nat

  datatype Worker =
    | Top                       // before it locks the mutex
    | Holding                   // the mutex is locked, the predicate not read yet
    | Sleepy                    // the predicate was false, the mutex still locked
    | Waiting                   // blocked on the condition variable
    | Woken                     // notified, before it locks the mutex again
    | Handling(socket: Socket)
    | Exited

  datatype Acceptor =
    | Loop                      // before it reads the stop flag
    | Accepting
    | Got(socket: Socket)       // before it locks the mutex
    | Pushing(socket: Socket)   // the mutex is locked
    | Refusing(socket: Socket)  // the queue was full
    | Notifying                 // has pushed and unlocked
    | Gone

  datatype Stopper =
    | Idle
    | Joining                   // the flag is set; waits for the acceptor
    | Drained                   // has closed what was queued and unlocked
    | Notified                  // has woken everyone; waits for the workers
    | Finished

  datatype Owner = Nobody | WorkerOwner(w: nat) | AcceptorOwner

  datatype State = State(
    workers: seq<Worker>, acceptor: Acceptor, stopper: Stopper, queue: seq<Socket>, mutex: Owner, stopping: bool,
    accepted: nat, closed: multiset<Socket>)

  datatype WorkerAction = Lock | Check | Block | Spurious | Handle

  datatype AcceptorAction =
    | ReadFlag
    | Accept
    | AcceptFails
    | LockQueue
    | Push
    | Refuse
    | NotifyOne(w: nat)
    | NotifyNobody

  datatype StopperAction = SetFlag | Drain | NotifyAll | JoinWorkers

  datatype Action = ByWorker(w: nat, worker: WorkerAction) | ByAcceptor(acceptor: AcceptorAction) | ByStopper(stopper: StopperAction)

  predicate SomeWaiting(workers: seq<Worker>)
  {
    exists w :: 0 <= w < |workers| && workers[w].Waiting?
  }

  function WakeAll(workers: seq<Worker>): (r: seq<Worker>)
    ensures |r| == |workers|
    ensures forall w :: 0 <= w < |workers| ==> r[w] == if workers[w].Waiting? then Woken else workers[w]
  {
    if workers == [] then [] else [if workers[0].Waiting? then Woken else workers[0]] + WakeAll(workers[1..])
  }

  // ----- workers -----

  predicate WorkerCan(s: State, w: nat, a: WorkerAction)
  {
    w < |s.workers| &&
    match a
    case Lock => (s.workers[w].Top? || s.workers[w].Woken?) && s.mutex.Nobody?
    case Check => s.workers[w].Holding?
    case Block => s.workers[w].Sleepy?
    case Spurious => s.workers[w].Waiting?
    case Handle => s.workers[w].Handling?
  }

  /** Where a worker's step leads it. */
  function Next(s: State, w: nat, a: WorkerAction): Worker
    requires WorkerCan(s, w, a)
  {
    match a
    case Lock => Holding
    case Check => if s.queue != [] then Handling(s.queue[0]) else if s.stopping then Exited else Sleepy
    case Block => Waiting
    case Spurious => Woken
    case Handle => Top
  }

  function WorkerStep(s: State, w: nat, a: WorkerAction): State
    requires WorkerCan(s, w, a)
  {
    var next := Next(s, w, a);
    s.(workers := s.workers[w := next],
       queue := if a.Check? && s.queue != [] then s.queue[1..] else s.queue,
       mutex := if a.Lock? then WorkerOwner(w) else if a.Block? || (a.Check? && !next.Sleepy?) then Nobody else s.mutex,
       closed := if a.Handle? then s.closed + multiset{s.workers[w].socket} else s.closed)
  }

  // ----- the acceptor -----

  predicate AcceptorCan(s: State, a: AcceptorAction)
  {
    match a
    case ReadFlag => s.acceptor.Loop?
    case Accept => s.acceptor.Accepting?
    case AcceptFails => s.acceptor.Accepting?
    case LockQueue => s.acceptor.Got? && s.mutex.Nobody?
    case Push => s.acceptor.Pushing?
    case Refuse => s.acceptor.Refusing?
    case NotifyOne(w) => s.acceptor.Notifying? && w < |s.workers| && s.workers[w].Waiting?
    case NotifyNobody => s.acceptor.Notifying? && !SomeWaiting(s.workers)
  }

  function AcceptorNext(s: State, a: AcceptorAction): Acceptor
    requires AcceptorCan(s, a)
  {
    match a
    case ReadFlag => if s.stopping then Gone else Accepting
    case Accept => Got(s.accepted)
    case AcceptFails => if s.stopping then Gone else Loop
    case LockQueue => Pushing(s.acceptor.socket)
    case Push => if |s.queue| >= MAX_QUEUE_DEPTH then Refusing(s.acceptor.socket) else Notifying
    case Refuse => Loop
    case NotifyOne(_) => Loop
    case NotifyNobody => Loop
  }

  function AcceptorStep(s: State, a: AcceptorAction): State
    requires AcceptorCan(s, a)
  {
    s.(acceptor := AcceptorNext(s, a),
       accepted := if a.Accept? then s.accepted + 1 else s.accepted,
       queue := if a.Push? && |s.queue| < MAX_QUEUE_DEPTH then s.queue + [s.acceptor.socket] else s.queue,
       mutex := if a.LockQueue? then AcceptorOwner else if a.Push? then Nobody else s.mutex,
       closed := if a.Refuse? then s.closed + multiset{s.acceptor.socket} else s.closed,
       workers := if a.NotifyOne? then s.workers[a.w := Woken] else s.workers)
  }

  // ----- the thread that stops the server -----

  predicate StopperCan(s: State, a: StopperAction)
  {
    match a
    case SetFlag => s.stopper.Idle?
    case Drain => s.stopper.Joining? && s.acceptor.Gone? && s.mutex.Nobody?
    case NotifyAll => s.stopper.Drained?
    case JoinWorkers => s.stopper.Notified? && forall w :: 0 <= w < |s.workers| ==> s.workers[w].Exited?
  }

  /** The drain locks and unlocks the mutex around closing the queued sockets. */
  function StopperStep(s: State, a: StopperAction): State
    requires StopperCan(s, a)
  {
    match a
    case SetFlag => s.(stopper := Joining, stopping := true)
    case Drain => s.(stopper := Drained, queue := [], closed := s.closed + multiset(s.queue))
    case NotifyAll => s.(stopper := Notified, workers := WakeAll(s.workers))
    case JoinWorkers => s.(stopper := Finished)
  }

  predicate Enabled(s: State, a: Action)
  {
    match a
    case ByWorker(w, act) => WorkerCan(s, w, act)
    case ByAcceptor(act) => AcceptorCan(s, act)
    case ByStopper(act) => StopperCan(s, act)
  }

  function Step(s: State, a: Action): State
    requires Enabled(s, a)
  {
    match a
    case ByWorker(w, act) => WorkerStep(s, w, act)
    case ByAcceptor(act) => AcceptorStep(s, act)
    case ByStopper(act) => StopperStep(s, act)
  }

  function Start(n: nat): State
  {
    State(seq(n, _ => Top), Loop, Idle, [], Nobody, false, 0, multiset{})
  }

  /** A run of the server with n workers: every action is possible where it
      stands. */
  ghost predicate IsRun(n: nat, actions: seq<Action>, s: State)
    decreases |actions|
  {
    if actions == [] then s == Start(n)
    else
      var last := actions[|actions| - 1];
      exists t :: IsRun(n, actions[..|actions| - 1], t) && Enabled(t, last) && s == Step(t, last)
  }

  // ----- where the sockets are -----

  function One(b: bool): nat { if b then 1 else 0 }

  function HeldBy(w: Worker, c: Socket): nat
  {
    One(w.Handling? && w.socket == c)
  }

  /** How many workers handle the socket. */
  function Held(workers: seq<Worker>, c: Socket): nat
  {
    if workers == [] then 0 else HeldBy(workers[0], c) + Held(workers[1..], c)
  }

  function AcceptorHolds(a: Acceptor, c: Socket): nat
  {
    One((a.Got? || a.Pushing? || a.Refusing?) && a.socket == c)
  }

  /** In how many places a socket is, counting each time it was closed. */
  function Places(s: State, c: Socket): nat
  {
    Held(s.workers, c) + AcceptorHolds(s.acceptor, c) + multiset(s.queue)[c] + s.closed[c]
  }

  /** An accepted socket is in exactly one place, any other in none. */
  ghost predicate Accounted(s: State)
  {
    forall c: Socket :: Places(s, c) == One(c < s.accepted)
  }

  // ----- the mutex and the condition variable -----

  ghost predicate Exclusive(s: State)
  {
    && (forall w :: 0 <= w < |s.workers| ==> ((s.workers[w].Holding? || s.workers[w].Sleepy?) <==> s.mutex == WorkerOwner(w)))
    && (s.acceptor.Pushing? <==> s.mutex.AcceptorOwner?)
    && (s.mutex.WorkerOwner? ==> s.mutex.w < |s.workers|)
  }

  predicate Awake(w: Worker)
  {
    !w.Waiting? && !w.Exited?
  }

  ghost predicate SomeAwake(workers: seq<Worker>)
  {
    exists w :: 0 <= w < |workers| && Awake(workers[w])
  }

  predicate AllExited(workers: seq<Worker>)
  {
    forall w :: 0 <= w < |workers| ==> workers[w].Exited?
  }

  /** A queued socket never meets a pool that is asleep, unless the acceptor is
      about to notify: also between the stop flag and the drain, while the
      acceptor can still push. */
  ghost predicate NoLostWakeup(s: State)
  {
    && (!s.stopping ==> forall w :: 0 <= w < |s.workers| ==> !s.workers[w].Exited?)
    && (s.queue != [] && !s.acceptor.Notifying? && !AllExited(s.workers) ==> SomeAwake(s.workers))
  }

  /** Whoever is about to block has seen an empty queue, and nobody could fill it
      since. */
  ghost predicate SleepersSawEmpty(s: State)
  {
    forall w :: 0 <= w < |s.workers| && s.workers[w].Sleepy? ==> s.queue == []
  }

  /** The phases of stopping: after the drain the acceptor is gone and the queue
      stays empty; after the notification nobody waits or is about to. */
  ghost predicate StopsInOrder(s: State)
  {
    && (s.stopping <==> !s.stopper.Idle?)
    && (s.stopper.Drained? || s.stopper.Notified? || s.stopper.Finished? ==>
          s.acceptor.Gone? && s.queue == [] && forall w :: 0 <= w < |s.workers| ==> !s.workers[w].Sleepy?)
    && (s.stopper.Notified? || s.stopper.Finished? ==> forall w :: 0 <= w < |s.workers| ==> !s.workers[w].Waiting?)
    && (s.stopper.Finished? ==> forall w :: 0 <= w < |s.workers| ==> s.workers[w].Exited?)
    && (s.acceptor.Gone? ==> s.stopping)
  }

  ghost predicate Inv(s: State)
  {
    Protocol(s) && Accounted(s)
  }

  lemma {:induction false} HeldUpdate(workers: seq<Worker>, w: nat, next: Worker, c: Socket)
    requires w < |workers|
    ensures Held(workers[w := next], c) + HeldBy(workers[w], c) == Held(workers, c) + HeldBy(next, c)
  {
    hide HeldBy;
    var r := workers[w := next];
    if w == 0 {
      assert r[1..] == workers[1..];
    } else {
      HeldUpdate(workers[1..], w - 1, next, c);
      assert r[0] == workers[0] && r[1..] == workers[1..][w - 1 := next];
    }
  }

  lemma {:induction false} HeldAfterWaking(workers: seq<Worker>, c: Socket)
    ensures Held(WakeAll(workers), c) == Held(workers, c)
  {
    if workers != [] { HeldAfterWaking(workers[1..], c); }
  }

  lemma {:induction false} NothingHeld(workers: seq<Worker>, c: Socket)
    requires forall w :: 0 <= w < |workers| ==> !workers[w].Handling?
    ensures Held(workers, c) == 0
  {
    if workers != [] { NothingHeld(workers[1..], c); }
  }

  lemma {:induction false} WorkerPlaces(s: State, w: nat, a: WorkerAction, c: Socket)
    requires WorkerCan(s, w, a)
    ensures Places(WorkerStep(s, w, a), c) == Places(s, c)
  {
    hide Held, AcceptorHolds;
    HeldUpdate(s.workers, w, Next(s, w, a), c);
    if a.Check? && s.queue != [] { assert s.queue == [s.queue[0]] + s.queue[1..]; }
  }

  lemma {:induction false} AcceptorPlaces(s: State, a: AcceptorAction, c: Socket)
    requires AcceptorCan(s, a)
    ensures Places(AcceptorStep(s, a), c) == Places(s, c) + One(a.Accept? && c == s.accepted)
  {
    hide Held, HeldBy, SomeWaiting;
    match a
    case NotifyOne(w) => WakingHolds(s.workers, w, c);
    case Push => assert multiset(s.queue + [s.acceptor.socket]) == multiset(s.queue) + multiset{s.acceptor.socket};
    case _ =>
  }

  lemma {:induction false} WakingHolds(workers: seq<Worker>, w: nat, c: Socket)
    requires w < |workers| && workers[w].Waiting?
    ensures Held(workers[w := Woken], c) == Held(workers, c)
  {
    HeldUpdate(workers, w, Woken, c);
  }

  lemma {:induction false} StopperPlaces(s: State, a: StopperAction, c: Socket)
    requires StopperCan(s, a)
    ensures Places(StopperStep(s, a), c) == Places(s, c)
  {
    hide Held, AcceptorHolds, WakeAll;
    HeldAfterWaking(s.workers, c);
  }

  /** No step loses a socket or brings it to a second place. */
  lemma {:induction false} AccountKept(s: State, a: Action)
    requires Enabled(s, a) && Accounted(s)
    ensures Accounted(Step(s, a))
  {
    hide Places, WorkerStep, WorkerCan, AcceptorCan, StopperCan;
    forall c: Socket ensures Places(Step(s, a), c) == One(c < Step(s, a).accepted) {
      match a
      case ByWorker(w, act) =>
        WorkerPlaces(s, w, act, c);
        SameAccepted(s, w, act);
      case ByAcceptor(act) => AcceptorPlaces(s, act, c);
      case ByStopper(act) => StopperPlaces(s, act, c);
    }
  }

  lemma {:induction false} SameAccepted(s: State, w: nat, a: WorkerAction)
    requires WorkerCan(s, w, a)
    ensures WorkerStep(s, w, a).accepted == s.accepted
  {
  }

  /** All but the account. */
  ghost predicate Protocol(s: State)
  {
    |s.queue| <= MAX_QUEUE_DEPTH && Exclusive(s) && SleepersSawEmpty(s) && NoLostWakeup(s) && StopsInOrder(s)
  }

  lemma {:induction false} WorkerKeeps(s: State, w: nat, a: WorkerAction)
    requires WorkerCan(s, w, a) && Protocol(s)
    ensures Protocol(WorkerStep(s, w, a))
  {
    var r := WorkerStep(s, w, a);
    assert Awake(r.workers[w]) || r.workers[w].Waiting? || r.workers[w].Exited?;
  }

  lemma {:induction false} AcceptorKeeps(s: State, a: AcceptorAction)
    requires AcceptorCan(s, a) && Protocol(s)
    ensures Protocol(AcceptorStep(s, a))
  {
    var r := AcceptorStep(s, a);
    if a.NotifyOne? { assert Awake(r.workers[a.w]); }
    if a.NotifyNobody? && s.workers != [] { assert !s.workers[0].Waiting? && (!s.stopping ==> Awake(s.workers[0])); }
  }

  lemma {:induction false} StopperKeeps(s: State, a: StopperAction)
    requires StopperCan(s, a) && Protocol(s)
    ensures Protocol(StopperStep(s, a))
  {
  }

  /** Every step keeps the invariant. */
  lemma {:induction false} StepKeeps(s: State, a: Action)
    requires Enabled(s, a) && Inv(s)
    ensures Inv(Step(s, a))
  {
    hide Accounted, Protocol, WorkerStep, AcceptorStep, StopperStep, WorkerCan, AcceptorCan, StopperCan;
    AccountKept(s, a);
    match a
    case ByWorker(w, act) => WorkerKeeps(s, w, act);
    case ByAcceptor(act) => AcceptorKeeps(s, act);
    case ByStopper(act) => StopperKeeps(s, act);
  }

  /** Whatever the interleaving, the invariant holds after every run. */
  lemma {:induction false} RunKeeps(n: nat, actions: seq<Action>, s: State)
    requires IsRun(n, actions, s)
    ensures Inv(s)
    decreases |actions|
  {
    hide Inv, Step, Enabled;
    if actions == [] {
      StartHolds(n);
    } else {
      var last, before := actions[|actions| - 1], actions[..|actions| - 1];
      var t :| IsRun(n, before, t) && Enabled(t, last) && s == Step(t, last);
      RunKeeps(n, before, t);
      StepKeeps(t, last);
    }
  }

  lemma {:induction false} StartHolds(n: nat)
    ensures Inv(Start(n))
  {
    forall c: Socket ensures Places(Start(n), c) == 0 { NothingHeld(Start(n).workers, c); }
  }

  // ----- what follows for every run -----

  /** No socket is ever closed twice, and none that was not accepted. */
  lemma {:induction false} ClosedAtMostOnce(n: nat, actions: seq<Action>, s: State, c: Socket)
    requires IsRun(n, actions, s)
    ensures s.closed[c] <= One(c < s.accepted)
  {
    hide IsRun, Protocol;
    RunKeeps(n, actions, s);
    assert Places(s, c) == One(c < s.accepted);
  }

  /** When the server has stopped, every accepted socket has been closed exactly
      once. */
  lemma {:induction false} AllClosedOnce(n: nat, actions: seq<Action>, s: State, c: Socket)
    requires IsRun(n, actions, s) && s.stopper.Finished?
    ensures s.closed[c] == One(c < s.accepted)
  {
    hide IsRun;
    RunKeeps(n, actions, s);
    NothingHeld(s.workers, c);
    assert Places(s, c) == One(c < s.accepted);
  }

  /** The queue is bounded, and in every reachable state, the shutdown included,
      a socket is queued while some workers wait and the others have exited only
      if the acceptor is about to notify. */
  lemma {:induction false} NobodyIsForgotten(n: nat, actions: seq<Action>, s: State)
    requires IsRun(n, actions, s)
    ensures |s.queue| <= MAX_QUEUE_DEPTH
    ensures s.queue != [] && SomeWaiting(s.workers) && (forall w :: 0 <= w < |s.workers| ==> !Awake(s.workers[w])) ==>
      s.acceptor.Notifying?
  {
    RunKeeps(n, actions, s);
  }

  /** A socket is refused exactly when 1024 are queued, and queued otherwise. */
  lemma {:induction false} RefusedExactly(n: nat, actions: seq<Action>, s: State)
    requires IsRun(n, actions, s) && AcceptorCan(s, Push)
    ensures var r := AcceptorStep(s, Push);
      && (r.acceptor == Refusing(s.acceptor.socket) <==> |s.queue| == 1024)
      && (|s.queue| < 1024 ==> r.queue == s.queue + [s.acceptor.socket]) && (|s.queue| == 1024 ==> r.queue == s.queue)
  {
    hide IsRun, Accounted;
    RunKeeps(n, actions, s);
  }

  /** Sockets are queued in the order in which they were accepted. */
  ghost predicate InOrder(s: State)
  {
    && (forall i, j :: 0 <= i < j < |s.queue| ==> s.queue[i] < s.queue[j])
    && (forall i :: 0 <= i < |s.queue| ==> s.queue[i] < s.accepted)
    && (s.acceptor.Got? || s.acceptor.Pushing? || s.acceptor.Refusing? ==>
          s.acceptor.socket < s.accepted && forall i :: 0 <= i < |s.queue| ==> s.queue[i] < s.acceptor.socket)
  }

  lemma {:induction false} OrderKept(s: State, a: Action)
    requires Enabled(s, a) && InOrder(s)
    ensures InOrder(Step(s, a))
  {
    hide SomeWaiting, WakeAll;
  }

  lemma {:induction false} RunInOrder(n: nat, actions: seq<Action>, s: State)
    requires IsRun(n, actions, s)
    ensures InOrder(s)
    decreases |actions|
  {
    hide Step, Enabled;
    if actions != [] {
      var last, before := actions[|actions| - 1], actions[..|actions| - 1];
      var t :| IsRun(n, before, t) && Enabled(t, last) && s == Step(t, last);
      RunInOrder(n, before, t);
      OrderKept(t, last);
    }
  }

  /** A worker takes the socket that was accepted first of those queued. */
  lemma {:induction false} OldestFirst(n: nat, actions: seq<Action>, s: State, w: nat)
    requires IsRun(n, actions, s) && WorkerCan(s, w, Check) && s.queue != []
    ensures var r := WorkerStep(s, w, Check);
      && r.workers[w].Handling? && r.workers[w].socket in s.queue
      && (forall c :: c in s.queue ==> r.workers[w].socket <= c)
      && multiset(s.queue) == multiset(r.queue) + multiset{r.workers[w].socket}
  {
    hide IsRun;
    RunInOrder(n, actions, s);
    assert s.queue == [s.queue[0]] + s.queue[1..];
  }

  // ----- stopping ends -----

  /** Steps that a worker needs at most until it has exited. */
  function StepsLeft(w: Worker): nat
  {
    match w
    case Exited => 0
    case Holding => 1
    case Top => 2
    case Woken => 2
    case Handling(_) => 3
    case Sleepy => 0
    case Waiting => 0
  }

  function AllStepsLeft(workers: seq<Worker>): nat
  {
    if workers == [] then 0 else StepsLeft(workers[0]) + AllStepsLeft(workers[1..])
  }

  lemma {:induction false} LeftUpdate(workers: seq<Worker>, w: nat, to: Worker)
    requires w < |workers|
    ensures AllStepsLeft(workers[w := to]) + StepsLeft(workers[w]) == AllStepsLeft(workers) + StepsLeft(to)
  {
    if w == 0 {
      assert workers[0 := to][1..] == workers[1..];
    } else {
      LeftUpdate(workers[1..], w - 1, to);
      assert workers[w := to][1..] == workers[1..][w - 1 := to];
    }
  }

  /** After the notification nobody waits any more, some worker can move as long
      as one has not exited, and every move of a worker brings the end nearer:
      Stop returns. */
  lemma {:induction false} StopEnds(n: nat, actions: seq<Action>, s: State)
    requires IsRun(n, actions, s) && s.stopper.Notified?
    ensures forall w :: 0 <= w < |s.workers| ==> !s.workers[w].Waiting?
    ensures Enabled(s, ByStopper(JoinWorkers)) || exists w, a :: WorkerCan(s, w, a)
    ensures forall w: nat, a :: WorkerCan(s, w, a) ==> AllStepsLeft(WorkerStep(s, w, a).workers) < AllStepsLeft(s.workers)
  {
    RunKeeps(n, actions, s);
    assert Protocol(s);
    NoneWaits(s);
    if !Enabled(s, ByStopper(JoinWorkers)) {
      var w :| 0 <= w < |s.workers| && !s.workers[w].Exited?;
      var mover, act := Mover(s, w);
    }
    hide IsRun, Inv, Protocol, WorkerStep, WorkerCan, AllStepsLeft;
    forall w: nat, a | WorkerCan(s, w, a) ensures AllStepsLeft(WorkerStep(s, w, a).workers) < AllStepsLeft(s.workers) {
      NearerTheEnd(s, w, a);
    }
  }

  lemma {:induction false} NoneWaits(s: State)
    requires Protocol(s) && s.stopper.Notified?
    ensures forall w :: 0 <= w < |s.workers| ==> !s.workers[w].Waiting?
  {
  }

  lemma {:induction false} NearerTheEnd(s: State, w: nat, a: WorkerAction)
    requires Protocol(s) && s.stopper.Notified? && WorkerCan(s, w, a)
    ensures AllStepsLeft(WorkerStep(s, w, a).workers) < AllStepsLeft(s.workers)
  {
    LeftUpdate(s.workers, w, Next(s, w, a));
  }

  /** If the mutex is free, any worker that has not exited can move; otherwise
      its owner can. */
  lemma {:induction false} Mover(s: State, w: nat) returns (m: nat, a: WorkerAction)
    requires Protocol(s) && s.stopper.Notified? && w < |s.workers| && !s.workers[w].Exited?
    ensures WorkerCan(s, m, a)
  {
    if s.mutex.WorkerOwner? {
      m, a := s.mutex.w, Check;
    } else {
      m, a := w, if s.workers[w].Handling? then Handle else Lock;
    }
  }
}
