/** The acceptor thread and its workers: hand-over queues, eventfd signals, counters and shutdown,
    under every interleaving. A client is the number of its descriptor. */
module Dispatch {

  const SIGNAL_MAX: nat := 0xffff_ffff_ffff_fffe   // an eventfd holds no more; a further write is refused

  datatype Phase =
    | Waiting                  // in epoll_wait, or about to be
    | Reading                  // woken; reads the eventfd until it is empty
    | Swapping                 // read it empty, has not taken the queue yet
    | Draining                 // serves its local queue
    | LastSwapping | LastDraining | Discarding | Closing | Stopped

  datatype Worker = Worker(
    running: bool,
    phase: Phase,
    signal: nat,               // the eventfd counter
    queue: seq<int>,
    local: seq<int>,
    served: nat,               // sessions ever opened
    live: nat,                 // sessions now
    discarded: nat,
    enqueued: seq<int>,        // history: handed over
    handled: seq<int>          // history: opened, rejected or discarded
  )

  datatype Acceptor =
    | Polling
    | Holding(client: int)
    | Pushed(worker: nat)
    | Stopping(next: nat, flagged: bool)
    | Finished

  datatype State =
    State(acceptor: Acceptor, workers: seq<Worker>, limit: nat, accepted: nat, rejected: nat, active: nat)

  datatype Step =
    | Accept(client: int) | ConfigureFails | Push(w: nat) | Signal | Shutdown | Flag | SignalStop | AllAsked
    | Wake(w: nat) | Read(w: nat) | ReadEmpty(w: nat) | Swap(w: nat) | Serve(w: nat, opens: bool) | Drained(w: nat)
    | CloseOne(w: nat) | Leave(w: nat) | Discard(w: nat) | AllDiscarded(w: nat) | Finish(w: nat)

  predicate IsWorkerStep(step: Step) {
    !(step.Accept? || step.ConfigureFails? || step.Push? || step.Signal?
      || step.Shutdown? || step.Flag? || step.SignalStop? || step.AllAsked?)
  }

  predicate AcceptorCan(s: State, step: Step)
    requires !IsWorkerStep(step)
  {
    match step
    case Accept(_) => s.acceptor.Polling?
    case ConfigureFails => s.acceptor.Holding?
    case Push(w) => s.acceptor.Holding? && w < |s.workers|
    case Signal => s.acceptor.Pushed? && s.acceptor.worker < |s.workers|
    case Shutdown => s.acceptor.Polling?
    case Flag => s.acceptor.Stopping? && !s.acceptor.flagged && s.acceptor.next < |s.workers|
    case SignalStop => s.acceptor.Stopping? && s.acceptor.flagged && s.acceptor.next < |s.workers|
    case AllAsked => s.acceptor.Stopping? && !s.acceptor.flagged && s.acceptor.next == |s.workers|
  }

  predicate WorkerCan(w: Worker, step: Step)
    requires IsWorkerStep(step)
  {
    match step
    case Wake(_) => w.phase.Waiting? && w.signal > 0
    case Read(_) => w.phase.Reading? && w.signal > 0
    case ReadEmpty(_) => w.phase.Reading? && w.signal == 0
    case Swap(_) => w.phase.Swapping? || w.phase.LastSwapping?
    case Serve(_, _) => (w.phase.Draining? || w.phase.LastDraining?) && w.local != []
    case Drained(_) => (w.phase.Draining? || w.phase.LastDraining?) && w.local == []
    case CloseOne(_) => (w.phase.Waiting? || w.phase.Closing?) && w.live > 0
    case Leave(_) => w.phase.Waiting? && !w.running
    case Discard(_) => w.phase.Discarding? && w.queue != []
    case AllDiscarded(_) => w.phase.Discarding? && w.queue == []
    case Finish(_) => w.phase.Closing? && w.live == 0
  }

  predicate Enabled(s: State, step: Step) {
    if IsWorkerStep(step) then step.w < |s.workers| && WorkerCan(s.workers[step.w], step) else AcceptorCan(s, step)
  }

  /** A write to the eventfd succeeds, or is refused with the counter at its maximum. */
  function Signalled(w: Worker): Worker {
    w.(signal := if w.signal < SIGNAL_MAX then w.signal + 1 else w.signal)
  }

  function WorkerAfter(w: Worker, step: Step): Worker
    requires IsWorkerStep(step) && WorkerCan(w, step)
  {
    match step
    case Wake(_) => w.(phase := Reading)
    case Read(_) => w.(signal := 0)
    case ReadEmpty(_) => w.(phase := Swapping)
    case Swap(_) => w.(phase := if w.phase.Swapping? then Draining else LastDraining, local := w.queue, queue := [])
    case Serve(_, opens) =>
      var fetched := w.(local := w.local[1..], handled := w.handled + [w.local[0]]);
      if !w.running then fetched.(discarded := w.discarded + 1)
      else if opens then fetched.(served := w.served + 1, live := w.live + 1)
      else fetched
    case Drained(_) => w.(phase := if w.phase.Draining? then Waiting else Discarding)
    case CloseOne(_) => w.(live := w.live - 1)
    case Leave(_) => w.(phase := LastSwapping)
    case Discard(_) => w.(queue := w.queue[1..], handled := w.handled + [w.queue[0]], discarded := w.discarded + 1)
    case AllDiscarded(_) => w.(phase := Closing)
    case Finish(_) => w.(phase := Stopped)
  }

  /** The worker may take this step, and becomes `after`. */
  predicate Takes(w: Worker, step: Step, after: Worker) {
    IsWorkerStep(step) && WorkerCan(w, step) && after == WorkerAfter(w, step)
  }

  lemma ClosesOne(w: Worker)
    requires (w.phase.Waiting? || w.phase.Closing?) && w.live > 0
    ensures Takes(w, CloseOne(0), w.(live := w.live - 1))
  {
  }

  lemma ServesOne(w: Worker, opens: bool)
    requires (w.phase.Draining? || w.phase.LastDraining?) && w.local != []
    ensures
      var fetched := w.(local := w.local[1..], handled := w.handled + [w.local[0]]);
      Takes(w, Serve(0, opens), if !w.running then fetched.(discarded := w.discarded + 1)
                                else if opens then fetched.(served := w.served + 1, live := w.live + 1)
                                else fetched)
  {
  }

  function AcceptorAfter(s: State, step: Step): State
    requires !IsWorkerStep(step) && AcceptorCan(s, step)
  {
    match step
    case Accept(client) => s.(acceptor := Holding(client), accepted := s.accepted + 1)
    case ConfigureFails => s.(acceptor := Polling, rejected := s.rejected + 1)
    case Push(i) =>
      var w := s.workers[i];
      if !w.running || |w.queue| >= s.limit then s.(acceptor := Polling, rejected := s.rejected + 1)
      else
        var client := s.acceptor.client;
        s.(acceptor := Pushed(i),
           workers := s.workers[i := w.(queue := w.queue + [client], enqueued := w.enqueued + [client])])
    case Signal =>
      var i := s.acceptor.worker;
      s.(acceptor := Polling, workers := s.workers[i := Signalled(s.workers[i])])
    case Shutdown => s.(acceptor := Stopping(0, false))
    case Flag =>
      var i := s.acceptor.next;
      s.(acceptor := Stopping(i, true), workers := s.workers[i := s.workers[i].(running := false)])
    case SignalStop =>
      var i := s.acceptor.next;
      s.(acceptor := Stopping(i + 1, false), workers := s.workers[i := Signalled(s.workers[i])])
    case AllAsked => s.(acceptor := Finished)
  }

  function After(s: State, step: Step): State
    requires Enabled(s, step)
  {
    if IsWorkerStep(step) then
      var w := s.workers[step.w];
      s.(workers := s.workers[step.w := WorkerAfter(w, step)],
         rejected := if step.Serve? && w.running && !step.opens then s.rejected + 1 else s.rejected,
         active := if step.Serve? && w.running && step.opens then s.active + 1
                   else if step.CloseOne? && s.active > 0 then s.active - 1   // the guard of onClosed
                   else s.active)
    else AcceptorAfter(s, step)
  }

  predicate Schedule(s: State, steps: seq<Step>)
    decreases |steps|
  {
    steps == [] || (Enabled(s, steps[0]) && Schedule(After(s, steps[0]), steps[1..]))
  }

  function Final(s: State, steps: seq<Step>): State
    requires Schedule(s, steps)
    decreases |steps|
  {
    if steps == [] then s else Final(After(s, steps[0]), steps[1..])
  }

  function Launch(workers: nat, backlog: nat): State {
    State(Polling, seq(workers, _ => Worker(true, Waiting, 0, [], [], 0, 0, 0, [], [])), 4 * backlog, 0, 0, 0)
  }

  // The invariant.

  predicate Leaving(w: Worker) {
    w.phase.LastSwapping? || w.phase.LastDraining? || w.phase.Discarding? || w.phase.Closing? || w.phase.Stopped?
  }

  /** Somebody is on the way to a queue that is not empty. */
  predicate Attended(w: Worker, justPushed: bool) {
    w.queue != [] ==> w.signal > 0 || justPushed || w.phase.Reading? || w.phase.Swapping? || Leaving(w)
  }

  predicate WorkerFits(w: Worker, limit: nat) {
    && w.enqueued == w.handled + w.local + w.queue
    && |w.queue| <= limit
    && (w.local != [] ==> w.phase.Draining? || w.phase.LastDraining?)
    && (Leaving(w) || w.discarded > 0 ==> !w.running)
    && (w.phase.Closing? || w.phase.Stopped? ==> w.queue == [])
    && (w.phase.Stopped? ==> w.live == 0)
    && w.live <= w.served
  }

  predicate JustPushed(s: State, i: nat) {
    s.acceptor.Pushed? && s.acceptor.worker == i
  }

  /** Who has been asked to stop. */
  predicate Asked(s: State, i: nat) {
    match s.acceptor
    case Stopping(next, flagged) => i < next || (i == next && flagged)
    case Finished => true
    case _ => false
  }

  function Charge(w: Worker): nat {
    |w.local| + |w.queue| + w.served + w.discarded
  }

  function SumCharges(workers: seq<Worker>): nat {
    if workers == [] then 0 else SumCharges(workers[..|workers| - 1]) + Charge(workers[|workers| - 1])
  }

  function SumLive(workers: seq<Worker>): nat {
    if workers == [] then 0 else SumLive(workers[..|workers| - 1]) + workers[|workers| - 1].live
  }

  predicate Conserved(s: State) {
    && s.accepted == s.rejected + SumCharges(s.workers) + (if s.acceptor.Holding? then 1 else 0)
    && s.active == SumLive(s.workers)
  }

  predicate Coherent(s: State) {
    && (forall i | 0 <= i < |s.workers| :: WorkerFits(s.workers[i], s.limit))
    && (forall i | 0 <= i < |s.workers| :: Attended(s.workers[i], JustPushed(s, i)))
    && (forall i | 0 <= i < |s.workers| :: s.workers[i].running == !Asked(s, i))
    && (s.acceptor.Stopping? ==> s.acceptor.next + (if s.acceptor.flagged then 1 else 0) <= |s.workers|)
    && (s.acceptor.Pushed? ==> s.acceptor.worker < |s.workers|)
  }

  lemma {:induction false} SumsUpdated(workers: seq<Worker>, i: nat, w: Worker)
    requires i < |workers|
    ensures SumCharges(workers[i := w]) == SumCharges(workers) - Charge(workers[i]) + Charge(w)
    ensures SumLive(workers[i := w]) == SumLive(workers) - workers[i].live + w.live
  {
    var last := |workers| - 1;
    if i < last {
      SumsUpdated(workers[..last], i, w);
      assert workers[i := w][..last] == workers[..last][i := w];
    } else {
      assert workers[i := w][..last] == workers[..last];
    }
  }

  lemma {:induction false} SumLiveIsPositive(workers: seq<Worker>, i: nat)
    requires i < |workers| && workers[i].live > 0
    ensures SumLive(workers) > 0
  {
    if i < |workers| - 1 {
      SumLiveIsPositive(workers[..|workers| - 1], i);
    }
  }

  lemma WorkerStepFits(w: Worker, step: Step, limit: nat, justPushed: bool)
    requires IsWorkerStep(step) && WorkerCan(w, step) && WorkerFits(w, limit) && Attended(w, justPushed)
    ensures WorkerFits(WorkerAfter(w, step), limit) && Attended(WorkerAfter(w, step), justPushed)
    ensures WorkerAfter(w, step).running == w.running
  {
    if step.Serve? || step.Discard? || step.Swap? {
      ClientStepFits(w, step, limit, justPushed);
    }
  }

  lemma ClientStepFits(w: Worker, step: Step, limit: nat, justPushed: bool)
    requires step.Serve? || step.Discard? || step.Swap?
    requires WorkerCan(w, step) && WorkerFits(w, limit) && Attended(w, justPushed)
    ensures WorkerFits(WorkerAfter(w, step), limit) && Attended(WorkerAfter(w, step), justPushed)
  {
    if step.Serve? {
      FirstMoves(w.handled, w.local, w.queue);
    } else if step.Discard? {
      assert w.local == [];
      FirstMoves(w.handled, w.queue, []);
      assert w.handled + [] == w.handled && w.handled + [w.queue[0]] + [] == w.handled + [w.queue[0]];
    } else {
      assert w.local == [] && w.handled + [] == w.handled;
    }
  }

  lemma FirstMoves(a: seq<int>, b: seq<int>, c: seq<int>)
    requires b != []
    ensures a + [b[0]] + b[1..] + c == a + b + c
  {
    assert b == [b[0]] + b[1..];
  }

  function Given(w: Worker, client: int): Worker {
    w.(queue := w.queue + [client], enqueued := w.enqueued + [client])
  }

  /** Any number of clients handed over in a row. */
  function GivenAll(w: Worker, clients: seq<int>): Worker {
    w.(queue := w.queue + clients, enqueued := w.enqueued + clients)
  }

  lemma AcceptorTouchFits(w: Worker, limit: nat, justPushed: bool, client: int)
    requires WorkerFits(w, limit) && Attended(w, justPushed)
    ensures w.running && |w.queue| < limit ==> WorkerFits(Given(w, client), limit) && Attended(Given(w, client), true)
    ensures WorkerFits(Signalled(w), limit) && Attended(Signalled(w), false) && Signalled(w).running == w.running
    ensures WorkerFits(w.(running := false), limit) && Attended(w.(running := false), justPushed)
  {
    assert w.handled + w.local + (w.queue + [client]) == w.handled + w.local + w.queue + [client];
  }

  lemma WorkerStepIsCoherent(s: State, step: Step)
    requires Coherent(s) && Enabled(s, step) && IsWorkerStep(step)
    ensures Coherent(After(s, step))
  {
    var i := step.w;
    var w := WorkerAfter(s.workers[i], step);
    WorkerStepFits(s.workers[i], step, s.limit, JustPushed(s, i));
    var s' := After(s, step);
    assert s'.workers == s.workers[i := w] && s'.acceptor == s.acceptor && s'.limit == s.limit;
    hide WorkerFits, WorkerCan, WorkerAfter, Attended, After, Enabled;
    assert forall k | 0 <= k < |s.workers| :: s'.workers[k] == if k == i then w else s.workers[k];
  }

  lemma AcceptorStepIsCoherent(s: State, step: Step)
    requires Coherent(s) && Enabled(s, step) && !IsWorkerStep(step)
    ensures Coherent(After(s, step))
  {
    var s' := After(s, step);
    forall i | 0 <= i < |s.workers|
      ensures WorkerFits(s'.workers[i], s.limit) && Attended(s'.workers[i], JustPushed(s', i))
      ensures s'.workers[i].running == !Asked(s', i)
    {
      assert WorkerFits(s.workers[i], s.limit) && Attended(s.workers[i], JustPushed(s, i));
      assert s.workers[i].running == !Asked(s, i);
      AcceptorTouchFits(s.workers[i], s.limit, JustPushed(s, i), if s.acceptor.Holding? then s.acceptor.client else 0);
      hide WorkerFits, Attended, Signalled;
    }
  }

  lemma StepIsCoherent(s: State, step: Step)
    requires Coherent(s) && Enabled(s, step)
    ensures Coherent(After(s, step))
  {
    hide *;
    if IsWorkerStep(step) {
      WorkerStepIsCoherent(s, step);
    } else {
      AcceptorStepIsCoherent(s, step);
    }
  }

  /** A step turns a client away, or keeps it in the worker's books. */
  lemma StepKeepsBooks(w: Worker, step: Step, limit: nat)
    requires IsWorkerStep(step) && WorkerCan(w, step) && WorkerFits(w, limit)
    ensures Charge(w) == Charge(WorkerAfter(w, step)) + if step.Serve? && w.running && !step.opens then 1 else 0
    ensures step.CloseOne? ==> w.live > 0
    ensures WorkerAfter(w, step).live
         == w.live + (if step.Serve? && w.running && step.opens then 1 else 0) - (if step.CloseOne? then 1 else 0)
  {
  }

  lemma WorkerStepConserves(s: State, step: Step)
    requires Coherent(s) && Conserved(s) && Enabled(s, step) && IsWorkerStep(step)
    ensures Conserved(After(s, step))
  {
    hide SumCharges, SumLive, Coherent, Charge, WorkerAfter, WorkerCan, WorkerFits;
    WorkerOf(s, step.w);
    StepKeepsBooks(s.workers[step.w], step, s.limit);
    if step.CloseOne? {
      SumLiveIsPositive(s.workers, step.w);
    }
    SumsUpdated(s.workers, step.w, WorkerAfter(s.workers[step.w], step));
  }

  lemma WorkerOf(s: State, i: nat)
    requires Coherent(s) && i < |s.workers|
    ensures WorkerFits(s.workers[i], s.limit)
  {
  }

  /** The worker that a step of the acceptor may change. */
  function Touched(s: State, step: Step): nat {
    if step.Push? then step.w
    else if step.Signal? && s.acceptor.Pushed? then s.acceptor.worker
    else if s.acceptor.Stopping? then s.acceptor.next
    else 0
  }

  lemma AcceptorStepConserves(s: State, step: Step)
    requires Coherent(s) && Conserved(s) && Enabled(s, step) && !IsWorkerStep(step)
    ensures Conserved(After(s, step))
  {
    hide SumCharges, SumLive, Coherent;
    var s' := After(s, step);
    var i := Touched(s, step);
    if i < |s.workers| {
      SumsUpdated(s.workers, i, s'.workers[i]);
      assert s'.workers == s.workers[i := s'.workers[i]];
    }
  }

  lemma StepConserves(s: State, step: Step)
    requires Coherent(s) && Conserved(s) && Enabled(s, step)
    ensures Conserved(After(s, step))
  {
    hide *;
    if IsWorkerStep(step) {
      WorkerStepConserves(s, step);
    } else {
      AcceptorStepConserves(s, step);
    }
  }

  lemma {:induction false} NoneCharged(workers: seq<Worker>)
    requires forall i | 0 <= i < |workers| :: Charge(workers[i]) == 0 && workers[i].live == 0
    ensures SumCharges(workers) == 0 && SumLive(workers) == 0
  {
    if workers != [] {
      NoneCharged(workers[..|workers| - 1]);
    }
  }

  lemma {:induction false} ScheduleKeeps(s: State, steps: seq<Step>)
    requires Coherent(s) && Conserved(s) && Schedule(s, steps)
    ensures Coherent(Final(s, steps)) && Conserved(Final(s, steps))
    ensures |Final(s, steps).workers| == |s.workers| && Final(s, steps).limit == s.limit
    decreases |steps|
  {
    if steps != [] {
      StepIsCoherent(s, steps[0]);
      StepConserves(s, steps[0]);
      ScheduleKeeps(After(s, steps[0]), steps[1..]);
    }
  }

  // What every interleaving guarantees.

  lemma EveryInterleaving(workers: nat, backlog: nat, steps: seq<Step>)
    requires Schedule(Launch(workers, backlog), steps)
    ensures Coherent(Final(Launch(workers, backlog), steps)) && Conserved(Final(Launch(workers, backlog), steps))
    ensures |Final(Launch(workers, backlog), steps).workers| == workers
    ensures Final(Launch(workers, backlog), steps).limit == 4 * backlog
  {
    NoneCharged(Launch(workers, backlog).workers);
    ScheduleKeeps(Launch(workers, backlog), steps);
  }

  /** No lost wakeup: while a worker waits and nobody is between pushing and signalling, a client in
      its queue means that epoll_wait will return. */
  lemma NoLostWakeup(workers: nat, backlog: nat, steps: seq<Step>, i: nat)
    requires Schedule(Launch(workers, backlog), steps) && i < workers
    ensures
      var s := Final(Launch(workers, backlog), steps);
      && i < |s.workers|
      && (s.workers[i].queue != [] && s.workers[i].phase.Waiting? && !JustPushed(s, i) ==>
            s.workers[i].signal > 0 && Enabled(s, Wake(i)))
  {
    EveryInterleaving(workers, backlog, steps);
    hide Schedule, Final, Launch;
    var s := Final(Launch(workers, backlog), steps);
    assert Attended(s.workers[i], JustPushed(s, i));
  }

  /** First in, first out, and never more waiting than four times the backlog. */
  lemma HandoverIsFifo(workers: nat, backlog: nat, steps: seq<Step>, i: nat)
    requires Schedule(Launch(workers, backlog), steps) && i < workers
    ensures
      var s := Final(Launch(workers, backlog), steps);
      && i < |s.workers|
      && s.workers[i].handled + s.workers[i].local + s.workers[i].queue == s.workers[i].enqueued
      && |s.workers[i].queue| <= 4 * backlog
  {
    EveryInterleaving(workers, backlog, steps);
    hide Schedule, Final, Launch;
    var s := Final(Launch(workers, backlog), steps);
    assert WorkerFits(s.workers[i], s.limit);
  }

  /** After a shutdown every client was rejected, opened or discarded, and no session is left. */
  lemma ShutdownIsComplete(workers: nat, backlog: nat, steps: seq<Step>)
    requires Schedule(Launch(workers, backlog), steps)
    ensures
      var s := Final(Launch(workers, backlog), steps);
      (forall i | 0 <= i < |s.workers| :: s.workers[i].phase.Stopped?) && !s.acceptor.Holding? ==>
        && s.active == 0
        && s.accepted == s.rejected + SumServed(s.workers) + SumDiscarded(s.workers)
        && forall i | 0 <= i < |s.workers| :: s.workers[i].handled == s.workers[i].enqueued
  {
    EveryInterleaving(workers, backlog, steps);
    hide Schedule, Final, Launch;
    var s := Final(Launch(workers, backlog), steps);
    if forall i | 0 <= i < |s.workers| :: s.workers[i].phase.Stopped? {
      AllStopped(s.workers, s.limit);
    }
  }

  function SumServed(workers: seq<Worker>): nat {
    if workers == [] then 0 else SumServed(workers[..|workers| - 1]) + workers[|workers| - 1].served
  }

  function SumDiscarded(workers: seq<Worker>): nat {
    if workers == [] then 0 else SumDiscarded(workers[..|workers| - 1]) + workers[|workers| - 1].discarded
  }

  lemma {:induction false} AllStopped(workers: seq<Worker>, limit: nat)
    requires forall i | 0 <= i < |workers| :: WorkerFits(workers[i], limit) && workers[i].phase.Stopped?
    ensures SumCharges(workers) == SumServed(workers) + SumDiscarded(workers) && SumLive(workers) == 0
    ensures forall i | 0 <= i < |workers| :: workers[i].handled == workers[i].enqueued
  {
    if workers != [] {
      AllStopped(workers[..|workers| - 1], limit);
    }
  }

  /** While the system runs nothing is discarded: every client is rejected, waiting or opened. */
  lemma RunningLosesNobody(workers: nat, backlog: nat, steps: seq<Step>)
    requires Schedule(Launch(workers, backlog), steps)
    ensures
      var s := Final(Launch(workers, backlog), steps);
      s.acceptor.Polling? || s.acceptor.Pushed? ==>
        s.accepted == s.rejected + SumWaiting(s.workers) + SumServed(s.workers) && s.active == SumLive(s.workers)
  {
    EveryInterleaving(workers, backlog, steps);
    hide Schedule, Final, Launch;
    var s := Final(Launch(workers, backlog), steps);
    if s.acceptor.Polling? || s.acceptor.Pushed? {
      NoneDiscarded(s.workers, s.limit);
    }
  }

  function SumWaiting(workers: seq<Worker>): nat {
    if workers == [] then 0
    else SumWaiting(workers[..|workers| - 1]) + |workers[|workers| - 1].queue| + |workers[|workers| - 1].local|
  }

  lemma {:induction false} NoneDiscarded(workers: seq<Worker>, limit: nat)
    requires forall i | 0 <= i < |workers| :: WorkerFits(workers[i], limit) && workers[i].running
    ensures SumCharges(workers) == SumWaiting(workers) + SumServed(workers)
  {
    if workers != [] {
      NoneDiscarded(workers[..|workers| - 1], limit);
    }
  }

  /** The guard of onClosed never has to hold a counter at zero. */
  lemma ActiveIsNeverShort(workers: nat, backlog: nat, steps: seq<Step>, i: nat)
    requires Schedule(Launch(workers, backlog), steps) && Enabled(Final(Launch(workers, backlog), steps), CloseOne(i))
    ensures Final(Launch(workers, backlog), steps).active > 0
  {
    EveryInterleaving(workers, backlog, steps);
    SumLiveIsPositive(Final(Launch(workers, backlog), steps).workers, i);
  }

  // Progress: what a worker does next when it is left alone.

  /** The steps from each phase to the end, whatever happens. */
  function StepsFrom(phase: Phase): nat {
    match phase
    case Reading => 8
    case Swapping => 7
    case Draining => 6
    case Waiting => 5
    case LastSwapping => 4
    case LastDraining => 3
    case Discarding => 2
    case Closing => 1
    case Stopped => 0
  }

  /** What a worker has to do without being given more: its clients are fetched and closed, and a
      pending signal takes it through its loop once. */
  function Work(w: Worker): nat {
    2 * (|w.queue| + |w.local|) + w.live + StepsFrom(w.phase)
    + if w.signal == 0 then 0 else if w.phase.Reading? then 1 else 10
  }

  lemma WorkerStepWorks(w: Worker, step: Step, limit: nat)
    requires IsWorkerStep(step) && WorkerCan(w, step) && WorkerFits(w, limit)
    ensures Work(WorkerAfter(w, step)) < Work(w)
  {
  }

  /** The next step of a worker that has clients to fetch. */
  function NextStep(w: Worker, i: nat): Step {
    match w.phase
    case Waiting => if w.signal > 0 then Wake(i) else Leave(i)
    case Reading => if w.signal > 0 then Read(i) else ReadEmpty(i)
    case Swapping => Swap(i)
    case LastSwapping => Swap(i)
    case Draining => if w.local != [] then Serve(i, true) else Drained(i)
    case LastDraining => if w.local != [] then Serve(i, true) else Drained(i)
    case Discarding => if w.queue != [] then Discard(i) else AllDiscarded(i)
    case Closing => if w.live > 0 then CloseOne(i) else Finish(i)
    case Stopped => Finish(i)
  }

  /** From every reachable state in which the acceptor is not between pushing and signalling to this
      worker, the worker by itself fetches every client in its queue, whatever the phase it is in. */
  lemma {:induction false} LeftAloneItFetchesAll(s: State, i: nat) returns (steps: seq<Step>)
    requires Coherent(s) && i < |s.workers| && !JustPushed(s, i)
    ensures Schedule(s, steps) && (forall k | 0 <= k < |steps| :: IsWorkerStep(steps[k]) && steps[k].w == i)
    ensures
      var w := Final(s, steps).workers;
      i < |w| && w[i].queue == w[i].local == [] && w[i].handled == w[i].enqueued == s.workers[i].enqueued
    decreases Work(s.workers[i])
  {
    var w := s.workers[i];
    assert WorkerFits(w, s.limit) && Attended(w, JustPushed(s, i));
    if w.queue == [] && w.local == [] {
      return [];
    }
    var step := NextStep(w, i);
    Progress(w, s.limit, i);
    StepIsCoherent(s, step);
    var s' := After(s, step);
    assert s'.workers[i] == WorkerAfter(w, step) && s'.acceptor == s.acceptor && |s'.workers| == |s.workers|;
    hide Coherent, After, WorkerAfter, Enabled, WorkerFits, Attended, NextStep, Work;
    var rest := LeftAloneItFetchesAll(s', i);
    steps := [step] + rest;
    assert steps[1..] == rest;
  }

  /** In every reachable state whatsoever: at most the acceptor's pending signal, then the worker by
      itself fetches every client handed over to it. */
  lemma EveryClientIsFetched(workers: nat, backlog: nat, before: seq<Step>, i: nat) returns (steps: seq<Step>)
    requires Schedule(Launch(workers, backlog), before) && i < workers
    ensures
      var s := Final(Launch(workers, backlog), before);
      && Schedule(s, steps) && i < |s.workers|
      && (forall k | 0 <= k < |steps| ::
            if k == 0 && JustPushed(s, i) then steps[k] == Signal else IsWorkerStep(steps[k]) && steps[k].w == i)
      && var w := Final(s, steps).workers;
         i < |w| && w[i].queue == w[i].local == [] && w[i].handled == w[i].enqueued == s.workers[i].enqueued
  {
    var s := Final(Launch(workers, backlog), before);
    EveryInterleaving(workers, backlog, before);
    if JustPushed(s, i) {
      StepIsCoherent(s, Signal);
      var rest := LeftAloneItFetchesAll(After(s, Signal), i);
      steps := [Signal] + rest;
      assert steps[1..] == rest;
    } else {
      steps := LeftAloneItFetchesAll(s, i);
    }
  }

  lemma Progress(w: Worker, limit: nat, i: nat)
    requires WorkerFits(w, limit) && Attended(w, false) && (w.queue != [] || w.local != [])
    ensures
      var step := NextStep(w, i);
      && IsWorkerStep(step) && step.w == i && WorkerCan(w, step)
      && WorkerAfter(w, step).enqueued == w.enqueued
      && Work(WorkerAfter(w, step)) < Work(w)
  {
  }

  // Every run: how much work a client makes, and where a run that cannot go on has stopped.

  function SumWork(workers: seq<Worker>): nat {
    if workers == [] then 0 else SumWork(workers[..|workers| - 1]) + Work(workers[|workers| - 1])
  }

  function AcceptorWork(acceptor: Acceptor, workers: nat): int {
    match acceptor
    case Polling => 2 + 14 * workers
    case Holding(_) => 18 + 14 * workers
    case Pushed(_) => 14 + 14 * workers
    case Stopping(next, flagged) => 1 + 14 * (workers - next) - if flagged then 1 else 0
    case Finished => 0
  }

  function TotalWork(s: State): int {
    SumWork(s.workers) + AcceptorWork(s.acceptor, |s.workers|)
  }

  lemma {:induction false} WorkUpdated(workers: seq<Worker>, i: nat, w: Worker)
    requires i < |workers|
    ensures SumWork(workers[i := w]) == SumWork(workers) - Work(workers[i]) + Work(w)
  {
    var last := |workers| - 1;
    if i < last {
      WorkUpdated(workers[..last], i, w);
      assert workers[i := w][..last] == workers[..last][i := w];
    } else {
      assert workers[i := w][..last] == workers[..last];
    }
  }

  /** Only an accepted client makes work, and never more than sixteen steps of it. */
  lemma StepWorks(s: State, step: Step)
    requires Coherent(s) && Enabled(s, step)
    ensures TotalWork(After(s, step)) < TotalWork(s) + if step.Accept? then 17 else 0
  {
    if IsWorkerStep(step) {
      WorkerStepWorks(s.workers[step.w], step, s.limit);
      hide SumWork, Work, WorkerAfter, WorkerCan, WorkerFits;
      WorkUpdated(s.workers, step.w, WorkerAfter(s.workers[step.w], step));
    } else {
      AcceptorStepWorks(s, step);
    }
  }

  lemma AcceptorStepWorks(s: State, step: Step)
    requires Coherent(s) && Enabled(s, step) && !IsWorkerStep(step)
    ensures TotalWork(After(s, step)) < TotalWork(s) + if step.Accept? then 17 else 0
  {
    hide SumWork, Coherent;
    var i := Touched(s, step);
    var s' := After(s, step);
    if i < |s.workers| {
      WorkUpdated(s.workers, i, s'.workers[i]);
      assert s'.workers == s.workers[i := s'.workers[i]];
    }
  }

  function Accepts(steps: seq<Step>): nat {
    if steps == [] then 0 else (if steps[0].Accept? then 1 else 0) + Accepts(steps[1..])
  }

  lemma {:induction false} ScheduleWorks(s: State, steps: seq<Step>)
    requires Coherent(s) && Schedule(s, steps)
    ensures |steps| + TotalWork(Final(s, steps)) <= TotalWork(s) + 17 * Accepts(steps)
    ensures TotalWork(Final(s, steps)) >= 0
    decreases |steps|
  {
    hide TotalWork, Coherent, After, Enabled;
    if steps == [] {
      WorkIsPositive(s);
    } else {
      StepIsCoherent(s, steps[0]);
      StepWorks(s, steps[0]);
      ScheduleWorks(After(s, steps[0]), steps[1..]);
    }
  }

  lemma WorkIsPositive(s: State)
    requires Coherent(s)
    ensures TotalWork(s) >= 0
  {
  }

  lemma {:induction false} LaunchWorks(workers: seq<Worker>)
    requires forall i | 0 <= i < |workers| :: Work(workers[i]) == 5
    ensures SumWork(workers) == 5 * |workers|
  {
    if workers != [] {
      LaunchWorks(workers[..|workers| - 1]);
    }
  }

  /** The hand-over makes no busy loop: under every interleaving, acceptor and workers together take at most seventeen
      steps per accepted client, nineteen per worker and two more. */
  lemma EveryRunIsShort(workers: nat, backlog: nat, steps: seq<Step>)
    requires Schedule(Launch(workers, backlog), steps)
    ensures |steps| <= 2 + 19 * workers + 17 * Accepts(steps)
  {
    EveryInterleaving(workers, backlog, []);
    LaunchWorks(Launch(workers, backlog).workers);
    hide Schedule, Final, Coherent;
    ScheduleWorks(Launch(workers, backlog), steps);
  }

  /** Nothing happens any more unless a client comes, a session ends or the process is told to stop. */
  ghost predicate AtRest(s: State) {
    forall step: Step :: Enabled(s, step) ==> step.Accept? || step.Shutdown? || step.CloseOne?
  }

  lemma RestingWorkerIsDone(w: Worker, limit: nat, i: nat)
    requires WorkerFits(w, limit) && Attended(w, false)
    requires WorkerCan(w, NextStep(w, i)) ==> NextStep(w, i).CloseOne?
    ensures w.running ==> w.phase.Waiting? && w.queue == w.local == [] && w.handled == w.enqueued
    ensures !w.running ==> w.phase.Stopped? || (w.phase.Closing? && w.live > 0)
  {
  }

  /** A run that has come to rest, under whatever interleaving, has fetched every client that was
      handed over, in order; and if the process was told to stop, every worker has been asked to. */
  lemma AtRestAllIsFetched(workers: nat, backlog: nat, steps: seq<Step>)
    requires Schedule(Launch(workers, backlog), steps) && AtRest(Final(Launch(workers, backlog), steps))
    ensures
      var s := Final(Launch(workers, backlog), steps);
      && (s.acceptor.Polling? || s.acceptor.Finished?)
      && forall i | 0 <= i < |s.workers| ::
           && s.workers[i].queue == s.workers[i].local == [] && s.workers[i].handled == s.workers[i].enqueued
           && s.workers[i].running == s.acceptor.Polling?
           && (s.workers[i].running ==> s.workers[i].phase.Waiting?)
  {
    EveryInterleaving(workers, backlog, steps);
    var s := Final(Launch(workers, backlog), steps);
    hide Schedule, Final, Launch;
    RestingAcceptor(s);
    forall i | 0 <= i < |s.workers|
      ensures s.workers[i].queue == s.workers[i].local == [] && s.workers[i].handled == s.workers[i].enqueued
      ensures s.workers[i].running ==> s.workers[i].phase.Waiting?
    {
      RestingWorker(s, i);
    }
  }

  lemma RestingAcceptor(s: State)
    requires Coherent(s) && AtRest(s)
    ensures s.acceptor.Polling? || s.acceptor.Finished?
  {
    assert !Enabled(s, ConfigureFails);
    assert !Enabled(s, Signal);
    assert !Enabled(s, Flag) && !Enabled(s, SignalStop) && !Enabled(s, AllAsked);
  }

  lemma RestingWorker(s: State, i: nat)
    requires Coherent(s) && AtRest(s) && i < |s.workers|
    requires s.acceptor.Polling? || s.acceptor.Finished?
    ensures
      var w := s.workers[i];
      && w.queue == w.local == [] && w.handled == w.enqueued
      && (w.running ==> w.phase.Waiting?)
      && (!w.running ==> w.phase.Stopped? || Enabled(s, CloseOne(i)))
  {
    var w := s.workers[i];
    assert WorkerFits(w, s.limit) && Attended(w, JustPushed(s, i));
    assert IsWorkerStep(NextStep(w, i)) && NextStep(w, i).w == i;
    assert Enabled(s, NextStep(w, i)) == WorkerCan(w, NextStep(w, i));
    RestingWorkerIsDone(w, s.limit, i);
  }

  predicate Ending(s: State) {
    s.acceptor.Stopping? || s.acceptor.Finished?
  }

  lemma {:induction false} NothingComesAnyMore(s: State, steps: seq<Step>)
    requires Schedule(s, steps) && Ending(s)
    ensures Accepts(steps) == 0 && Ending(Final(s, steps))
    decreases |steps|
  {
    if steps != [] {
      NothingComesAnyMore(After(s, steps[0]), steps[1..]);
    }
  }

  /** Once the process has been told to stop, every run is over after a bounded number of steps, and
      however it was interleaved, a run that can go no further has asked every worker, stopped every
      worker, closed every session and settled every client. */
  lemma ShutdownEnds(workers: nat, backlog: nat, before: seq<Step>, rest: seq<Step>)
    requires Schedule(Launch(workers, backlog), before) && Ending(Final(Launch(workers, backlog), before))
    requires Schedule(Final(Launch(workers, backlog), before), rest)
    ensures |rest| <= TotalWork(Final(Launch(workers, backlog), before))
    ensures
      var s := Final(Final(Launch(workers, backlog), before), rest);
      (forall step: Step :: !Enabled(s, step)) ==>
        && s.acceptor.Finished?
        && s.active == 0
        && s.accepted == s.rejected + SumServed(s.workers) + SumDiscarded(s.workers)
        && forall i | 0 <= i < |s.workers| ::
             s.workers[i].phase.Stopped? && s.workers[i].handled == s.workers[i].enqueued
  {
    var start := Final(Launch(workers, backlog), before);
    EveryInterleaving(workers, backlog, before);
    ScheduleKeeps(start, rest);
    NothingComesAnyMore(start, rest);
    ScheduleWorks(start, rest);
    var s := Final(start, rest);
    hide Schedule, Final, Launch, TotalWork, Enabled;
    if forall step: Step :: !Enabled(s, step) {
      RestingAcceptor(s);
      forall i | 0 <= i < |s.workers| ensures s.workers[i].phase.Stopped? {
        RestingWorker(s, i);
        assert s.workers[i].running == !Asked(s, i);
      }
      AllStopped(s.workers, s.limit);
    }
  }

  lemma StoppingStep(s: State, i: nat)
    requires Coherent(s) && i < |s.workers| && !s.workers[i].running && !s.workers[i].phase.Stopped?
    ensures
      var step := NextStep(s.workers[i], i);
      && IsWorkerStep(step) && step.w == i && Enabled(s, step)
      && var after := After(s, step).workers;
         |after| == |s.workers| && !after[i].running && Work(after[i]) < Work(s.workers[i])
  {
    var w, step := s.workers[i], NextStep(s.workers[i], i);
    assert WorkerFits(w, s.limit) && WorkerCan(w, step);
    WorkerStepWorks(w, step, s.limit);
    hide Coherent, WorkerFits, Work, NextStep;
    assert After(s, step).workers[i] == WorkerAfter(w, step);
  }

  /** A worker that has been asked to stop reaches the end by itself, whatever it was doing. */
  lemma {:induction false} AskedItStops(s: State, i: nat) returns (steps: seq<Step>)
    requires Coherent(s) && i < |s.workers| && !s.workers[i].running
    ensures Schedule(s, steps) && (forall k | 0 <= k < |steps| :: IsWorkerStep(steps[k]) && steps[k].w == i)
    ensures i < |Final(s, steps).workers| && Final(s, steps).workers[i].phase.Stopped?
    decreases Work(s.workers[i])
  {
    var w := s.workers[i];
    if w.phase.Stopped? {
      return [];
    }
    var step := NextStep(w, i);
    StoppingStep(s, i);
    StepIsCoherent(s, step);
    hide Coherent, After, Enabled, NextStep, Work;
    var rest := AskedItStops(After(s, step), i);
    steps := [step] + rest;
    assert steps[1..] == rest;
  }

  // The life of a single worker, step by step.

  lemma {:induction false} Continued(s: State, steps: seq<Step>, more: seq<Step>)
    requires Schedule(s, steps) && Schedule(Final(s, steps), more)
    ensures Schedule(s, steps + more) && Final(s, steps + more) == Final(Final(s, steps), more)
    decreases |steps|
  {
    hide After, Enabled;
    if steps == [] {
      assert steps + more == more;
    } else {
      assert (steps + more)[0] == steps[0] && (steps + more)[1..] == steps[1..] + more;
      Continued(After(s, steps[0]), steps[1..], more);
    }
  }

  /** The only worker is `w` after these steps, and the acceptor is between two clients or, if the
      worker has been asked to stop, done. */
  predicate Lives(backlog: nat, steps: seq<Step>, w: Worker) {
    && Schedule(Launch(1, backlog), steps)
    && var s := Final(Launch(1, backlog), steps);
       && s.workers == [w] && s.limit == 4 * backlog && s.accepted == |w.enqueued|
       && s.acceptor == if w.running then Polling else Finished
  }

  lemma LifeBegins(backlog: nat)
    ensures Lives(backlog, [], Worker(true, Waiting, 0, [], [], 0, 0, 0, [], []))
  {
  }

  lemma OwnStep(s: State, w: Worker, step: Step, after: Worker)
    requires s.workers == [w] && Takes(w, step, after) && step.w == 0
    ensures Schedule(s, [step]) && Final(s, [step]) == After(s, step) && Enabled(s, step)
    ensures
      var s' := After(s, step);
      s'.workers == [after] && s'.limit == s.limit && s'.accepted == s.accepted && s'.acceptor == s.acceptor
    ensures after.running == w.running && after.enqueued == w.enqueued
  {
    assert [step][1..] == [];
  }

  lemma LivesOn(backlog: nat, steps: seq<Step>, w: Worker, step: Step, after: Worker)
    requires Lives(backlog, steps, w) && Takes(w, step, after) && step.w == 0
    ensures Lives(backlog, steps + [step], after)
  {
    hide Schedule, Final, Launch, Takes, After, Enabled;
    var s := Final(Launch(1, backlog), steps);
    OwnStep(s, w, step, after);
    Continued(Launch(1, backlog), steps, [step]);
  }

  function HandOver(client: int): seq<Step> {
    [Accept(client), Push(0), Signal]
  }

  lemma HandOverStep(s: State, w: Worker, client: int)
    requires s.workers == [w] && s.acceptor.Polling? && w.running && |w.queue| < s.limit
    ensures Schedule(s, HandOver(client))
    ensures Final(s, HandOver(client)) == s.(workers := [Signalled(Given(w, client))], accepted := s.accepted + 1)
  {
    var s1 := After(s, Accept(client));
    var s2 := After(s1, Push(0));
    var s3 := After(s2, Signal);
    assert HandOver(client)[1..] == [Push(0), Signal] && [Push(0), Signal][1..] == [Signal] && [Signal][1..] == [];
    assert Schedule(s2, [Signal]) && Final(s2, [Signal]) == s3;
    assert Schedule(s1, [Push(0), Signal]) && Final(s1, [Push(0), Signal]) == s3;
  }

  lemma LivesGiven(backlog: nat, steps: seq<Step>, w: Worker, client: int)
    requires Lives(backlog, steps, w) && w.running && |w.queue| < 4 * backlog
    ensures Lives(backlog, steps + HandOver(client), Signalled(Given(w, client)))
  {
    hide Schedule, Final, Launch;
    HandOverStep(Final(Launch(1, backlog), steps), w, client);
    Continued(Launch(1, backlog), steps, HandOver(client));
  }

  const STOP: seq<Step> := [Shutdown, Flag, SignalStop, AllAsked]

  lemma StopSteps(s: State, w: Worker)
    requires s.workers == [w] && s.acceptor.Polling?
    ensures Schedule(s, STOP)
    ensures Final(s, STOP) == s.(workers := [Signalled(w.(running := false))], acceptor := Finished)
  {
    var s1 := After(s, Shutdown);
    var s2 := After(s1, Flag);
    var s3 := After(s2, SignalStop);
    var s4 := After(s3, AllAsked);
    assert STOP[1..] == [Flag, SignalStop, AllAsked] && STOP[1..][1..] == [SignalStop, AllAsked];
    assert [SignalStop, AllAsked][1..] == [AllAsked] && [AllAsked][1..] == [];
    assert Schedule(s3, [AllAsked]) && Final(s3, [AllAsked]) == s4;
    assert Schedule(s2, [SignalStop, AllAsked]) && Final(s2, [SignalStop, AllAsked]) == s4;
    assert Schedule(s1, STOP[1..]) && Final(s1, STOP[1..]) == s4;
  }

  lemma LivesAsked(backlog: nat, steps: seq<Step>, w: Worker)
    requires Lives(backlog, steps, w) && w.running
    ensures Lives(backlog, steps + STOP, Signalled(w.(running := false)))
  {
    hide Schedule, Final, Launch;
    StopSteps(Final(Launch(1, backlog), steps), w);
    Continued(Launch(1, backlog), steps, STOP);
  }

  lemma {:induction false} AcceptsCounted(s: State, steps: seq<Step>)
    requires Schedule(s, steps)
    ensures Final(s, steps).accepted == s.accepted + Accepts(steps)
    decreases |steps|
  {
    if steps != [] {
      AcceptsCounted(After(s, steps[0]), steps[1..]);
    }
  }

  /** All results about interleavings hold of a life: the invariant, and the bound on its length. */
  lemma LifeIsOrderly(backlog: nat, steps: seq<Step>, w: Worker)
    requires Lives(backlog, steps, w)
    ensures WorkerFits(w, 4 * backlog) && Attended(w, false)
    ensures |steps| <= 21 + 17 * |w.enqueued|
  {
    EveryInterleaving(1, backlog, steps);
    EveryRunIsShort(1, backlog, steps);
    AcceptsCounted(Launch(1, backlog), steps);
    hide Schedule, WorkerFits, Attended;
    assert Final(Launch(1, backlog), steps).workers[0] == w;
    assert Launch(1, backlog).accepted == 0;
  }

  /** A life that has been asked to end can end by the worker's own steps. */
  lemma LifeCanEnd(backlog: nat, steps: seq<Step>, w: Worker) returns (more: seq<Step>, stopped: Worker)
    requires Lives(backlog, steps, w) && !w.running
    ensures Lives(backlog, steps + more, stopped) && stopped.phase.Stopped?
    ensures forall k | 0 <= k < |more| :: IsWorkerStep(more[k]) && more[k].w == 0
  {
    EveryInterleaving(1, backlog, steps);
    var s := Final(Launch(1, backlog), steps);
    more := AskedItStops(s, 0);
    Continued(Launch(1, backlog), steps, more);
    ScheduleKeeps(s, more);
    OwnStepsKeepAcceptor(s, more);
    stopped := Final(s, more).workers[0];
    assert Final(s, more).workers == [stopped];
  }

  lemma {:induction false} OwnStepsKeepAcceptor(s: State, steps: seq<Step>)
    requires Schedule(s, steps) && |s.workers| == 1
    requires forall k | 0 <= k < |steps| :: IsWorkerStep(steps[k]) && steps[k].w == 0
    ensures
      var r := Final(s, steps);
      && |r.workers| == 1 && r.limit == s.limit && r.acceptor == s.acceptor && r.accepted == s.accepted
      && r.workers[0].running == s.workers[0].running && r.workers[0].enqueued == s.workers[0].enqueued
    decreases |steps|
  {
    if steps != [] {
      OwnStepsKeepAcceptor(After(s, steps[0]), steps[1..]);
    }
  }
}
